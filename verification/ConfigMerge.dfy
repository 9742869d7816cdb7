/** Settings rows and the defaults they are merged with (systemMetadata.repository.ts). */
module ConfigMerge {
  import opened Model
  import opened Store

  datatype Json =
    | Null | Bool(truth: bool) | Num(number: real) | Str(text: string) | Arr(items: seq<Json>)
    | Obj(fields: map<string, Json>)

  type Fields = map<string, Json>

  /** `typeof value === 'object'` without the arrays; null counts. */
  predicate ObjectLike(j: Json) {
    j.Null? || j.Obj?
  }

  predicate AllNull(fields: Fields) {
    forall k :: k in fields ==> fields[k] == Null
  }

  // ---------- Merging ----------

  /** What becomes of a default when a stored value overrides it; `None` when the code throws, which is
      when it has to read or write a property of null. */
  function Merge(d: Json, o: Json): (r: Option<Json>)
    ensures d.Obj? && o.Obj? && r.Some? ==> r.value.Obj?
    decreases o
  {
    if o.Null? then Some(d)
    else if !o.Obj? || !ObjectLike(d) then Some(o)
    else if d.Null? then if AllNull(o.fields) then Some(Null) else None
    else if forall k :: k in o.fields && k in d.fields ==> Merge(d.fields[k], o.fields[k]).Some?
    then Some(Obj(map k | k in d.fields.Keys + o.fields.Keys && (k in d.fields || !o.fields[k].Null?) ::
                    if k !in o.fields then d.fields[k]
                    else if k !in d.fields then o.fields[k]
                    else Merge(d.fields[k], o.fields[k]).value))
    else None
  }

  method DeepMerge(defaults: Json, overrides: Json) returns (r: Option<Json>)
    requires ObjectLike(defaults) && overrides.Obj?
    ensures r == Merge(defaults, overrides)
    decreases overrides
  {
    var o := overrides.fields;
    var result := defaults;
    var keys := ListSet(o.Keys);
    for i := 0 to |keys|
      invariant defaults.Null? ==> result.Null? && forall j :: 0 <= j < i ==> o[keys[j]].Null?
      invariant defaults.Obj? ==> result.Obj?
      invariant defaults.Obj? ==>
                  forall j :: 0 <= j < i && keys[j] in defaults.fields ==>
                      Merge(defaults.fields[keys[j]], o[keys[j]]).Some?
      invariant defaults.Obj? ==>
                  forall k :: k in result.fields <==> k in defaults.fields || (k in keys[..i] && !o[k].Null?)
      invariant defaults.Obj? ==>
                  forall k :: k in result.fields ==>
                    result.fields[k] == if k !in keys[..i] then defaults.fields[k]
                                        else if k !in defaults.fields then o[k]
                                        else Merge(defaults.fields[k], o[k]).value
    {
      var key, value := keys[i], o[keys[i]];
      assert keys[..i + 1] == keys[..i] + [key];
      if value.Null? {
        continue;
      }
      if result.Null? {
        return None;
      }
      if value.Obj? && key in result.fields && ObjectLike(result.fields[key]) {
        var merged := DeepMerge(result.fields[key], value);
        if merged.None? {
          return None;
        }
        result := Obj(result.fields[key := merged.value]);
      } else {
        result := Obj(result.fields[key := value]);
      }
    }
    assert keys[..|keys|] == keys;
    r := Some(result);
    if defaults.Obj? {
      assert result.fields == Merge(defaults, overrides).value.fields;
    }
  }

  // ---------- What a merge means, path by path ----------

  function At(j: Json, path: seq<string>): Option<Json> {
    if path == [] then Some(j)
    else if j.Obj? && path[0] in j.fields then At(j.fields[path[0]], path[1..])
    else None
  }

  /** Nothing is stored at `path` or above it that would replace what the defaults have there. */
  predicate Uncovered(o: Json, path: seq<string>) {
    || o.Null?
    || (o.Obj? && path != [] && (path[0] in o.fields ==> Uncovered(o.fields[path[0]], path[1..])))
  }

  /** A stored value that is neither null nor an object is what the merge has at that path. */
  lemma {:induction false} StoredValuesWin(d: Json, o: Json, path: seq<string>)
    requires Merge(d, o).Some? && At(o, path).Some? && !ObjectLike(At(o, path).value)
    ensures At(Merge(d, o).value, path) == At(o, path)
    decreases path
  {
    if path != [] && d.Obj? && path[0] in d.fields {
      StoredValuesWin(d.fields[path[0]], o.fields[path[0]], path[1..]);
    }
  }

  /** Where nothing is stored the defaults show through. */
  lemma {:induction false} DefaultsFillGaps(d: Json, o: Json, path: seq<string>)
    requires Merge(d, o).Some? && At(d, path).Some? && Uncovered(o, path)
    ensures At(Merge(d, o).value, path) == At(d, path)
    decreases path
  {
    if path != [] && o.Obj? && path[0] in o.fields {
      DefaultsFillGaps(d.fields[path[0]], o.fields[path[0]], path[1..]);
    }
  }

  /** Nothing else is ever there. */
  lemma {:induction false} MergeInventsNothing(d: Json, o: Json, path: seq<string>)
    requires Merge(d, o).Some? && At(Merge(d, o).value, path).Some? && !At(Merge(d, o).value, path).value.Obj?
    ensures var v := At(Merge(d, o).value, path);
            v == At(o, path) || (v == At(d, path) && (Uncovered(o, path) || v == Some(Null)))
    decreases path
  {
    if path != [] && d.Obj? && o.Obj? && path[0] in d.fields && path[0] in o.fields {
      MergeInventsNothing(d.fields[path[0]], o.fields[path[0]], path[1..]);
    }
  }

  // ---------- When it throws ----------

  /** The defaults hold null where the stored row has an object with something in it. */
  predicate Clash(d: Json, o: Json, path: seq<string>) {
    && At(d, path) == Some(Null)
    && At(o, path).Some? && At(o, path).value.Obj? && !AllNull(At(o, path).value.fields)
  }

  lemma {:induction false} ThrowNeedsClash(d: Json, o: Json) returns (path: seq<string>)
    requires Merge(d, o).None?
    ensures Clash(d, o, path)
    decreases o
  {
    if d.Null? {
      path := [];
    } else {
      var k :| k in o.fields && k in d.fields && Merge(d.fields[k], o.fields[k]).None?;
      var rest := ThrowNeedsClash(d.fields[k], o.fields[k]);
      path := [k] + rest;
    }
  }

  lemma {:induction false} ClashThrows(d: Json, o: Json, path: seq<string>)
    requires Clash(d, o, path)
    ensures Merge(d, o).None?
    decreases path
  {
    if path != [] {
      ClashThrows(d.fields[path[0]], o.fields[path[0]], path[1..]);
    }
  }

  /** Merging throws exactly on a clash, so never when the defaults hold no null. */
  lemma MergeThrowsIffClash(d: Json, o: Json)
    ensures Merge(d, o).None? <==> exists path :: Clash(d, o, path)
    ensures (forall path :: At(d, path) != Some(Null)) ==> Merge(d, o).Some?
  {
    if Merge(d, o).None? {
      var path := ThrowNeedsClash(d, o);
    } else {
      forall path ensures !Clash(d, o, path) {
        if Clash(d, o, path) {
          ClashThrows(d, o, path);
        }
      }
    }
  }

  // ---------- Merging again ----------

  lemma {:induction false} MergeWithItself(d: Json)
    ensures Merge(d, d) == Some(d)
  {
    if d.Obj? {
      forall k | k in d.fields ensures Merge(d.fields[k], d.fields[k]) == Some(d.fields[k]) {
        MergeWithItself(d.fields[k]);
      }
      assert Merge(d, d).value.fields == d.fields;
    }
  }

  /** Storing what a merge produced and merging again changes nothing. */
  lemma {:induction false} MergeIsIdempotent(d: Json, o: Json)
    requires Merge(d, o).Some?
    ensures Merge(d, Merge(d, o).value) == Merge(d, o)
    decreases o
  {
    var m := Merge(d, o).value;
    MergeWithItself(d);
    if o.Obj? && d.Obj? {
      forall k | k in m.fields && k in d.fields ensures Merge(d.fields[k], m.fields[k]) == Some(m.fields[k]) {
        if k in o.fields {
          MergeIsIdempotent(d.fields[k], o.fields[k]);
        } else {
          MergeWithItself(d.fields[k]);
        }
      }
      assert Merge(d, m).value.fields == m.fields;
    }
  }

  /** Replacing one entry of a merged value by one that the default accepts as it is. */
  lemma MergeAfterReplacing(d: Fields, m: Fields, k: string, v: Json)
    requires Merge(Obj(d), Obj(m)) == Some(Obj(m))
    requires k in d && Merge(d[k], v) == Some(v)
    ensures Merge(Obj(d), Obj(m[k := v])) == Some(Obj(m[k := v]))
  {
    var w := m[k := v];
    forall x | x in w && x in d ensures Merge(d[x], w[x]) == Some(w[x]) {
      if x != k {
        assert Merge(Obj(d), Obj(m)).value.fields[x] == m[x];
      }
    }
    assert d.Keys <= Merge(Obj(d), Obj(m)).value.fields.Keys == m.Keys;
    forall x | x in w && x !in d ensures !w[x].Null? {
      assert x in Merge(Obj(d), Obj(m)).value.fields;
    }
    assert Merge(Obj(d), Obj(w)).value.fields == w;
  }

  // ---------- Settings rows ----------

  /** What reading a setting gives: the defaults under the stored row, `None` when merging throws. */
  function Read(defaults: Fields, rows: map<string, Fields>, key: string): Option<Fields> {
    if key !in rows then Some(defaults)
    else
      var merged := Merge(Obj(defaults), Obj(rows[key]));
      if merged.None? then None else Some(merged.value.fields)
  }

  /** A reading has what is stored, where that is neither null nor an object, and where nothing is stored the
      default; without a stored row it is the default. It fails exactly on a clash. */
  lemma ReadDecides(defaults: Fields, rows: map<string, Fields>, key: string, path: seq<string>)
    ensures key !in rows ==> Read(defaults, rows, key) == Some(defaults)
    ensures key in rows ==>
      (Read(defaults, rows, key).None? <==> exists p :: Clash(Obj(defaults), Obj(rows[key]), p))
    ensures key in rows && Read(defaults, rows, key).Some? ==>
      var stored, seen := At(Obj(rows[key]), path), At(Obj(Read(defaults, rows, key).value), path);
      && (stored.Some? && !ObjectLike(stored.value) ==> seen == stored)
      && (At(Obj(defaults), path).Some? && Uncovered(Obj(rows[key]), path) ==> seen == At(Obj(defaults), path))
  {
    if key in rows {
      MergeThrowsIffClash(Obj(defaults), Obj(rows[key]));
      if Read(defaults, rows, key).Some? {
        var stored := At(Obj(rows[key]), path);
        if stored.Some? && !ObjectLike(stored.value) {
          StoredValuesWin(Obj(defaults), Obj(rows[key]), path);
        }
        if At(Obj(defaults), path).Some? && Uncovered(Obj(rows[key]), path) {
          DefaultsFillGaps(Obj(defaults), Obj(rows[key]), path);
        }
      }
    }
  }

  function NewKeys(defaults: Fields, stored: Fields): set<string> {
    defaults.Keys - stored.Keys
  }

  /** The new keys are those of the defaults that the row lacks; there are none when it lacks none. */
  lemma NewKeysDecide(defaults: Fields, stored: Fields)
    ensures forall f :: f in NewKeys(defaults, stored) <==> f in defaults && f !in stored
    ensures NewKeys(defaults, stored) == {} <==> forall f :: f in defaults ==> f in stored
  {
    assert forall f :: f in defaults && f !in stored ==> f in NewKeys(defaults, stored);
  }

  class SystemMetadata {
    const defaults: map<string, Fields>
    var rows: map<string, Fields>

    constructor (defaults: map<string, Fields>)
      ensures this.defaults == defaults && rows == map[]
    {
      this.defaults, rows := defaults, map[];
    }

    method Get(key: string) returns (r: Option<Fields>)
      requires key in defaults
      ensures r == Read(defaults[key], rows, key)
    {
      if key !in rows {
        return Some(defaults[key]);
      }
      var merged := DeepMerge(Obj(defaults[key]), Obj(rows[key]));
      r := if merged.None? then None else Some(merged.value.fields);
    }

    method Set(key: string, value: Fields)
      modifies this
      ensures rows == old(rows)[key := value]
    {
      rows := rows[key := value];
    }

    /** Writes back the keys a stored row lacks. No reading changes by it, and afterwards none is lacking;
        a failing merge changes nothing. */
    method SyncDefaults(key: string) returns (r: Option<set<string>>)
      requires key in defaults
      modifies this
      ensures (key in old(rows) && NewKeys(defaults[key], old(rows)[key]) != {}
               && Read(defaults[key], old(rows), key).None?) ==>
                r == None && rows == old(rows)
      ensures key !in old(rows) ==> r == Some({}) && rows == old(rows)
      ensures key in old(rows) && r.Some? ==> r.value == NewKeys(defaults[key], old(rows)[key])
      ensures key in old(rows) && r == Some({}) ==> rows == old(rows)
      ensures key in rows && r.Some? ==> NewKeys(defaults[key], rows[key]) == {}
      ensures forall k :: k in defaults ==> Read(defaults[k], rows, k) == Read(defaults[k], old(rows), k)
      ensures key in old(rows) && r.Some? && r.value != {} ==>
                rows == old(rows)[key := Read(defaults[key], old(rows), key).value]
    {
      if key !in rows {
        return Some({});
      }
      var newKeys := NewKeys(defaults[key], rows[key]);
      if |newKeys| == 0 {
        return Some({});
      }
      var merged := DeepMerge(Obj(defaults[key]), Obj(rows[key]));
      if merged.None? {
        return None;
      }
      MergeIsIdempotent(Obj(defaults[key]), Obj(rows[key]));
      rows := rows[key := merged.value.fields];
      return Some(newKeys);
    }
  }

  // ---------- Changing one task ----------

  const TASKS := "tasks"

  datatype TaskPatch = TaskPatch(enabled: Option<bool>, runOnStartup: Option<bool>, cronExpression: Option<string>)

  /** The three columns of a task, possibly among others. */
  predicate HasTask(j: Json) {
    && j.Obj?
    && "enabled" in j.fields && j.fields["enabled"].Bool?
    && "runOnStartup" in j.fields && j.fields["runOnStartup"].Bool?
    && "cronExpression" in j.fields && j.fields["cronExpression"].Str?
  }

  function Patched(current: Json, patch: TaskPatch): (j: Json)
    requires HasTask(current)
    ensures HasTask(j)
  {
    Obj(map["enabled" := if patch.enabled.Some? then Bool(patch.enabled.value) else current.fields["enabled"],
            "runOnStartup" := if patch.runOnStartup.Some? then Bool(patch.runOnStartup.value)
                else current.fields["runOnStartup"],
            "cronExpression" := if patch.cronExpression.Some? then Str(patch.cronExpression.value)
                else current.fields["cronExpression"]])
  }

  /** A whole task overrides a default task completely. */
  lemma PatchedOverridesDefault(d: Json, current: Json, patch: TaskPatch)
    requires HasTask(d) && d.fields.Keys == {"enabled", "runOnStartup", "cronExpression"} && HasTask(current)
    ensures Merge(d, Patched(current, patch)) == Some(Patched(current, patch))
  {
    var v := Patched(current, patch);
    assert v.fields.Keys == d.fields.Keys;
    forall k | k in v.fields ensures Merge(d.fields[k], v.fields[k]) == Some(v.fields[k]) {
      assert !ObjectLike(v.fields[k]);
    }
    assert Merge(d, v).value.fields == v.fields;
  }

  /** Reads all tasks, changes one, and stores them all. As read afterwards exactly that task changed, in
      exactly the patched columns. `cronIsValid` is the verdict on the new expression. */
  method UpdateTask(metadata: SystemMetadata, name: string, patch: TaskPatch, cronIsValid: bool)
    returns (r: Result<Json>)
    requires TASKS in metadata.defaults && name in metadata.defaults[TASKS]
    requires HasTask(metadata.defaults[TASKS][name])
    requires metadata.defaults[TASKS][name].fields.Keys == {"enabled", "runOnStartup", "cronExpression"}
    requires var tasks := Read(metadata.defaults[TASKS], metadata.rows, TASKS);
             tasks.Some? ==> name in tasks.value && HasTask(tasks.value[name])
    modifies metadata
    ensures var tasks := Read(metadata.defaults[TASKS], old(metadata.rows), TASKS);
            if patch.cronExpression.Some? && !cronIsValid then r == Err(BadRequest)
                && metadata.rows == old(metadata.rows)
            else if tasks.None? then r == Err(Internal) && metadata.rows == old(metadata.rows)
            else r == Ok(Patched(tasks.value[name], patch))
                 && Read(metadata.defaults[TASKS], metadata.rows, TASKS) == Some(tasks.value[name := r.value])
    ensures forall key :: key in metadata.defaults && key != TASKS ==>
              Read(metadata.defaults[key], metadata.rows, key) == Read(metadata.defaults[key], old(metadata.rows), key)
  {
    hide Merge;
    if patch.cronExpression.Some? && !cronIsValid {
      return Err(BadRequest);
    }
    var tasks := metadata.Get(TASKS);
    if tasks.None? {
      return Err(Internal);
    }
    var updated := Patched(tasks.value[name], patch);
    metadata.Set(TASKS, tasks.value[name := updated]);
    ReadIsStable(metadata.defaults[TASKS], old(metadata.rows), TASKS);
    PatchedOverridesDefault(metadata.defaults[TASKS][name], tasks.value[name], patch);
    MergeAfterReplacing(metadata.defaults[TASKS], tasks.value, name, updated);
    r := Ok(updated);
  }

  lemma ReadIsStable(defaults: Fields, rows: map<string, Fields>, key: string)
    requires Read(defaults, rows, key).Some?
    ensures Merge(Obj(defaults), Obj(Read(defaults, rows, key).value)) == Some(Obj(Read(defaults, rows, key).value))
  {
    if key in rows {
      MergeIsIdempotent(Obj(defaults), Obj(rows[key]));
    } else {
      MergeWithItself(Obj(defaults));
    }
  }

  /** A patched task has the columns of the patch, and else those it had. */
  lemma PatchedDecides(current: Json, patch: TaskPatch)
    requires HasTask(current)
    ensures var j := Patched(current, patch);
      && j.fields.Keys == {"enabled", "runOnStartup", "cronExpression"}
      && (patch.enabled == None ==> j.fields["enabled"] == current.fields["enabled"])
      && (patch.enabled != None ==> j.fields["enabled"] == Bool(patch.enabled.value))
      && (patch.runOnStartup == None ==> j.fields["runOnStartup"] == current.fields["runOnStartup"])
      && (patch.runOnStartup != None ==> j.fields["runOnStartup"] == Bool(patch.runOnStartup.value))
      && (patch.cronExpression == None ==> j.fields["cronExpression"] == current.fields["cronExpression"])
      && (patch.cronExpression != None ==> j.fields["cronExpression"] == Str(patch.cronExpression.value))
  {
  }
}
