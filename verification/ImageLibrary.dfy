/** The image library and its queue of changes (imageLibrary.service.ts). Every change waits for the promise
    of the one submitted before it; between the awaits of one body other work goes on. */
module ImageLibrary {
  import opened Model
  import opened Store

  const MAX_IMAGES: nat := 500
  const MAX_LIBRARY_BYTES: nat := 100 * 1024 * 1024
  const PROTECTED_NAMES: set<string> := {"logo.svg"}

  type Content = seq<bv8>
  type Files = map<string, Content>

  /** `clean` is the validated image, `None` when its name, encoding or contents are refused. */
  datatype Request = Upload(name: string, clean: Option<Content>) | Remove(name: string, wellNamed: bool)

  datatype Status = Waiting | Started | Checked | Fulfilled | Rejected(error: Error)

  /** `after` is the promise in `mutations` when the job was submitted. */
  datatype Job = Job(request: Request, after: Option<nat>, status: Status)

  /** `inUse` are the images some service shows; services change independently of the library. */
  datatype State = State(files: Files, inUse: set<string>, jobs: seq<Job>, mutations: Option<nat>)

  /** How the file system takes a commit: everything works, nothing reaches the directory, or only the
      clean-up of the temporary file fails. */
  datatype Io = Fine | FailsBefore | FailsAfter

  datatype Step =
    | Submit(request: Request)
    | Start(j: nat)
    | Check(j: nat, listFails: bool)
    | Commit(j: nat, io: Io)
    | Services(inUse: set<string>)

  predicate IsSettled(s: Status) {
    s.Fulfilled? || s.Rejected?
  }

  predicate IsRunning(s: Status) {
    s.Started? || s.Checked?
  }

  function Lower(c: char): char {
    if 'A' <= c <= 'Z' then c - 'A' + 'a' else c
  }

  predicate IsProtected(name: string) {
    seq(|name|, i requires 0 <= i < |name| => Lower(name[i])) in PROTECTED_NAMES
  }

  /** The bytes of all images together. */
  ghost function Total(files: Files): nat {
    if files == map[] then 0
    else
      var k :| k in files;
      |files[k]| + Total(files - {k})
  }

  // ---------- One body ----------

  /** The outcome of everything a body does before it changes the directory. */
  ghost function CheckedStatus(files: Files, inUse: set<string>, request: Request, listFails: bool): Status {
    match request
    case Upload(name, clean) =>
      if clean.None? then Rejected(BadRequest)
      else if listFails then Rejected(Internal)
      else if |files| >= MAX_IMAGES || Total(files) + |clean.value| > MAX_LIBRARY_BYTES then Rejected(Conflict)
      else Checked
    case Remove(name, wellNamed) =>
      if !wellNamed then Rejected(BadRequest)
      else if listFails then Rejected(Internal)
      else if name !in files then Rejected(NotFound)
      else if IsProtected(name) || name in inUse then Rejected(Conflict)
      else Checked
  }

  /** Publishing refuses an existing name; cleaning up afterwards may still fail, and its error wins. */
  function Committed(files: Files, request: Request, io: Io): (Files, Status) {
    match request
    case Upload(name, clean) =>
      if io.FailsBefore? || clean.None? then (files, Rejected(Internal))
      else
        var after := if name in files then files else files[name := clean.value];
        (after, if io.FailsAfter? then Rejected(Internal) else if name in files then Rejected(Conflict) else Fulfilled)
    case Remove(name, _) =>
      if io.Fine? then (files - {name}, Fulfilled) else (files, Rejected(Internal))
  }

  // ---------- The queue ----------

  predicate MayStart(s: State, j: nat) {
    && j < |s.jobs| && s.jobs[j].status.Waiting?
    && (s.jobs[j].after.Some? ==>
          s.jobs[j].after.value < |s.jobs| && IsSettled(s.jobs[s.jobs[j].after.value].status))
  }

  predicate StatusIs(s: State, j: nat, status: Status) {
    j < |s.jobs| && s.jobs[j].status == status
  }

  function Set(s: State, j: nat, status: Status): State
    requires j < |s.jobs|
  {
    s.(jobs := s.jobs[j := s.jobs[j].(status := status)])
  }

  /** One step. A step that is not enabled changes nothing. */
  ghost function Next(s: State, step: Step): State {
    match step
    case Submit(request) =>
      s.(jobs := s.jobs + [Job(request, s.mutations, Waiting)], mutations := Some(|s.jobs|))
    case Start(j) => if MayStart(s, j) then Set(s, j, Started) else s
    case Check(j, listFails) =>
      if StatusIs(s, j, Started) then Set(s, j, CheckedStatus(s.files, s.inUse, s.jobs[j].request, listFails)) else s
    case Commit(j, io) =>
      if StatusIs(s, j, Checked)
      then
        var (files, status) := Committed(s.files, s.jobs[j].request, io);
        Set(s.(files := files), j, status)
      else s
    case Services(inUse) => s.(inUse := inUse)
  }

  ghost function After(files: Files, steps: seq<Step>): State {
    if steps == [] then State(files, {}, [], None)
    else Next(After(files, steps[..|steps| - 1]), steps[|steps| - 1])
  }

  class ImageLibraryService {
    var files: Files
    var inUse: set<string>
    var jobs: seq<Job>
    var mutations: Option<nat>

    function View(): State
      reads this
    {
      State(files, inUse, jobs, mutations)
    }

    constructor (files: Files)
      ensures View() == After(files, [])
    {
      this.files, inUse, jobs, mutations := files, {}, [], None;
    }

    /** `mutations.then(action)`, and the new tail is its settlement either way. */
    method Exclusive(request: Request) returns (j: nat)
      modifies this
      ensures View() == Next(old(View()), Submit(request)) && j == |old(jobs)|
    {
      j := |jobs|;
      jobs := jobs + [Job(request, mutations, Waiting)];
      mutations := Some(j);
    }

    method Begin(j: nat)
      requires MayStart(View(), j)
      modifies this
      ensures View() == Next(old(View()), Start(j))
    {
      jobs := jobs[j := jobs[j].(status := Started)];
    }

    /** The sum over the listing. */
    method Measure() returns (total: nat)
      ensures total == Total(files)
    {
      total := 0;
      var names := ListSet(files.Keys);
      ghost var left := files;
      for i := 0 to |names|
        invariant left.Keys == set k | k in files && k !in names[..i]
        invariant forall k :: k in left ==> left[k] == files[k]
        invariant total + Total(left) == Total(files)
      {
        hide Total;
        assert names[i] !in names[..i] && names[..i + 1] == names[..i] + [names[i]];
        TotalSplits(left, names[i]);
        total := total + |files[names[i]]|;
        left := left - {names[i]};
      }
      assert left == map[];
    }

    method CheckBody(j: nat, listFails: bool)
      requires StatusIs(View(), j, Started)
      modifies this
      ensures View() == Next(old(View()), Check(j, listFails))
    {
      var status := Checked;
      match jobs[j].request {
        case Upload(name, clean) =>
          if clean.None? {
            status := Rejected(BadRequest);
          } else if listFails {
            status := Rejected(Internal);
          } else {
            var total := Measure();
            if |files| >= MAX_IMAGES || total + |clean.value| > MAX_LIBRARY_BYTES {
              status := Rejected(Conflict);
            }
          }
        case Remove(name, wellNamed) =>
          if !wellNamed {
            status := Rejected(BadRequest);
          } else if listFails {
            status := Rejected(Internal);
          } else if name !in files {
            status := Rejected(NotFound);
          } else if IsProtected(name) || name in inUse {
            status := Rejected(Conflict);
          }
      }
      jobs := jobs[j := jobs[j].(status := status)];
    }

    /** A temporary file, a link that refuses to overwrite, and an unlink whose failure replaces whatever came
        before. */
    method WriteNew(name: string, content: Content, io: Io) returns (r: Result<()>)
      modifies this`files
      ensures r.Ok? <==> io.Fine? && name !in old(files)
      ensures r.Err? ==> r.error == if io.Fine? then Conflict else Internal
      ensures forall n :: n in files <==> n in old(files) || (n == name && !io.FailsBefore?)
      ensures forall n :: n in files ==> files[n] == if n in old(files) then old(files)[n] else content
    {
      r := Ok(());
      var temporary: Option<Content> := None;
      if io.FailsBefore? {
        r := Err(Internal);
      } else {
        temporary := Some(content);
        if name in files {
          r := Err(Conflict);
        } else {
          files := files[name := temporary.value];
        }
      }
      if temporary.Some? && io.FailsAfter? {
        r := Err(Internal);
      }
    }

    /** Opens the file once more without following links, and unlinks it. */
    method Unlink(name: string, io: Io) returns (r: Result<()>)
      modifies this`files
      ensures r == if io.Fine? then Ok(()) else Err(Internal)
      ensures forall n :: n in files <==> n in old(files) && (n == name ==> !io.Fine?)
      ensures forall n :: n in files ==> files[n] == old(files)[n]
    {
      if !io.Fine? {
        return Err(Internal);
      }
      files := files - {name};
      return Ok(());
    }

    method CommitBody(j: nat, io: Io)
      requires StatusIs(View(), j, Checked)
      modifies this
      ensures View() == Next(old(View()), Commit(j, io))
    {
      ghost var before := files;
      var r: Result<()>;
      match jobs[j].request {
        case Upload(name, clean) =>
          if clean.None? {
            r := Err(Internal);
          } else {
            r := WriteNew(name, clean.value, io);
          }
        case Remove(name, _) =>
          r := Unlink(name, io);
      }
      assert files == Committed(before, jobs[j].request, io).0;
      jobs := jobs[j := jobs[j].(status := if r.Ok? then Fulfilled else Rejected(r.error))];
    }
  }

  lemma {:induction false} TotalSplits(files: Files, k: string)
    requires k in files
    ensures Total(files) == |files[k]| + Total(files - {k})
    decreases |files|
  {
    var x :| x in files && Total(files) == |files[x]| + Total(files - {x});
    if x != k {
      TotalSplits(files - {x}, k);
      TotalSplits(files - {k}, x);
      assert files - {x} - {k} == files - {k} - {x};
    }
  }

  lemma TotalOfPublished(files: Files, name: string, content: Content)
    requires name !in files
    ensures Total(files[name := content]) == Total(files) + |content| && |files[name := content]| == |files| + 1
  {
    TotalSplits(files[name := content], name);
    assert files[name := content] - {name} == files;
    assert files[name := content].Keys == files.Keys + {name};
  }

  lemma TotalOfRemoved(files: Files, name: string)
    ensures Total(files - {name}) <= Total(files) && |files - {name}| <= |files|
  {
    if name in files {
      TotalSplits(files, name);
      assert (files - {name}).Keys == files.Keys - {name};
    } else {
      assert files - {name} == files;
    }
  }

  // ---------- One at a time, in order ----------

  /** Each job waits for the one before it, and nothing has begun unless all before it are settled. */
  ghost predicate InOrder(s: State) {
    && s.mutations == (if s.jobs == [] then None else Some(|s.jobs| - 1))
    && (forall j :: 0 <= j < |s.jobs| ==> s.jobs[j].after == if j == 0 then None else Some(j - 1))
    && (forall i, j :: 0 <= i < j < |s.jobs| && !s.jobs[j].status.Waiting? ==> IsSettled(s.jobs[i].status))
  }

  lemma StepKeepsOrder(s: State, step: Step)
    requires InOrder(s)
    ensures InOrder(Next(s, step))
  {
    hide CheckedStatus, Committed;
    var out := Next(s, step);
    forall i, j | 0 <= i < j < |out.jobs| && !out.jobs[j].status.Waiting? ensures IsSettled(out.jobs[i].status) {
      assert j < |s.jobs| && !s.jobs[j].status.Waiting? ==> IsSettled(s.jobs[i].status);
      if step.Start? && step.j == j && i < j - 1 && MayStart(s, j) {
        assert IsSettled(s.jobs[j - 1].status) && IsSettled(s.jobs[i].status);
      }
    }
  }

  lemma {:induction false} AlwaysInOrder(files: Files, steps: seq<Step>)
    ensures InOrder(After(files, steps))
  {
    if steps != [] {
      AlwaysInOrder(files, steps[..|steps| - 1]);
      StepKeepsOrder(After(files, steps[..|steps| - 1]), steps[|steps| - 1]);
    }
  }

  /** Bodies run one at a time and in the order of submission. */
  lemma OneAtATime(files: Files, steps: seq<Step>, i: nat, j: nat)
    requires var jobs := After(files, steps).jobs; i < |jobs| && j < |jobs| && IsRunning(jobs[j].status)
    ensures var jobs := After(files, steps).jobs;
            && (i < j ==> IsSettled(jobs[i].status))
            && (i > j ==> jobs[i].status == Waiting)
  {
    AlwaysInOrder(files, steps);
  }

  /** A rejection never holds up the queue: as long as something is unsettled, the first such job can move. */
  lemma QueueNeverStalls(files: Files, steps: seq<Step>, j: nat) returns (step: Step)
    requires var jobs := After(files, steps).jobs;
             j < |jobs| && !IsSettled(jobs[j].status) && forall i :: 0 <= i < j ==> IsSettled(jobs[i].status)
    ensures Next(After(files, steps), step).jobs[j].status != After(files, steps).jobs[j].status
  {
    AlwaysInOrder(files, steps);
    step := match After(files, steps).jobs[j].status
      case Waiting => Start(j)
      case Started => Check(j, false)
      case _ => Commit(j, Fine);
  }

  // ---------- Limits ----------

  /** What a checked job was promised still holds of the directory as it is now. */
  ghost predicate StillGood(s: State, j: nat)
    requires j < |s.jobs|
  {
    match s.jobs[j].request
    case Upload(_, clean) =>
      clean.Some? && |s.files| < MAX_IMAGES && Total(s.files) + |clean.value| <= MAX_LIBRARY_BYTES
    case Remove(name, _) => name in s.files && !IsProtected(name)
  }

  ghost predicate ChecksHold(s: State) {
    forall j :: 0 <= j < |s.jobs| && s.jobs[j].status.Checked? ==> StillGood(s, j)
  }

  lemma StepKeepsChecks(s: State, step: Step)
    requires InOrder(s) && ChecksHold(s)
    ensures ChecksHold(Next(s, step))
  {
  }

  lemma {:induction false} ChecksAlwaysHold(files: Files, steps: seq<Step>)
    ensures ChecksHold(After(files, steps))
  {
    if steps != [] {
      var rest := steps[..|steps| - 1];
      ChecksAlwaysHold(files, rest);
      AlwaysInOrder(files, rest);
      StepKeepsChecks(After(files, rest), steps[|steps| - 1]);
    }
  }

  function Max(a: nat, b: nat): nat {
    if a < b then b else a
  }

  lemma StepKeepsLimits(s: State, step: Step, images: nat, bytes: nat)
    requires ChecksHold(s) && |s.files| <= Max(images, MAX_IMAGES) && Total(s.files) <= Max(bytes, MAX_LIBRARY_BYTES)
    ensures |Next(s, step).files| <= Max(images, MAX_IMAGES)
    ensures Total(Next(s, step).files) <= Max(bytes, MAX_LIBRARY_BYTES)
  {
    hide Total, CheckedStatus;
    if step.Commit? && StatusIs(s, step.j, Checked) {
      assert StillGood(s, step.j);
      match s.jobs[step.j].request
      case Upload(name, clean) =>
        if name !in s.files {
          TotalOfPublished(s.files, name, clean.value);
        }
      case Remove(name, _) => TotalOfRemoved(s.files, name);
    }
  }

  /** Whatever is uploaded and removed, and however it interleaves, the library never grows beyond its limits
      (or beyond what was there to begin with, if that was more). */
  lemma {:induction false} LimitsHold(files: Files, steps: seq<Step>)
    ensures |After(files, steps).files| <= Max(|files|, MAX_IMAGES)
    ensures Total(After(files, steps).files) <= Max(Total(files), MAX_LIBRARY_BYTES)
  {
    if steps != [] {
      hide Total, Next, ChecksHold;
      var rest := steps[..|steps| - 1];
      LimitsHold(files, rest);
      ChecksAlwaysHold(files, rest);
      StepKeepsLimits(After(files, rest), steps[|steps| - 1], |files|, Total(files));
    }
  }

  // ---------- Published images ----------

  /** A published image is never overwritten: while a name stays, so does its content. */
  lemma {:induction false} NeverOverwritten(files: Files, steps: seq<Step>, n: nat, name: string)
    requires n <= |steps|
    requires forall m :: n <= m <= |steps| ==> name in After(files, steps[..m]).files
    ensures name in After(files, steps).files && After(files, steps).files[name] == After(files, steps[..n]).files[name]
    decreases |steps|
  {
    hide Next, Committed, CheckedStatus;
    assert steps[..|steps|] == steps;
    if n < |steps| {
      var rest := steps[..|steps| - 1];
      forall m | n <= m <= |rest| ensures rest[..m] == steps[..m] {
      }
      NeverOverwritten(files, rest, n, name);
      ContentStays(After(files, rest), steps[|steps| - 1], name);
    }
  }

  lemma ContentStays(s: State, step: Step, name: string)
    requires name in s.files && name in Next(s, step).files
    ensures Next(s, step).files[name] == s.files[name]
  {
  }

  lemma BecomesChecked(s: State, step: Step, j: nat)
    requires !StatusIs(s, j, Checked) && StatusIs(Next(s, step), j, Checked)
    ensures step.Check? && step.j == j && StatusIs(s, j, Started)
  {
  }

  /** An image goes only by a removal whose check found it neither protected nor in use. */
  lemma {:induction false} CheckedWhileUnused(files: Files, steps: seq<Step>, j: nat) returns (c: nat)
    requires StatusIs(After(files, steps), j, Checked) && After(files, steps).jobs[j].request.Remove?
    ensures c < |steps| && steps[c].Check? && steps[c].j == j
    ensures var s, name := After(files, steps[..c]), After(files, steps).jobs[j].request.name;
            name in s.files && name !in s.inUse && !IsProtected(name)
    decreases |steps|
  {
    hide Total, IsProtected, Committed;
    var rest, step := steps[..|steps| - 1], steps[|steps| - 1];
    assert rest == steps[..|steps| - 1];
    if StatusIs(After(files, rest), j, Checked) {
      c := CheckedWhileUnused(files, rest, j);
      assert rest[..c] == steps[..c];
    } else {
      BecomesChecked(After(files, rest), step, j);
      c := |steps| - 1;
    }
  }

  /** When an image vanishes, the job that removes it had found it unprotected and unused. */
  lemma RemovedWasUnused(files: Files, steps: seq<Step>, step: Step, name: string) returns (c: nat)
    requires name in After(files, steps).files && name !in Next(After(files, steps), step).files
    ensures step.Commit? && c < |steps| && steps[c].Check? && steps[c].j == step.j
    ensures name in After(files, steps[..c]).files && name !in After(files, steps[..c]).inUse && !IsProtected(name)
  {
    hide Total, IsProtected, CheckedStatus;
    c := CheckedWhileUnused(files, steps, step.j);
  }

  /** A protected image is there for good. */
  lemma {:induction false} ProtectedImagesStay(files: Files, steps: seq<Step>, n: nat, name: string)
    requires n <= |steps| && IsProtected(name) && name in After(files, steps[..n]).files
    ensures name in After(files, steps).files && After(files, steps).files[name] == After(files, steps[..n]).files[name]
    decreases |steps|
  {
    hide Next, IsProtected;
    if n == |steps| {
      assert steps[..n] == steps;
    } else {
      var rest, step := steps[..|steps| - 1], steps[|steps| - 1];
      assert rest[..n] == steps[..n];
      ProtectedImagesStay(files, rest, n, name);
      if name in Next(After(files, rest), step).files {
        ContentStays(After(files, rest), step, name);
      } else {
        var c := RemovedWasUnused(files, rest, step, name);
      }
    }
  }

  // ---------- Images in use ----------

  /** A removal of this image has passed its check and is yet to commit. */
  ghost predicate RemovalPending(s: State, name: string) {
    exists j :: 0 <= j < |s.jobs| && IsCheckedRemoval(s, j, name)
  }

  predicate IsCheckedRemoval(s: State, j: nat, name: string) {
    j < |s.jobs| && s.jobs[j].status.Checked? && s.jobs[j].request.Remove? && s.jobs[j].request.name == name
  }

  /** While an image is in use no removal of it passes its check, and none that has not passed takes it. */
  lemma UseKeepsRemovalsOut(s: State, step: Step, name: string)
    requires name in s.files && name in s.inUse && !RemovalPending(s, name)
    ensures name in Next(s, step).files && !RemovalPending(Next(s, step), name)
  {
    hide Total, IsProtected;
    var out := Next(s, step);
    forall j | 0 <= j < |out.jobs| ensures !IsCheckedRemoval(out, j, name) {
      assert !IsCheckedRemoval(s, j, name);
    }
    if step.Commit? && StatusIs(s, step.j, Checked) {
      assert !IsCheckedRemoval(s, step.j, name);
    }
  }

  /** An image that is in use from some moment on, when no removal of it was pending, survives every removal. */
  lemma {:induction false} InUseStays(files: Files, steps: seq<Step>, n: nat, name: string)
    requires n <= |steps| && name in After(files, steps[..n]).files && !RemovalPending(After(files, steps[..n]), name)
    requires forall m :: n <= m <= |steps| ==> name in After(files, steps[..m]).inUse
    ensures name in After(files, steps).files && After(files, steps).files[name] == After(files, steps[..n]).files[name]
    ensures !RemovalPending(After(files, steps), name)
    decreases |steps|
  {
    hide Next, RemovalPending;
    assert steps[..|steps|] == steps;
    if n < |steps| {
      var rest := steps[..|steps| - 1];
      forall m | n <= m <= |rest| ensures rest[..m] == steps[..m] {
      }
      InUseStays(files, rest, n, name);
      assert name in After(files, steps[..|rest|]).inUse;
      UseKeepsRemovalsOut(After(files, rest), steps[|steps| - 1], name);
      ContentStays(After(files, rest), steps[|steps| - 1], name);
    }
  }

  /** The condition is exact: a pending removal takes the image, in use or not. */
  lemma PendingRemovalTakesIt(files: Files, steps: seq<Step>, name: string) returns (step: Step)
    requires RemovalPending(After(files, steps), name)
    ensures name in After(files, steps).files && name !in After(files, steps + [step]).files
    ensures After(files, steps + [step]).inUse == After(files, steps).inUse
  {
    hide IsProtected, Total;
    var s := After(files, steps);
    var j :| 0 <= j < |s.jobs| && IsCheckedRemoval(s, j, name);
    step := Commit(j, Fine);
    assert (steps + [step])[..|steps|] == steps;
    ChecksAlwaysHold(files, steps);
    assert StillGood(s, j);
  }

  lemma StatusStays(s: State, step: Step, j: nat)
    requires j < |s.jobs| && !s.jobs[j].status.Waiting? && !s.jobs[j].status.Started?
    requires !(step.Commit? && step.j == j)
    ensures j < |Next(s, step).jobs| && Next(s, step).jobs[j] == s.jobs[j]
  {
  }

  lemma {:induction false} StatusStaysUntil(files: Files, steps: seq<Step>, c: nat, j: nat)
    requires c <= |steps| && j < |After(files, steps[..c]).jobs|
    requires var status := After(files, steps[..c]).jobs[j].status; !status.Waiting? && !status.Started?
    requires forall l :: c <= l < |steps| ==> !(steps[l].Commit? && steps[l].j == j)
    ensures j < |After(files, steps).jobs| && After(files, steps).jobs[j] == After(files, steps[..c]).jobs[j]
    decreases |steps|
  {
    hide Next;
    if c == |steps| {
      assert steps[..c] == steps;
    } else {
      var rest := steps[..|steps| - 1];
      assert rest[..c] == steps[..c];
      StatusStaysUntil(files, rest, c, j);
      StatusStays(After(files, rest), steps[|steps| - 1], j);
    }
  }

  lemma {:induction false} TakenIntoUse(files: Files, steps: seq<Step>, c: nat, name: string) returns (l: nat)
    requires c <= |steps| && name !in After(files, steps[..c]).inUse && name in After(files, steps).inUse
    ensures c <= l < |steps| && steps[l].Services? && name in steps[l].inUse && name !in After(files, steps[..l]).inUse
    decreases |steps|
  {
    hide CheckedStatus, Committed;
    assert steps[..|steps|] == steps;
    l := |steps| - 1;
    var rest := steps[..l];
    assert rest[..c] == steps[..c];
    if name in After(files, rest).inUse {
      l := TakenIntoUse(files, rest, c, name);
      assert rest[..l] == steps[..l];
    }
  }

  /** What happens to an image that is in use when its removal commits: it goes if and only if it was unused
      at the check of that removal, and then some service took it into use in between. */
  lemma RemovedIffUnusedAtCheck(files: Files, steps: seq<Step>, c: nat, j: nat, name: string)
    requires c < |steps| && steps[c] == Check(j, false) && StatusIs(After(files, steps[..c]), j, Started)
    requires After(files, steps[..c]).jobs[j].request == Remove(name, true)
    requires name in After(files, steps[..c]).files && !IsProtected(name) && name in After(files, steps).inUse
    requires name in After(files, steps).files && forall l :: c < l < |steps| ==> !(steps[l].Commit? && steps[l].j == j)
    ensures var out := After(files, steps + [Commit(j, Fine)]).files;
      && (name !in out <==> name !in After(files, steps[..c]).inUse)
      && (name !in out ==> exists l :: c < l < |steps| && steps[l].Services? && name in steps[l].inUse
                                       && name !in After(files, steps[..l]).inUse)
  {
    hide IsProtected, Total;
    assert (steps + [Commit(j, Fine)])[..|steps|] == steps;
    assert steps[..c + 1][..c] == steps[..c];
    var checked := After(files, steps[..c + 1]);
    assert checked.jobs[j].status == if name in After(files, steps[..c]).inUse then Rejected(Conflict) else Checked;
    StatusStaysUntil(files, steps, c + 1, j);
    if name !in After(files, steps[..c]).inUse {
      assert checked.inUse == After(files, steps[..c]).inUse;
      var l := TakenIntoUse(files, steps, c + 1, name);
    }
  }

  /** Such a run: a service takes the image into use between the check and the commit. */
  lemma UseAfterCheckIsMissed() returns (files: Files, steps: seq<Step>)
    ensures var s := After(files, steps); "a.png" in files && "a.png" in s.inUse && "a.png" !in s.files
  {
    hide Total;
    files := map["a.png" := []];
    steps := [Submit(Remove("a.png", true)), Start(0), Check(0, false), Services({"a.png"}), Commit(0, Fine)];
    assert !IsProtected("a.png") by {
      assert |seq(5, i requires 0 <= i < 5 => Lower("a.png"[i]))| != |"logo.svg"|;
    }
    assert steps[..4][..3] == steps[..3] && steps[..3][..2] == steps[..2];
    assert steps[..2][..1] == steps[..1] && steps[..1][..0] == [];
    assert After(files, steps[..1]) == Next(After(files, []), steps[0]);
    assert After(files, steps[..2]) == Next(After(files, steps[..1]), steps[1]);
    assert After(files, steps[..3]) == Next(After(files, steps[..2]), steps[2]);
    assert After(files, steps[..4]) == Next(After(files, steps[..3]), steps[3]);
  }

  // ---------- What each body decides and writes ----------

  /** The name of the logo, in any case. */
  ghost predicate IsLogo(name: string) {
    && |name| == 8
    && forall i :: 0 <= i < 8 ==> name[i] == "logo.svg"[i] || name[i] == "LOGO.SVG"[i]
  }

  lemma ProtectionDecides(name: string)
    ensures IsProtected(name) <==> IsLogo(name)
  {
    var lower := seq(|name|, i requires 0 <= i < |name| => Lower(name[i]));
    if IsProtected(name) {
      assert lower == "logo.svg";
      forall i | 0 <= i < 8 ensures name[i] == "logo.svg"[i] || name[i] == "LOGO.SVG"[i] {
        assert lower[i] == Lower(name[i]) == "logo.svg"[i];
      }
    }
    if IsLogo(name) {
      forall i | 0 <= i < 8 ensures lower[i] == "logo.svg"[i] {
        assert Lower("LOGO.SVG"[i]) == "logo.svg"[i] && Lower("logo.svg"[i]) == "logo.svg"[i];
      }
      assert lower == "logo.svg";
    }
  }

  /** The checks: an upload has to be valid, and one image more has to fit in number and in bytes; a removal has to
      be well formed, and its image there, not the logo and not in use. */
  lemma CheckDecides(files: Files, inUse: set<string>, request: Request, listFails: bool)
    ensures request.Upload? ==>
      CheckedStatus(files, inUse, request, listFails) ==
        if request.clean == None then Rejected(BadRequest)
        else if listFails then Rejected(Internal)
        else if |files| + 1 > 500 || Total(files) + |request.clean.value| > 104_857_600 then Rejected(Conflict)
        else Checked
    ensures request.Remove? ==>
      CheckedStatus(files, inUse, request, listFails) ==
        if !request.wellNamed then Rejected(BadRequest)
        else if listFails then Rejected(Internal)
        else if request.name !in files then Rejected(NotFound)
        else if IsLogo(request.name) || request.name in inUse then Rejected(Conflict)
        else Checked
  {
    if request.Remove? {
      ProtectionDecides(request.name);
    }
    hide IsProtected, IsLogo, Total;
  }

  /** The commits: publishing adds the image under a free name, and succeeds if the clean-up does; removing takes it.
      No other image is touched, and whatever did not reach the directory left it alone. */
  lemma CommitDecides(files: Files, request: Request, io: Io, other: string)
    requires request.Upload? ==> request.clean.Some?
    ensures var (out, status) := Committed(files, request, io);
      request.Upload? ==>
        && (other in out <==> other in files || (other == request.name && io != FailsBefore))
        && (other in out ==> out[other] == if other in files then files[other] else request.clean.value)
        && status == (if io != Fine then Rejected(Internal)
                      else if request.name in files then Rejected(Conflict) else Fulfilled)
    ensures var (out, status) := Committed(files, request, io);
      request.Remove? ==>
        && (other in out <==> other in files && !(other == request.name && io == Fine))
        && (other in out ==> out[other] == files[other])
        && status == (if io == Fine then Fulfilled else Rejected(Internal))
  {
  }
}
