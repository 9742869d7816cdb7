/** Invites and the requests that change them, one request at a time (invite.service.ts,
    invite.repository.ts). */
module Invites {
  import opened Model

  /** Numbered in the order of creation. */
  type InviteId = nat

  datatype Reason = ByAdmin | TooManyAttempts | Superseded
  datatype Revocation = Revocation(at: Time, reason: Reason)

  datatype Invite = Invite(
    email: Option<string>,
    isAdmin: bool,
    expiresAt: Time,
    usedAt: Option<Time>,
    usedBy: Option<UserId>,
    revoked: Option<Revocation>,
    failedAttempts: nat)

  datatype Refusal =
    | UnknownToken | RevokedToken | UsedToken | ExpiredToken | WrongRecipient | EmailTaken | UserHasInvite
  datatype Answer<+T> = Done(value: T) | Refused(why: Refusal)

  type Rows = map<InviteId, Invite>
  datatype State = State(rows: Rows, next: InviteId)

  const MAX_FAILED_ATTEMPTS := 3

  predicate IsPending(invite: Invite, now: Time) {
    invite.usedAt.None? && invite.revoked.None? && invite.expiresAt > now
  }

  // ---------- Single statements of the repository ----------

  function Revoke(rows: Rows, id: InviteId, reason: Reason, now: Time): Rows
    requires id in rows
  {
    rows[id := rows[id].(revoked := Some(Revocation(now, reason)))]
  }

  function Increment(rows: Rows, id: InviteId): Rows
    requires id in rows
  {
    rows[id := rows[id].(failedAttempts := rows[id].failedAttempts + 1)]
  }

  /** Did the user claim some invite? The column is unique. */
  predicate HasClaimed(rows: Rows, user: UserId) {
    exists i :: i in rows && rows[i].usedBy == Some(user)
  }

  /** The conditional update behind `claim`. */
  function Claim(rows: Rows, id: InviteId, user: UserId, now: Time): Answer<Rows> {
    if id !in rows || !IsPending(rows[id], now) then Refused(UsedToken)
    else if HasClaimed(rows, user) then Refused(UserHasInvite)
    else Done(rows[id := rows[id].(usedAt := Some(now), usedBy := Some(user))])
  }

  /** The outer option says whether the column is written, so an email can be removed. */
  datatype Patch = Patch(email: Option<Option<string>>, expiresAt: Option<Time>, isAdmin: Option<bool>, revoke: bool)

  function Patched(invite: Invite, patch: Patch, now: Time): Invite {
    invite.(
      email := if patch.email.Some? then patch.email.value else invite.email,
      expiresAt := if patch.expiresAt.Some? then patch.expiresAt.value else invite.expiresAt,
      isAdmin := if patch.isAdmin.Some? then patch.isAdmin.value else invite.isAdmin,
      revoked := if patch.revoke then Some(Revocation(now, ByAdmin)) else invite.revoked)
  }

  /** A deleted user disappears from the invite they used. */
  function ForgetUser(rows: Rows, user: UserId): Rows {
    map i | i in rows :: if rows[i].usedBy == Some(user) then rows[i].(usedBy := None) else rows[i]
  }

  /** No invite comes into being or is opened again, for the same email or another. */
  ghost predicate OnlyCloses(before: Rows, after: Rows) {
    && after.Keys <= before.Keys
    && forall i :: i in after ==>
        && after[i].email == before[i].email && after[i].expiresAt == before[i].expiresAt
        && (before[i].usedAt.Some? ==> after[i].usedAt.Some?) && (before[i].revoked.Some? ==> after[i].revoked.Some?)
  }

  // ---------- Requests ----------

  /** Everything `validateToken` asks before it looks at the email. */
  function Standing(rows: Rows, token: Option<InviteId>, now: Time): Option<Refusal> {
    if token.None? || token.value !in rows then Some(UnknownToken)
    else
      var invite := rows[token.value];
      if invite.revoked.Some? then Some(RevokedToken)
      else if invite.usedAt.Some? then Some(UsedToken)
      else if invite.expiresAt < now then Some(ExpiredToken)
      else None
  }

  predicate IsWrongRecipient(invite: Invite, email: Option<string>) {
    email.Some? && invite.email.Some? && invite.email != email
  }

  function Validated(rows: Rows, token: Option<InviteId>, email: Option<string>, now: Time): Answer<InviteId> {
    var refusal := Standing(rows, token, now);
    if refusal.Some? then Refused(refusal.value)
    else if IsWrongRecipient(rows[token.value], email) then Refused(WrongRecipient)
    else Done(token.value)
  }

  /** A wrong recipient is counted, and the third one revokes the invite. */
  function AfterValidate(rows: Rows, token: Option<InviteId>, email: Option<string>, now: Time): Rows {
    if Standing(rows, token, now).Some? || !IsWrongRecipient(rows[token.value], email) then rows
    else
      var counted := Increment(rows, token.value);
      if counted[token.value].failedAttempts >= MAX_FAILED_ATTEMPTS
      then Revoke(counted, token.value, TooManyAttempts, now) else counted
  }

  /** The newest pending invite for this email, if any. */
  ghost predicate IsNewestPending(rows: Rows, email: string, now: Time, found: Option<InviteId>) {
    match found
    case None => forall i :: i in rows && rows[i].email == Some(email) ==> !IsPending(rows[i], now)
    case Some(id) =>
      && id in rows && rows[id].email == Some(email) && IsPending(rows[id], now)
      && forall i :: i in rows && rows[i].email == Some(email) && IsPending(rows[i], now) ==> i <= id
  }

  /** One request. `taken` says that an account with the email exists already; `newest` is what the search
      for a pending invite finds. */
  datatype Request =
    | Create(now: Time, email: Option<string>, isAdmin: bool, expiresAt: Time, taken: bool, newest: Option<InviteId>)
    | Validate(now: Time, token: Option<InviteId>, email: Option<string>)
    | RevokeIt(now: Time, id: InviteId)
    | Update(now: Time, id: InviteId, patch: Patch)
    | ClaimIt(now: Time, id: InviteId, user: UserId)
    | Delete(now: Time, id: InviteId)
    | UserGone(now: Time, user: UserId)

  ghost predicate Possible(s: State, r: Request) {
    r.Create? && r.email.Some? ==> IsNewestPending(s.rows, r.email.value, r.now, r.newest)
  }

  function Fresh(r: Request): Invite
    requires r.Create?
  {
    Invite(r.email, r.isAdmin, r.expiresAt, None, None, None, 0)
  }

  function Apply(s: State, r: Request): State {
    var rows := s.rows;
    match r
    case Create(now, email, _, _, taken, newest) =>
      if email.Some? && taken then s
      else
        var superseded := if email.Some? && newest.Some? && newest.value in rows
                          then Revoke(rows, newest.value, Superseded, now) else rows;
        State(superseded[s.next := Fresh(r)], s.next + 1)
    case Validate(now, token, email) => s.(rows := AfterValidate(rows, token, email, now))
    case RevokeIt(now, id) =>
      if id !in rows || rows[id].usedAt.Some? || rows[id].revoked.Some? || rows[id].expiresAt < now then s
      else s.(rows := Revoke(rows, id, ByAdmin, now))
    case Update(now, id, patch) =>
      if id !in rows || rows[id].usedAt.Some? || rows[id].revoked.Some? then s
      else s.(rows := rows[id := Patched(rows[id], patch, now)])
    case ClaimIt(now, id, user) =>
      var claimed := Claim(rows, id, user, now);
      if claimed.Done? then s.(rows := claimed.value) else s
    case Delete(_, id) => s.(rows := rows - {id})
    case UserGone(_, user) => s.(rows := ForgetUser(rows, user))
  }

  class InviteService {
    var rows: Rows
    var next: InviteId

    function View(): State
      reads this
    {
      State(rows, next)
    }

    constructor ()
      ensures View() == State(map[], 0)
    {
      rows, next := map[], 0;
    }

    method FindActivePendingByEmail(email: string, now: Time) returns (found: Option<InviteId>)
      requires forall i :: i in rows ==> i < next
      ensures IsNewestPending(rows, email, now, found)
    {
      var i := next;
      while i > 0
        invariant i <= next
        invariant forall j :: j in rows && rows[j].email == Some(email) && IsPending(rows[j], now) ==> j < i
      {
        i := i - 1;
        if i in rows && rows[i].email == Some(email) && IsPending(rows[i], now) {
          return Some(i);
        }
      }
      return None;
    }

    method SupersedePendingInvite(email: string, taken: bool, now: Time)
      returns (ok: bool, ghost newest: Option<InviteId>)
      requires forall i :: i in rows ==> i < next
      modifies this
      ensures next == old(next) && ok == !taken
      ensures taken ==> rows == old(rows)
      ensures !taken ==> IsNewestPending(old(rows), email, now, newest)
      ensures !taken ==> rows == if newest.Some? then Revoke(old(rows), newest.value, Superseded, now) else old(rows)
    {
      newest := None;
      if taken {
        return false, None;
      }
      var found := FindActivePendingByEmail(email, now);
      if found.Some? {
        rows := Revoke(rows, found.value, Superseded, now);
      }
      return true, found;
    }

    method CreateToken(email: Option<string>, isAdmin: bool, expiresAt: Time, taken: bool, now: Time)
      returns (r: Answer<InviteId>, ghost newest: Option<InviteId>)
      requires forall i :: i in rows ==> i < next
      modifies this
      ensures var request := Create(now, email, isAdmin, expiresAt, taken, newest);
              (email.Some? && !taken ==> Possible(old(View()), request)) && View() == Apply(old(View()), request)
      ensures r == if email.Some? && taken then Refused(EmailTaken) else Done(old(next))
    {
      newest := None;
      if email.Some? {
        var ok;
        ok, newest := SupersedePendingInvite(email.value, taken, now);
        if !ok {
          return Refused(EmailTaken), newest;
        }
      }
      r := Done(next);
      rows := rows[next := Invite(email, isAdmin, expiresAt, None, None, None, 0)];
      next := next + 1;
    }

    method ValidateToken(token: Option<InviteId>, email: Option<string>, now: Time) returns (r: Answer<InviteId>)
      modifies this
      ensures r == Validated(old(rows), token, email, now)
      ensures View() == Apply(old(View()), Validate(now, token, email))
    {
      if token.None? || token.value !in rows {
        return Refused(UnknownToken);
      }
      var id, invite := token.value, rows[token.value];
      if invite.revoked.Some? {
        return Refused(RevokedToken);
      }
      if invite.usedAt.Some? {
        return Refused(UsedToken);
      }
      if invite.expiresAt < now {
        return Refused(ExpiredToken);
      }
      if email.Some? && invite.email.Some? && invite.email != email {
        rows := Increment(rows, id);
        if rows[id].failedAttempts >= MAX_FAILED_ATTEMPTS {
          rows := Revoke(rows, id, TooManyAttempts, now);
        }
        return Refused(WrongRecipient);
      }
      return Done(id);
    }

    method RevokeToken(id: InviteId, now: Time) returns (r: Answer<Invite>)
      modifies this
      ensures View() == Apply(old(View()), RevokeIt(now, id))
      ensures r == if id !in old(rows) then Refused(UnknownToken)
                   else if old(rows)[id].usedAt.Some? then Refused(UsedToken) else Done(rows[id])
    {
      if id !in rows {
        return Refused(UnknownToken);
      }
      if rows[id].usedAt.Some? {
        return Refused(UsedToken);
      }
      if rows[id].revoked.Some? || rows[id].expiresAt < now {
        return Done(rows[id]);
      }
      rows := Revoke(rows, id, ByAdmin, now);
      return Done(rows[id]);
    }

    method UpdateInvite(id: InviteId, patch: Patch, now: Time) returns (r: Answer<Invite>)
      modifies this
      ensures View() == Apply(old(View()), Update(now, id, patch))
      ensures r == if id !in old(rows) then Refused(UnknownToken)
                   else if old(rows)[id].usedAt.Some? then Refused(UsedToken)
                   else if old(rows)[id].revoked.Some? then Refused(RevokedToken) else Done(rows[id])
    {
      if id !in rows {
        return Refused(UnknownToken);
      }
      if rows[id].usedAt.Some? {
        return Refused(UsedToken);
      }
      if rows[id].revoked.Some? {
        return Refused(RevokedToken);
      }
      rows := rows[id := Patched(rows[id], patch, now)];
      return Done(rows[id]);
    }

    /** The conditional update: it touches the row only while it is unused, unrevoked and unexpired, and the
        unique index on the user may refuse it. It answers how many rows it changed. */
    method ClaimRow(id: InviteId, user: UserId, now: Time) returns (count: Answer<nat>)
      modifies this
      ensures next == old(next)
      ensures count == Done(1) <==> id in old(rows) && IsPending(old(rows)[id], now) && !HasClaimed(old(rows), user)
      ensures count == Done(0) <==> id !in old(rows) || !IsPending(old(rows)[id], now)
      ensures count in {Done(0), Done(1), Refused(UserHasInvite)}
      ensures count != Done(1) ==> rows == old(rows)
      ensures count == Done(1) ==>
          rows.Keys == old(rows).Keys && rows[id].usedBy == Some(user) && rows[id].usedAt == Some(now)
                                   && rows[id] == old(rows)[id].(usedBy := rows[id].usedBy, usedAt := rows[id].usedAt)
                                   && forall i :: i in rows && i != id ==> rows[i] == old(rows)[i]
    {
      if id !in rows {
        return Done(0);
      }
      var row := rows[id];
      if row.usedAt.Some? || row.revoked.Some? || row.expiresAt <= now {
        return Done(0);
      }
      if exists i :: i in rows && rows[i].usedBy == Some(user) {
        return Refused(UserHasInvite);
      }
      rows := rows[id := row.(usedBy := Some(user), usedAt := Some(now))];
      return Done(1);
    }

    method ClaimToken(id: InviteId, user: UserId, now: Time) returns (r: Answer<Invite>)
      modifies this
      ensures View() == Apply(old(View()), ClaimIt(now, id, user))
      ensures r == if id !in old(rows) || !IsPending(old(rows)[id], now) then Refused(UsedToken)
                   else if HasClaimed(old(rows), user) then Refused(UserHasInvite)
                   else Done(rows[id])
    {
      ghost var before := rows;
      var count := ClaimRow(id, user, now);
      if count.Refused? {
        return Refused(count.why);
      }
      if count.value == 0 {
        return Refused(UsedToken);
      }
      assert rows == before[id := rows[id]];
      return Done(rows[id]);
    }

    method DeleteInvite(id: InviteId, now: Time) returns (r: Answer<()>)
      modifies this
      ensures View() == Apply(old(View()), Delete(now, id))
      ensures r == if id in old(rows) then Done(()) else Refused(UnknownToken)
    {
      if id !in rows {
        assert rows - {id} == rows;
        return Refused(UnknownToken);
      }
      rows := rows - {id};
      return Done(());
    }
  }

  // ---------- What one request at a time keeps ----------

  /** Used and revoked never coexist, three strikes always revoke, and no user claimed two invites. */
  ghost predicate Sound(s: State) {
    && (forall i :: i in s.rows ==> i < s.next && RowSound(s.rows[i]))
    && (forall i, j :: i in s.rows && j in s.rows && i != j && s.rows[i].usedBy.Some? ==>
        s.rows[i].usedBy != s.rows[j].usedBy)
  }

  predicate RowSound(invite: Invite) {
    && (invite.usedAt.Some? ==> invite.revoked.None?)
    && (invite.usedBy.Some? ==> invite.usedAt.Some?)
    && (invite.revoked.None? ==> invite.failedAttempts < MAX_FAILED_ATTEMPTS)
  }

  lemma RequestKeepsSound(s: State, r: Request)
    requires Sound(s) && Possible(s, r)
    ensures Sound(Apply(s, r))
  {
    var out := Apply(s, r);
    forall i | i in out.rows ensures i < out.next && RowSound(out.rows[i]) {
      assert i in s.rows ==> RowSound(s.rows[i]);
    }
  }

  /** `Used` and `Revoked` are terminal: the row then never changes again, unless it is deleted or the user
      who claimed it is. */
  lemma TerminalRowsAreFinal(s: State, r: Request, i: InviteId)
    requires Sound(s) && Possible(s, r) && i in s.rows && (s.rows[i].usedAt.Some? || s.rows[i].revoked.Some?)
    requires i in Apply(s, r).rows
    ensures Apply(s, r).rows[i] == s.rows[i]
         || (r.UserGone? && s.rows[i].usedBy == Some(r.user) && Apply(s, r).rows[i] == s.rows[i].(usedBy := None))
  {
  }

  /** The states after each request of a run. */
  ghost predicate IsRun(states: seq<State>, requests: seq<Request>) {
    && |states| == |requests| + 1
    && states[0] == State(map[], 0)
    && forall n :: 0 <= n < |requests| ==>
        Possible(states[n], requests[n]) && states[n + 1] == Apply(states[n], requests[n])
  }

  lemma {:induction false} RunsAreSound(states: seq<State>, requests: seq<Request>, n: nat)
    requires IsRun(states, requests) && n < |states|
    ensures Sound(states[n])
  {
    if n > 0 {
      RunsAreSound(states, requests, n - 1);
      RequestKeepsSound(states[n - 1], requests[n - 1]);
    }
  }

  /** Over a whole run: once used or revoked, always so, with the same times and reason. */
  lemma {:induction false} TerminalForever(states: seq<State>, requests: seq<Request>, m: nat, n: nat, i: InviteId)
    requires IsRun(states, requests) && m <= n < |states|
    requires i in states[m].rows && (states[m].rows[i].usedAt.Some? || states[m].rows[i].revoked.Some?)
    ensures i !in states[n].rows
         || states[n].rows[i] == states[m].rows[i] || states[n].rows[i] == states[m].rows[i].(usedBy := None)
  {
    hide Apply, Sound, Possible;
    if m < n {
      TerminalForever(states, requests, m, n - 1, i);
      RunsAreSound(states, requests, n - 1);
      if i in states[n - 1].rows {
        if i in states[n].rows {
          TerminalRowsAreFinal(states[n - 1], requests[n - 1], i);
        }
      } else {
        GoneStaysGone(states, requests, m, n - 1, i);
        RunsAreSound(states, requests, m);
      }
    }
  }

  /** Ids are not used twice. */
  lemma GoneStaysGone(states: seq<State>, requests: seq<Request>, m: nat, n: nat, i: InviteId)
    requires IsRun(states, requests) && m <= n < |requests| && i in states[m].rows && i !in states[n].rows
    ensures i !in states[n + 1].rows
  {
    RunsAreSound(states, requests, m);
    NextGrows(states, requests, m, n);
  }

  lemma {:induction false} NextGrows(states: seq<State>, requests: seq<Request>, m: nat, n: nat)
    requires IsRun(states, requests) && m <= n < |states|
    ensures states[m].next <= states[n].next
  {
    if m < n {
      NextGrows(states, requests, m, n - 1);
    }
  }

  // ---------- One pending invite per email ----------

  predicate PendingFor(invite: Invite, email: Option<string>, now: Time) {
    IsPending(invite, now) && email.Some? && invite.email == email
  }

  ghost predicate OnePerEmail(rows: Rows, now: Time) {
    forall i, j :: i in rows && j in rows && i != j && PendingFor(rows[i], rows[j].email, now) ==>
        !IsPending(rows[j], now)
  }

  /** The edit leaves the invite pending under an email that another pending invite has. */
  ghost predicate EditClashes(s: State, r: Request)
    requires r.Update?
  {
    && r.id in s.rows && s.rows[r.id].usedAt.None? && s.rows[r.id].revoked.None?
    && var edited := Patched(s.rows[r.id], r.patch, r.now);
    && IsPending(edited, r.now)
    && exists j :: j in s.rows && j != r.id && PendingFor(s.rows[j], edited.email, r.now)
  }

  lemma TimeKeepsOnePerEmail(rows: Rows, before: Time, now: Time)
    requires OnePerEmail(rows, before) && before <= now
    ensures OnePerEmail(rows, now)
  {
  }

  /** The documentation promises at most one pending invite per email. Issuing keeps that; editing an email
      or an expiry keeps it exactly when the edit does not clash. */
  lemma OnePerEmailKeptIffNoClash(s: State, r: Request)
    requires Sound(s) && Possible(s, r) && OnePerEmail(s.rows, r.now)
    ensures OnePerEmail(Apply(s, r).rows, r.now) <==> !(r.Update? && EditClashes(s, r))
  {
    if r.Update? {
      EditKeepsOnePerEmail(s, r);
    } else {
      OthersKeepOnePerEmail(s, r);
    }
  }

  lemma EditKeepsOnePerEmail(s: State, r: Request)
    requires r.Update? && OnePerEmail(s.rows, r.now)
    ensures OnePerEmail(Apply(s, r).rows, r.now) <==> !EditClashes(s, r)
  {
    var out := Apply(s, r);
    if EditClashes(s, r) {
      var j :| j in s.rows && j != r.id && PendingFor(s.rows[j], Patched(s.rows[r.id], r.patch, r.now).email, r.now);
      assert out.rows[j] == s.rows[j] && out.rows[r.id] == Patched(s.rows[r.id], r.patch, r.now);
    } else {
      assert forall i :: i in out.rows && i != r.id ==> out.rows[i] == s.rows[i];
    }
  }

  lemma OthersKeepOnePerEmail(s: State, r: Request)
    requires !r.Update? && Sound(s) && Possible(s, r) && OnePerEmail(s.rows, r.now)
    ensures OnePerEmail(Apply(s, r).rows, r.now)
  {
    hide RowSound;
    var out := Apply(s, r);
    forall i | i in out.rows && i in s.rows && IsPending(out.rows[i], r.now)
      ensures IsPending(s.rows[i], r.now) && out.rows[i].email == s.rows[i].email
      ensures r.Create? && s.next in out.rows && s.next != i ==> r.email.None? || out.rows[i].email != r.email
    {
    }
  }

  lemma {:induction false} OnePerEmailOverRuns(states: seq<State>, requests: seq<Request>, n: nat)
    requires IsRun(states, requests) && 0 < n < |states|
    requires forall m :: 0 <= m < |requests| && requests[m].Update? ==> !EditClashes(states[m], requests[m])
    requires forall l, m :: 0 <= l < m < |requests| ==> requests[l].now <= requests[m].now
    ensures OnePerEmail(states[n].rows, requests[n - 1].now)
  {
    hide Apply, Sound, EditClashes, OnePerEmail, Possible;
    var s, r := states[n - 1], requests[n - 1];
    if n > 1 {
      OnePerEmailOverRuns(states, requests, n - 1);
      TimeKeepsOnePerEmail(s.rows, requests[n - 2].now, r.now);
    } else {
      assert OnePerEmail(map[], r.now) by {
        NoRowsNoClash(r.now);
      }
    }
    RunsAreSound(states, requests, n - 1);
    OnePerEmailKeptIffNoClash(s, r);
  }

  lemma NoRowsNoClash(now: Time)
    ensures OnePerEmail(map[], now)
  {
  }

  /** Two edits that look harmless: an expired invite is given a new date after its email was invited again. */
  lemma EditBreaksOnePerEmail() returns (states: seq<State>, requests: seq<Request>)
    ensures IsRun(states, requests) && |requests| == 3
    ensures requests[0].Create? && requests[1].Create? && requests[2].Update?
    ensures !OnePerEmail(states[3].rows, requests[2].now)
  {
    var e := Some("a");
    requests := [
      Create(0, e, false, 1, false, None),
      Create(2, e, false, 9, false, None),
      Update(3, 0, Patch(None, Some(9), None, false))];
    var s1 := Apply(State(map[], 0), requests[0]);
    var s2 := Apply(s1, requests[1]);
    var s3 := Apply(s2, requests[2]);
    states := [State(map[], 0), s1, s2, s3];
    assert s3.rows[0].email == s3.rows[1].email == e;
    assert IsPending(s3.rows[0], 3) && IsPending(s3.rows[1], 3);
  }

  // ---------- Validating and claiming ----------

  /** What was validated can be claimed at the same instant by a user without an invite, except in the very
      millisecond of expiry: validation still accepts it, the conditional update does not. */
  lemma ValidatedMeansClaimable(rows: Rows, token: Option<InviteId>, email: Option<string>, now: Time, user: UserId)
    requires Validated(rows, token, email, now).Done? && !HasClaimed(rows, user)
    ensures Claim(rows, token.value, user, now).Done? <==> rows[token.value].expiresAt != now
  {
  }

  // ---------- What each request decides and writes, column by column ----------

  /** Validating: the refusals in order; a wrong recipient is one more failed attempt, and the third revokes. */
  lemma ValidateDecides(s: State, now: Time, token: Option<InviteId>, email: Option<string>)
    ensures var r, out := Validated(s.rows, token, email, now), Apply(s, Validate(now, token, email));
      if token == None || token.value !in s.rows then r == Refused(UnknownToken) && out == s
      else
        var id, was := token.value, s.rows[token.value];
        if was.revoked != None then r == Refused(RevokedToken) && out == s
        else if was.usedAt != None then r == Refused(UsedToken) && out == s
        else if was.expiresAt < now then r == Refused(ExpiredToken) && out == s
        else if email == None || was.email == None || was.email == email then r == Done(id) && out == s
        else
          && r == Refused(WrongRecipient)
          && out == s.(rows := s.rows[
               id := was.(failedAttempts := was.failedAttempts + 1,
                          revoked := if was.failedAttempts + 1 >= 3 then Some(Revocation(now, TooManyAttempts))
                              else None)])
  {
  }

  /** Creating: an email that is taken is refused without effect; otherwise there is one pending invite more, and the
      newest pending one for the email is revoked. */
  lemma CreateDecides(s: State, now: Time, email: Option<string>, isAdmin: bool, expiresAt: Time, taken: bool,
                      newest: Option<InviteId>, i: InviteId)
    requires (forall j :: j in s.rows ==> j < s.next)
        && Possible(s, Create(now, email, isAdmin, expiresAt, taken, newest))
    ensures var out := Apply(s, Create(now, email, isAdmin, expiresAt, taken, newest));
      if email != None && taken then out == s
      else
        var superseded := i in s.rows && email != None && s.rows[i].email == email && s.rows[i].usedAt == None
                          && s.rows[i].revoked == None && s.rows[i].expiresAt > now
                          && !exists j :: j in s.rows && j > i && s.rows[j].email == email && s.rows[j].usedAt == None
                                          && s.rows[j].revoked == None && s.rows[j].expiresAt > now;
        && out.next == s.next + 1 && (i in out.rows <==> i in s.rows || i == s.next)
        && out.rows[s.next] == Invite(email, isAdmin, expiresAt, None, None, None, 0)
        && (i in s.rows ==>
              out.rows[i] == if superseded then s.rows[i].(revoked := Some(Revocation(now, Superseded))) else s.rows[i])
  {
  }

  /** Revoking, editing, claiming, deleting, and losing the user: each changes only what it names, and an invite out
      of its reach is left as it is. */
  lemma ChangesDecide(s: State, now: Time, id: InviteId, patch: Patch, user: UserId, i: InviteId)
    requires i in s.rows
    ensures var was, rows := s.rows[i], Apply(s, RevokeIt(now, id)).rows;
      rows.Keys == s.rows.Keys
      && rows[i] == if i == id && was.usedAt == None && was.revoked == None && was.expiresAt >= now
                    then was.(revoked := Some(Revocation(now, ByAdmin))) else was
    ensures var was, rows := s.rows[i], Apply(s, Update(now, id, patch)).rows;
      rows.Keys == s.rows.Keys
      && rows[i] == if i == id && was.usedAt == None && was.revoked == None
                    then was.(email := if patch.email == None then was.email else patch.email.value,
                              expiresAt := if patch.expiresAt == None then was.expiresAt else patch.expiresAt.value,
                              isAdmin := if patch.isAdmin == None then was.isAdmin else patch.isAdmin.value,
                              revoked := if patch.revoke then Some(Revocation(now, ByAdmin)) else None)
                    else was
    ensures var was, rows := s.rows[i], Apply(s, ClaimIt(now, id, user)).rows;
      rows.Keys == s.rows.Keys
      && rows[i] == if i == id && was.usedAt == None && was.revoked == None && was.expiresAt > now
                       && !exists j :: j in s.rows && s.rows[j].usedBy == Some(user)
                    then was.(usedAt := Some(now), usedBy := Some(user)) else was
    ensures var rows := Apply(s, Delete(now, id)).rows;
      (i in rows <==> i != id) && (i != id ==> rows[i] == s.rows[i]) && rows.Keys <= s.rows.Keys
    ensures var was, rows := s.rows[i], Apply(s, UserGone(now, user)).rows;
      rows.Keys == s.rows.Keys && rows[i] == if was.usedBy == Some(user) then was.(usedBy := None) else was
  {
  }
}
