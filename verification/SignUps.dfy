/** Sign-ups and administrators racing on invites (auth.service.ts, invite.service.ts): every database
    statement is one step, and steps of different requests interleave freely. */
module SignUps {
  import opened Model
  import opened Invites

  /** Who somebody is to an OAuth provider. */
  datatype Profile = Profile(provider: nat, account: string)

  /** How far a sign-up has come. `Strike` and `Counted` are the wrong-recipient branch of validation; an
      account is opened, linked to the profile, and given the invite. */
  datatype Stage =
    | Started | Strike | Counted(attempts: nat) | Accepted | HasAccount(user: UserId) | Linked(user: UserId)
    | Won(user: UserId, at: Time) | Lost(left: Option<UserId>)

  datatype SignUp = SignUp(token: Option<InviteId>, email: string, profile: Profile, stage: Stage)

  /** A change that was decided on and is yet to be written. */
  datatype Intent = ToRevoke(id: InviteId, reason: Reason) | ToPatch(id: InviteId, patch: Patch)

  /** `users` are the accounts there are, `known` all there ever were; `answers` says which winners were told
      that they won. */
  datatype World = World(
    rows: Rows,
    next: InviteId,
    users: map<UserId, string>,
    known: set<UserId>,
    identities: map<Profile, UserId>,
    signUps: map<nat, SignUp>,
    answers: map<nat, bool>,
    intents: map<nat, Intent>)

  datatype Step =
    | Issue(bound: Option<string>, isAdmin: bool, expiresAt: Time)
    | Arrive(t: nat, token: Option<InviteId>, email: string, profile: Profile)
    | Check(t: nat, now: Time)
    | Count(t: nat)
    | Punish(t: nat, now: Time)
    | GiveUp(t: nat)
    | OpenAccount(t: nat, user: UserId)
    | LinkIdentity(t: nat)
    | TakeInvite(t: nat, now: Time)
    | ReadBack(t: nat)
    | SignIn(user: UserId, profile: Profile)
    | Decide(a: nat, intent: Intent, now: Time)
    | Write(a: nat, now: Time)
    | Erase(id: InviteId)
    | DropUser(user: UserId)

  function Move(w: World, t: nat, stage: Stage): World
    requires t in w.signUps
  {
    w.(signUps := w.signUps[t := w.signUps[t].(stage := stage)])
  }

  predicate At(w: World, t: nat, stage: Stage) {
    t in w.signUps && w.signUps[t].stage == stage
  }

  /** The row a sign-up is about, when it still exists. */
  predicate HasRow(w: World, t: nat) {
    t in w.signUps && w.signUps[t].token.Some? && w.signUps[t].token.value in w.rows
  }

  /** Both unique keys: a profile belongs to one account, and an account has one profile with a provider. */
  predicate IsTaken(identities: map<Profile, UserId>, profile: Profile, user: UserId) {
    profile in identities || exists p :: p in identities && p.provider == profile.provider && identities[p] == user
  }

  /** The single read of `validateToken`. */
  function AfterCheck(w: World, t: nat, now: Time): Stage
    requires t in w.signUps
  {
    match Validated(w.rows, w.signUps[t].token, Some(w.signUps[t].email), now)
    case Done(_) => Accepted
    case Refused(WrongRecipient) => Strike
    case Refused(_) => Lost(None)
  }

  /** What an administrator, or a newer invite for the same email, looks at before writing. */
  predicate MayDecide(w: World, intent: Intent, now: Time) {
    && intent.id in w.rows && w.rows[intent.id].usedAt.None? && w.rows[intent.id].revoked.None?
    && (intent.ToRevoke? ==> w.rows[intent.id].expiresAt >= now)
  }

  function Written(rows: Rows, intent: Intent, now: Time): Rows
    requires intent.id in rows
  {
    match intent
    case ToRevoke(id, reason) => Revoke(rows, id, reason, now)
    case ToPatch(id, patch) => rows[id := Patched(rows[id], patch, now)]
  }

  /** The steps with which a sign-up moves on. */
  predicate Acts(s: Step) {
    s.Check? || s.Count? || s.Punish? || s.GiveUp? || s.OpenAccount? || s.LinkIdentity? || s.TakeInvite?
  }

  predicate Enabled(w: World, s: Step) {
    match s
    case Issue(_, _, _) => true
    case Arrive(t, _, _, _) => t !in w.signUps
    case Check(t, _) => At(w, t, Started)
    case Count(t) => At(w, t, Strike)
    case Punish(t, _) => t in w.signUps && w.signUps[t].stage.Counted?
    case GiveUp(t) => At(w, t, Accepted)
    case OpenAccount(t, user) => At(w, t, Accepted) && user !in w.known
    case LinkIdentity(t) => t in w.signUps && w.signUps[t].stage.HasAccount?
    case TakeInvite(t, _) => t in w.signUps && w.signUps[t].stage.Linked? && w.signUps[t].token.Some?
    case ReadBack(t) => HasWon(w, t) && t !in w.answers
    case SignIn(user, profile) => user in w.users && !IsTaken(w.identities, profile, user)
    case Decide(a, intent, now) => a !in w.intents && MayDecide(w, intent, now)
    case Write(a, _) => a in w.intents
    case Erase(_) => true
    case DropUser(_) => true
  }

  /** Where the step leaves the sign-up. */
  function StageAfter(w: World, s: Step): Stage
    requires Acts(s) && Enabled(w, s)
  {
    var signUp := w.signUps[s.t];
    match s
    case Check(t, now) => AfterCheck(w, t, now)
    case Count(t) => if HasRow(w, t) then Counted(w.rows[signUp.token.value].failedAttempts + 1) else Lost(None)
    case OpenAccount(_, user) => if signUp.email in w.users.Values then Lost(None) else HasAccount(user)
    case LinkIdentity(_) =>
      var user := signUp.stage.user;
      if user !in w.users then Lost(None)
      else if IsTaken(w.identities, signUp.profile, user) then Lost(Some(user)) else Linked(user)
    case TakeInvite(_, now) =>
      var user := signUp.stage.user;
      if user !in w.users then Lost(None)
      else if Claim(w.rows, signUp.token.value, user, now).Done? then Won(user, now) else Lost(Some(user))
    case _ => Lost(None)
  }

  function SignUpsAfter(w: World, s: Step): map<nat, SignUp>
    requires Enabled(w, s)
  {
    if s.Arrive? then w.signUps[s.t := SignUp(s.token, s.email, s.profile, Started)]
    else if Acts(s) then w.signUps[s.t := w.signUps[s.t].(stage := StageAfter(w, s))]
    else w.signUps
  }

  function RowsAfter(w: World, s: Step): Rows
    requires Enabled(w, s)
  {
    match s
    case Issue(bound, isAdmin, expiresAt) => w.rows[w.next := Invite(bound, isAdmin, expiresAt, None, None, None, 0)]
    case Count(t) => if HasRow(w, t) then Increment(w.rows, w.signUps[t].token.value) else w.rows
    case Punish(t, now) =>
      if HasRow(w, t) && w.signUps[t].stage.attempts >= MAX_FAILED_ATTEMPTS
      then Revoke(w.rows, w.signUps[t].token.value, TooManyAttempts, now) else w.rows
    case TakeInvite(t, now) =>
      var user := w.signUps[t].stage.user;
      var claimed := Claim(w.rows, w.signUps[t].token.value, user, now);
      if user in w.users && claimed.Done? then claimed.value else w.rows
    case Write(a, now) => if w.intents[a].id in w.rows then Written(w.rows, w.intents[a], now) else w.rows
    case Erase(id) => w.rows - {id}
    case DropUser(user) => ForgetUser(w.rows, user)
    case _ => w.rows
  }

  predicate Opens(w: World, s: Step)
    requires Enabled(w, s)
  {
    s.OpenAccount? && w.signUps[s.t].email !in w.users.Values
  }

  function UsersAfter(w: World, s: Step): map<UserId, string>
    requires Enabled(w, s)
  {
    if Opens(w, s) then w.users[s.user := w.signUps[s.t].email]
    else if s.DropUser? then w.users - {s.user}
    else w.users
  }

  function IdentitiesAfter(w: World, s: Step): map<Profile, UserId>
    requires Enabled(w, s)
  {
    match s
    case LinkIdentity(t) =>
      if StageAfter(w, s).Linked? then w.identities[w.signUps[t].profile := w.signUps[t].stage.user] else w.identities
    case SignIn(user, profile) => w.identities[profile := user]
    case DropUser(user) => map p | p in w.identities && w.identities[p] != user :: w.identities[p]
    case _ => w.identities
  }

  /** One step, table by table. A step that is not enabled changes nothing. `GiveUp` is a provider that is disabled
      or a user name that was taken meanwhile; `ReadBack` is the read with which a claim ends; `SignIn` is an
      ordinary sign-in, which links a new profile to the account. */
  function Next(w: World, s: Step): World {
    if !Enabled(w, s) then w
    else World(
           RowsAfter(w, s),
           if s.Issue? then w.next + 1 else w.next,
           UsersAfter(w, s),
           if Opens(w, s) then w.known + {s.user} else w.known,
           IdentitiesAfter(w, s),
           SignUpsAfter(w, s),
           if s.ReadBack? then w.answers[s.t := HasRow(w, s.t)] else w.answers,
           if s.Decide? then w.intents[s.a := s.intent] else if s.Write? then w.intents - {s.a} else w.intents)
  }

  const NOTHING := World(map[], 0, map[], {}, map[], map[], map[], map[])

  /** The world after some steps. */
  function After(steps: seq<Step>): World {
    if steps == [] then NOTHING else Next(After(steps[..|steps| - 1]), steps[|steps| - 1])
  }

  /** Apart from issuing and editing, nothing here opens an invite, for this email or any other. */
  lemma StepsOnlyClose(w: World, s: Step)
    requires !s.Issue? && (s.Write? && s.a in w.intents ==> w.intents[s.a].ToRevoke?)
    ensures OnlyCloses(w.rows, Next(w, s).rows)
  {
    hide SignUpsAfter, UsersAfter, IdentitiesAfter, HasClaimed;
  }

  /** Uninterrupted, the steps of a sign-up's validation are the request that validates. */
  lemma ValidationIsOneRequest(w: World, t: nat, now: Time)
    requires At(w, t, Started)
    ensures var token, email := w.signUps[t].token, Some(w.signUps[t].email);
      var out := Next(Next(Next(w, Check(t, now)), Count(t)), Punish(t, now));
      && State(out.rows, out.next) == Apply(State(w.rows, w.next), Validate(now, token, email))
      && At(out, t, if Validated(w.rows, token, email, now).Done? then Accepted else Lost(None))
  {
    hide HasClaimed;
  }

  /** And so are deciding and writing, for revoking and for editing, and the claim of a linked account. */
  lemma RevokingIsOneRequest(w: World, a: nat, id: InviteId, now: Time)
    requires a !in w.intents
    ensures var out := Next(Next(w, Decide(a, ToRevoke(id, ByAdmin), now)), Write(a, now));
            State(out.rows, out.next) == Apply(State(w.rows, w.next), RevokeIt(now, id))
  {
    DecidedThenWritten(w, a, ToRevoke(id, ByAdmin), now);
    hide Next;
  }

  lemma EditingIsOneRequest(w: World, a: nat, id: InviteId, patch: Patch, now: Time)
    requires a !in w.intents
    ensures var out := Next(Next(w, Decide(a, ToPatch(id, patch), now)), Write(a, now));
            State(out.rows, out.next) == Apply(State(w.rows, w.next), Update(now, id, patch))
  {
    DecidedThenWritten(w, a, ToPatch(id, patch), now);
    hide Next;
  }

  lemma ClaimingIsOneRequest(w: World, t: nat, now: Time)
    requires t in w.signUps && w.signUps[t].stage.Linked? && w.signUps[t].token.Some?
    requires w.signUps[t].stage.user in w.users
    ensures var out := Next(w, TakeInvite(t, now));
            State(out.rows, out.next) ==
            Apply(State(w.rows, w.next), ClaimIt(now, w.signUps[t].token.value, w.signUps[t].stage.user))
  {
    hide HasClaimed;
  }

  /** Issuing, deleting an invite and losing its user are requests as they stand. */
  lemma RemovingIsOneRequest(w: World, id: InviteId, user: UserId, now: Time)
    ensures var out := Next(w, Erase(id)); State(out.rows, out.next) == Apply(State(w.rows, w.next), Delete(now, id))
    ensures var out := Next(w, DropUser(user));
            State(out.rows, out.next) == Apply(State(w.rows, w.next), UserGone(now, user))
  {
  }

  lemma IssuingIsOneRequest(w: World, email: Option<string>, isAdmin: bool, expiresAt: Time, now: Time)
    ensures var out := Next(w, Issue(email, isAdmin, expiresAt));
            State(out.rows, out.next) ==
            Apply(State(w.rows, w.next), Create(now, email, isAdmin, expiresAt, false, None))
  {
  }

  lemma DecidedThenWritten(w: World, a: nat, intent: Intent, now: Time)
    requires a !in w.intents
    ensures var out := Next(Next(w, Decide(a, intent, now)), Write(a, now));
      && out.next == w.next
      && out.rows == if MayDecide(w, intent, now) then Written(w.rows, intent, now) else w.rows
  {
    var mid := Next(w, Decide(a, intent, now));
    assert mid == if MayDecide(w, intent, now) then w.(intents := w.intents[a := intent]) else w;
    hide MayDecide, Written;
  }

  // ---------- The unique keys ----------

  ghost predicate HasOneProfileEach(identities: map<Profile, UserId>) {
    forall p, q :: p in identities && q in identities && p.provider == q.provider && identities[p] == identities[q] ==>
        p == q
  }

  /** An email has one account, an account one profile with each provider, and a profile belongs to an account. */
  ghost predicate KeysAreUnique(w: World) {
    && (forall u, v :: u in w.users && v in w.users && w.users[u] == w.users[v] ==> u == v)
    && HasOneProfileEach(w.identities)
    && (forall p :: p in w.identities ==> w.identities[p] in w.users)
  }

  /** In every interleaving the keys stay unique, whatever sign-ups and sign-ins race for them. */
  lemma {:induction false} KeysStayUnique(steps: seq<Step>)
    ensures KeysAreUnique(After(steps))
  {
    if steps != [] {
      var rest := steps[..|steps| - 1];
      KeysStayUnique(rest);
      StepKeepsUsers(After(rest), steps[|steps| - 1]);
      StepKeepsIdentities(After(rest), steps[|steps| - 1]);
    }
  }

  lemma StepKeepsUsers(w: World, s: Step)
    requires KeysAreUnique(w)
    ensures forall u, v :: u in Next(w, s).users && v in Next(w, s).users && Next(w, s).users[u] == Next(w, s).users[v]
                ==> u == v
  {
    hide RowsAfter, IdentitiesAfter, SignUpsAfter, MayDecide, HasWon;
  }

  lemma StepKeepsIdentities(w: World, s: Step)
    requires KeysAreUnique(w)
    ensures var out := Next(w, s);
      && HasOneProfileEach(out.identities)
      && (forall p :: p in out.identities ==> out.identities[p] in out.users)
  {
    hide RowsAfter, SignUpsAfter, MayDecide, HasWon;
  }

  /** An account is opened exactly when nobody has the email. */
  lemma OpeningDecides(w: World, t: nat, user: UserId)
    requires At(w, t, Accepted) && user !in w.known
    ensures var email, out := w.signUps[t].email, Next(w, OpenAccount(t, user));
      if exists v :: v in w.users && w.users[v] == email
      then out.users == w.users && At(out, t, Lost(None))
      else out.users == w.users[user := email] && At(out, t, HasAccount(user))
  {
    hide RowsAfter, IdentitiesAfter;
  }

  // ---------- Who won ----------

  predicate HasWon(w: World, t: nat) {
    t in w.signUps && w.signUps[t].token.Some? && w.signUps[t].stage.Won?
  }

  /** While its invite exists, the winner's mark is on it; the user disappears only with the account. */
  predicate MarkStands(w: World, t: nat)
    requires HasWon(w, t)
  {
    var id, stage := w.signUps[t].token.value, w.signUps[t].stage;
    && id < w.next && stage.user in w.known
    && (id in w.rows ==>
          && w.rows[id].usedAt == Some(stage.at)
          && w.rows[id].usedBy == if stage.user in w.users then Some(stage.user) else None)
  }

  /** An account is there and the claim is still to come. */
  predicate IsHolder(stage: Stage) {
    stage.HasAccount? || stage.Linked?
  }

  ghost predicate Orderly(w: World) {
    && (forall i :: i in w.rows ==> i < w.next)
    && (forall i :: i in w.rows && w.rows[i].usedBy.Some? ==>
        w.rows[i].usedAt.Some? && w.rows[i].usedBy.value in w.known)
    && w.users.Keys <= w.known
    && (forall t :: t in w.signUps && IsHolder(w.signUps[t].stage) ==> w.signUps[t].stage.user in w.known)
  }

  ghost predicate Consistent(w: World) {
    && Orderly(w)
    && (forall t :: HasWon(w, t) ==> MarkStands(w, t))
    && (forall t, u :: HasWon(w, t) && HasWon(w, u) && w.signUps[t].token == w.signUps[u].token ==> t == u)
  }

  lemma RowStaysInOrder(w: World, s: Step, i: InviteId)
    requires Orderly(w) && i in Next(w, s).rows
    ensures var out := Next(w, s);
            i < out.next && (out.rows[i].usedBy.Some? ==>
                out.rows[i].usedAt.Some? && out.rows[i].usedBy.value in out.known)
  {
    hide Validated, HasClaimed;
    assert i in w.rows ==> i < w.next;
  }

  lemma SignUpStaysInOrder(w: World, s: Step, t: nat)
    requires Orderly(w) && t in Next(w, s).signUps && IsHolder(Next(w, s).signUps[t].stage)
    ensures Next(w, s).signUps[t].stage.user in Next(w, s).known
  {
    hide Validated, HasClaimed, Revoke, Increment, Written, ForgetUser;
  }

  lemma StepKeepsOrder(w: World, s: Step)
    requires Orderly(w)
    ensures Orderly(Next(w, s))
  {
    var out := Next(w, s);
    assert out.users.Keys <= out.known;
    hide Next;
    forall i | i in out.rows
      ensures i < out.next
      ensures out.rows[i].usedBy.Some? ==> out.rows[i].usedAt.Some? && out.rows[i].usedBy.value in out.known
    {
      RowStaysInOrder(w, s, i);
    }
    forall t | t in out.signUps && IsHolder(out.signUps[t].stage) ensures out.signUps[t].stage.user in out.known {
      SignUpStaysInOrder(w, s, t);
    }
  }

  /** Who has won stays as it is; who wins now had an open invite before. */
  lemma StepAndWinner(w: World, s: Step, t: nat)
    requires HasWon(w, t) || HasWon(Next(w, s), t)
    ensures HasWon(w, t) ==> HasWon(Next(w, s), t) && Next(w, s).signUps[t] == w.signUps[t]
    ensures !HasWon(w, t) ==> s.TakeInvite? && s.t == t && HasRow(w, t) && w.rows[w.signUps[t].token.value].usedAt.None?
                              && w.rows[w.signUps[t].token.value].revoked.None?
                              && Next(w, s).signUps[t].token == w.signUps[t].token
  {
    hide Validated, HasClaimed;
  }

  lemma MarkStaysUp(w: World, s: Step, t: nat)
    requires Orderly(w) && HasWon(Next(w, s), t) && (HasWon(w, t) ==> MarkStands(w, t))
    ensures MarkStands(Next(w, s), t)
  {
    hide Validated, HasClaimed;
    StepAndWinner(w, s, t);
  }

  lemma StepKeepsConsistent(w: World, s: Step)
    requires Consistent(w)
    ensures Consistent(Next(w, s))
  {
    hide Next, Orderly;
    var out := Next(w, s);
    StepKeepsOrder(w, s);
    forall t | HasWon(out, t) ensures MarkStands(out, t) {
      MarkStaysUp(w, s, t);
    }
    forall t, u | HasWon(out, t) && HasWon(out, u) && out.signUps[t].token == out.signUps[u].token
      ensures t == u
    {
      StepAndWinner(w, s, t);
      StepAndWinner(w, s, u);
    }
  }

  lemma {:induction false} AlwaysConsistent(steps: seq<Step>)
    ensures Consistent(After(steps))
  {
    if steps != [] {
      AlwaysConsistent(steps[..|steps| - 1]);
      StepKeepsConsistent(After(steps[..|steps| - 1]), steps[|steps| - 1]);
    }
  }

  /** Whatever the interleaving, at most one sign-up wins an invite, and while the invite exists it names the
      winner (or nobody, once that account is deleted) and the moment of the claim. */
  lemma AtMostOneWinner(steps: seq<Step>, t: nat, u: nat)
    requires HasWon(After(steps), t)
    ensures HasWon(After(steps), u) && After(steps).signUps[u].token == After(steps).signUps[t].token ==> t == u
    ensures MarkStands(After(steps), t)
  {
    AlwaysConsistent(steps);
  }

  /** Victory is final: `usedByUserId` never passes to somebody else. */
  lemma {:induction false} VictoryIsFinal(steps: seq<Step>, n: nat, t: nat)
    requires n <= |steps| && HasWon(After(steps[..n]), t)
    ensures HasWon(After(steps), t) && After(steps).signUps[t] == After(steps[..n]).signUps[t]
        && MarkStands(After(steps), t)
    decreases |steps|
  {
    hide Next, HasWon, Orderly, MarkStands;
    AlwaysConsistent(steps);
    if n == |steps| {
      assert steps[..n] == steps;
    } else {
      var rest := steps[..|steps| - 1];
      assert rest[..n] == steps[..n];
      VictoryIsFinal(rest, n, t);
      StepAndWinner(After(rest), steps[|steps| - 1], t);
    }
  }

  // ---------- Revoked stays unclaimed ----------

  /** No claim on this invite can succeed any more. */
  predicate Closed(w: World, id: InviteId) {
    id < w.next && (id in w.rows ==> w.rows[id].revoked.Some?)
  }

  lemma {:induction false} ClosedForever(steps: seq<Step>, n: nat, id: InviteId, t: nat)
    requires n <= |steps| && Closed(After(steps[..n]), id)
    ensures Closed(After(steps), id)
    ensures HasWon(After(steps), t) && After(steps).signUps[t].token == Some(id) ==>
              HasWon(After(steps[..n]), t) && After(steps[..n]).signUps[t].token == Some(id)
    decreases |steps|
  {
    hide Next;
    if n == |steps| {
      assert steps[..n] == steps;
    } else {
      var rest := steps[..|steps| - 1];
      assert rest[..n] == steps[..n];
      ClosedForever(rest, n, id, t);
      var w, s := After(rest), steps[|steps| - 1];
      ClosedStaysClosed(w, s, id);
      if HasWon(Next(w, s), t) {
        StepAndWinner(w, s, t);
      }
    }
  }

  lemma ClosedStaysClosed(w: World, s: Step, id: InviteId)
    requires Closed(w, id)
    ensures Closed(Next(w, s), id)
  {
  }

  /** An invite that is revoked is never claimed afterwards: whoever has won it had won it before. */
  lemma RevokedIsNeverClaimed(steps: seq<Step>, n: nat, id: InviteId, t: nat)
    requires n <= |steps| && id in After(steps[..n]).rows && After(steps[..n]).rows[id].revoked.Some?
    requires HasWon(After(steps), t) && After(steps).signUps[t].token == Some(id)
    ensures HasWon(After(steps[..n]), t)
  {
    AlwaysConsistent(steps[..n]);
    ClosedForever(steps, n, id, t);
  }

  // ---------- Three strikes ----------

  /** A sign-up that counted the third strike and is about to revoke. */
  predicate AboutToPunish(w: World, t: nat, id: InviteId) {
    t in w.signUps && w.signUps[t].token == Some(id)
    && w.signUps[t].stage.Counted? && w.signUps[t].stage.attempts >= MAX_FAILED_ATTEMPTS
  }

  predicate Struck(w: World, id: InviteId) {
    id in w.rows && w.rows[id].failedAttempts >= MAX_FAILED_ATTEMPTS && w.rows[id].revoked.None?
  }

  lemma StrikeIsFollowedUp(w: World, s: Step, id: InviteId, t: nat) returns (next: nat)
    requires Struck(Next(w, s), id)
    requires Struck(w, id) ==> AboutToPunish(w, t, id)
    ensures AboutToPunish(Next(w, s), next, id)
  {
    if Struck(w, id) {
      next := t;
    } else {
      assert s.Count?;
      next := s.t;
    }
  }

  /** In every interleaving, an unrevoked invite with three or more failed attempts has a sign-up about to
      revoke it; so when none is under way, all such invites are revoked. */
  lemma {:induction false} StrikesAreFollowedUp(steps: seq<Step>, id: InviteId) returns (t: nat)
    requires Struck(After(steps), id)
    ensures AboutToPunish(After(steps), t, id)
  {
    var rest := steps[..|steps| - 1];
    t := 0;
    if Struck(After(rest), id) {
      t := StrikesAreFollowedUp(rest, id);
    }
    t := StrikeIsFollowedUp(After(rest), steps[|steps| - 1], id, t);
  }

  // ---------- Used and revoked ----------

  predicate IsUsed(w: World, id: InviteId) {
    id in w.rows && w.rows[id].usedAt.Some?
  }

  predicate IsBoth(w: World, id: InviteId) {
    IsUsed(w, id) && w.rows[id].revoked.Some?
  }

  /** The step writes a revocation of this invite: one that was decided on, or the punishment of a third
      strike. */
  predicate Revokes(w: World, s: Step, id: InviteId) {
    id in w.rows
    && ((s.Write? && s.a in w.intents && w.intents[s.a].id == id
         && (w.intents[s.a].ToRevoke? || w.intents[s.a].patch.revoke))
        || (s.Punish? && AboutToPunish(w, s.t, id)))
  }

  /** An invite comes to be both used and revoked exactly when it is used and a revocation is then written. */
  lemma MeetExactly(w: World, s: Step, id: InviteId)
    requires id in w.rows && id < w.next && !IsBoth(w, id)
    ensures IsBoth(Next(w, s), id) <==> IsUsed(w, id) && Revokes(w, s, id)
  {
    hide Validated, HasClaimed;
  }

  lemma RowsDoNotReturn(w: World, s: Step, id: InviteId)
    requires id < w.next
    ensures id < Next(w, s).next && (id in Next(w, s).rows ==> id in w.rows)
    ensures id in Next(w, s).rows && IsUsed(w, id) ==> IsUsed(Next(w, s), id)
    ensures id in Next(w, s).rows && IsBoth(w, id) ==> IsBoth(Next(w, s), id)
  {
    hide Validated, HasClaimed;
  }

  /** An invite that is there at the end was there, and what was used or both stayed so. */
  lemma {:induction false} RowThroughout(steps: seq<Step>, n: nat, id: InviteId)
    requires n <= |steps| && id < After(steps[..n]).next && id in After(steps).rows
    ensures id in After(steps[..n]).rows
    ensures IsUsed(After(steps[..n]), id) ==> IsUsed(After(steps), id)
    ensures IsBoth(After(steps[..n]), id) ==> IsBoth(After(steps), id)
    decreases |steps|
  {
    hide Next, IsUsed, IsBoth;
    if n == |steps| {
      assert steps[..n] == steps;
    } else {
      var rest := steps[..|steps| - 1];
      assert rest[..n] == steps[..n];
      KnownThroughout(rest, n, id);
      RowsDoNotReturn(After(rest), steps[|steps| - 1], id);
      RowThroughout(rest, n, id);
    }
  }

  lemma {:induction false} KnownThroughout(steps: seq<Step>, n: nat, id: InviteId)
    requires n <= |steps| && id < After(steps[..n]).next
    ensures id < After(steps).next
    decreases |steps|
  {
    hide Next;
    if n == |steps| {
      assert steps[..n] == steps;
    } else {
      var rest := steps[..|steps| - 1];
      assert rest[..n] == steps[..n];
      KnownThroughout(rest, n, id);
      RowsDoNotReturn(After(rest), steps[|steps| - 1], id);
    }
  }

  /** At step `r` a revocation is written to an invite that is used already. */
  ghost predicate RevokedLate(steps: seq<Step>, r: nat, id: InviteId) {
    r < |steps| && IsUsed(After(steps[..r]), id) && Revokes(After(steps[..r]), steps[r], id)
  }

  lemma {:induction false} BothNeedsLateRevocation(steps: seq<Step>, id: InviteId) returns (r: nat)
    requires IsBoth(After(steps), id)
    ensures RevokedLate(steps, r, id)
  {
    hide Next, IsBoth, Revokes;
    assert steps != [] by {
      assert !IsBoth(NOTHING, id) by { NothingIsUsed(id); }
    }
    var rest, s := steps[..|steps| - 1], steps[|steps| - 1];
    if IsBoth(After(rest), id) {
      r := BothNeedsLateRevocation(rest, id);
      assert rest[..r] == steps[..r];
    } else {
      r := |steps| - 1;
      AlwaysConsistent(rest);
      NewRowsAreNotBoth(After(rest), s, id);
      MeetExactly(After(rest), s, id);
    }
  }

  lemma NewRowsAreNotBoth(w: World, s: Step, id: InviteId)
    requires Consistent(w) && IsBoth(Next(w, s), id)
    ensures id in w.rows && id < w.next
  {
    hide Validated, HasClaimed, MarkStands;
  }

  /** Used and revoked meet in an interleaving if and only if a revocation is written after the invite was
      used. */
  lemma BothIffLateRevocation(steps: seq<Step>, id: InviteId)
    requires id in After(steps).rows
    ensures IsBoth(After(steps), id) <==> exists r: nat :: RevokedLate(steps, r, id)
  {
    hide Next, IsBoth, IsUsed, Revokes;
    if IsBoth(After(steps), id) {
      var r := BothNeedsLateRevocation(steps, id);
    }
    if exists r: nat :: RevokedLate(steps, r, id) {
      var r: nat :| RevokedLate(steps, r, id);
      LateRevocationMakesBoth(steps, r, id);
      RowThroughout(steps, r + 1, id);
    }
  }

  lemma LateRevocationMakesBoth(steps: seq<Step>, r: nat, id: InviteId)
    requires RevokedLate(steps, r, id)
    ensures IsBoth(After(steps[..r + 1]), id) && id < After(steps[..r + 1]).next
  {
    hide Next;
    var w := After(steps[..r]);
    assert steps[..r + 1][..r] == steps[..r];
    AlwaysConsistent(steps[..r]);
    if IsBoth(w, id) {
      RevokingKeepsRow(w, steps[r], id);
    } else {
      MeetExactly(w, steps[r], id);
    }
    RowsDoNotReturn(w, steps[r], id);
  }

  lemma RevokingKeepsRow(w: World, s: Step, id: InviteId)
    requires Revokes(w, s, id)
    ensures id in Next(w, s).rows
  {
  }

  /** The claim of the invite. */
  ghost predicate ClaimedAt(steps: seq<Step>, c: nat, id: InviteId) {
    && c < |steps| && steps[c].TakeInvite?
    && id in After(steps[..c]).rows && !IsUsed(After(steps[..c]), id) && IsUsed(After(steps[..c + 1]), id)
  }

  lemma NothingIsUsed(id: InviteId)
    ensures !IsUsed(NOTHING, id) && !IsBoth(NOTHING, id)
  {
  }

  lemma UseIsClaim(w: World, s: Step, id: InviteId)
    requires IsUsed(Next(w, s), id) && !IsUsed(w, id)
    ensures s.TakeInvite? && id in w.rows
  {
    hide Validated, HasClaimed;
  }

  lemma {:induction false} UsedWasClaimed(steps: seq<Step>, id: InviteId) returns (c: nat)
    requires IsUsed(After(steps), id)
    ensures ClaimedAt(steps, c, id)
  {
    hide Next, IsUsed;
    assert !IsUsed(NOTHING, id) by {
      NothingIsUsed(id);
    }
    var rest := steps[..|steps| - 1];
    if IsUsed(After(rest), id) {
      c := UsedWasClaimed(rest, id);
      assert rest[..c] == steps[..c] && rest[..c + 1] == steps[..c + 1];
    } else {
      UseIsClaim(After(rest), steps[|steps| - 1], id);
      c := |steps| - 1;
      assert steps[..c + 1] == steps;
    }
  }

  /** The sign-up is past the check that refused it as a wrong recipient. */
  predicate IsPunishing(w: World, t: nat, id: InviteId) {
    t in w.signUps && w.signUps[t].token == Some(id) && (w.signUps[t].stage.Strike? || w.signUps[t].stage.Counted?)
  }

  /** Whoever writes this revocation late had decided on it early. */
  predicate HadDecided(early: World, late: World, s: Step, id: InviteId) {
    && (s.Write? ==> s.a in early.intents && s.a in late.intents && early.intents[s.a] == late.intents[s.a])
    && (s.Punish? ==> IsPunishing(early, s.t, id))
  }

  /** Nobody makes up their mind to revoke an invite that is used. */
  lemma DecidedEarlier(w: World, s: Step, id: InviteId, a: nat, t: nat)
    requires IsUsed(w, id) || s.TakeInvite?
    ensures a in Next(w, s).intents && Next(w, s).intents[a].id == id ==>
              a in w.intents && w.intents[a] == Next(w, s).intents[a]
    ensures IsPunishing(Next(w, s), t, id) ==> IsPunishing(w, t, id)
  {
    hide HasClaimed;
  }

  lemma {:induction false} DecidedBeforeClaim(steps: seq<Step>, c: nat, id: InviteId, a: nat, t: nat)
    requires ClaimedAt(steps, c, id) && id in After(steps).rows
    ensures a in After(steps).intents && After(steps).intents[a].id == id ==>
              a in After(steps[..c]).intents && After(steps[..c]).intents[a] == After(steps).intents[a]
    ensures IsPunishing(After(steps), t, id) ==> IsPunishing(After(steps[..c]), t, id)
    decreases |steps|
  {
    hide Next, IsUsed, IsPunishing;
    var rest, s := steps[..|steps| - 1], steps[|steps| - 1];
    if c == |steps| - 1 {
      assert steps[..c + 1] == steps;
      DecidedEarlier(After(rest), s, id, a, t);
    } else {
      assert rest[..c] == steps[..c] && rest[..c + 1] == steps[..c + 1];
      assert rest[..c + 1][..c] == rest[..c];
      AlwaysConsistent(rest[..c]);
      KnownThroughout(rest, c, id);
      KnownThroughout(rest[..c + 1], c, id);
      RowsDoNotReturn(After(rest), s, id);
      RowThroughout(rest, c + 1, id);
      DecidedBeforeClaim(rest, c, id, a, t);
      DecidedEarlier(After(rest), s, id, a, t);
    }
  }

  /** Whoever revokes late had decided before the claim: the race is between a check that passed and a claim
      that came in between. */
  lemma LateRevokerDecidedFirst(steps: seq<Step>, r: nat, id: InviteId) returns (c: nat)
    requires RevokedLate(steps, r, id)
    ensures c < r && ClaimedAt(steps, c, id) && HadDecided(After(steps[..c]), After(steps[..r]), steps[r], id)
  {
    hide Next;
    c := UsedWasClaimed(steps[..r], id);
    assert steps[..r][..c] == steps[..c] && steps[..r][..c + 1] == steps[..c + 1];
    var a := if steps[r].Write? then steps[r].a else 0;
    var t := if steps[r].Punish? then steps[r].t else 0;
    DecidedBeforeClaim(steps[..r], c, id, a, t);
  }

  // ---------- Accounts without an invite ----------

  /** The claim has nothing to take: the row is gone, used, revoked or expired. */
  predicate Unavailable(rows: Rows, id: InviteId, now: Time) {
    id !in rows || rows[id].usedAt.Some? || rows[id].revoked.Some? || rows[id].expiresAt <= now
  }

  /** The account a sign-up made and has no invite for. */
  function WithoutInvite(stage: Stage): Option<UserId> {
    match stage
    case HasAccount(user) => Some(user)
    case Linked(user) => Some(user)
    case Lost(left) => left
    case _ => None
  }

  ghost predicate HoldersApart(w: World) {
    && (forall t :: t in w.signUps && WithoutInvite(w.signUps[t].stage).Some? ==>
          && w.signUps[t].token.Some?
          && WithoutInvite(w.signUps[t].stage).value in w.known
          && !HasClaimed(w.rows, WithoutInvite(w.signUps[t].stage).value))
    && (forall t, u :: t in w.signUps && u in w.signUps && t != u && WithoutInvite(w.signUps[t].stage).Some? ==>
          WithoutInvite(w.signUps[t].stage) != WithoutInvite(w.signUps[u].stage))
    && (forall t :: t in w.signUps && w.signUps[t].stage.Accepted? ==> w.signUps[t].token.Some?)
  }

  lemma ClaimersAreKnown(w: World, s: Step, user: UserId)
    requires Orderly(w) && HoldersApart(w) && HasClaimed(Next(w, s).rows, user)
    ensures user in w.known
    ensures HasClaimed(w.rows, user)
         || (s.TakeInvite? && s.t in w.signUps && w.signUps[s.t].stage == Linked(user)
             && Next(w, s).signUps[s.t].stage.Won?)
  {
    var i :| i in Next(w, s).rows && Next(w, s).rows[i].usedBy == Some(user);
    ClaimerOfRow(w, s, i, user);
    if i in w.rows && w.rows[i].usedBy == Some(user) {
      assert w.rows[i].usedBy.value in w.known;
      hide Next;
      assert HasClaimed(w.rows, user);
    } else {
      hide Next;
      assert WithoutInvite(w.signUps[s.t].stage) == Some(user);
    }
  }

  lemma ClaimerOfRow(w: World, s: Step, i: InviteId, user: UserId)
    requires i in Next(w, s).rows && Next(w, s).rows[i].usedBy == Some(user)
    ensures (i in w.rows && w.rows[i].usedBy == Some(user))
         || (s.TakeInvite? && s.t in w.signUps && w.signUps[s.t].stage == Linked(user)
             && Next(w, s).signUps[s.t].stage.Won?)
  {
    hide Validated, HasClaimed;
  }

  /** A sign-up gains an account only when it is opened, and such an account is new. */
  lemma HolderStep(w: World, s: Step, t: nat)
    requires t in Next(w, s).signUps && WithoutInvite(Next(w, s).signUps[t].stage).Some?
    ensures t in w.signUps && Next(w, s).signUps[t].token == w.signUps[t].token
    ensures WithoutInvite(Next(w, s).signUps[t].stage) == WithoutInvite(w.signUps[t].stage)
         || (s.OpenAccount? && s.t == t && w.signUps[t].stage.Accepted?
             && WithoutInvite(Next(w, s).signUps[t].stage) == Some(s.user) && s.user !in w.known)
  {
    hide Validated, HasClaimed, Revoke, Increment, Written, ForgetUser;
  }

  lemma AcceptedHasToken(w: World, s: Step, t: nat)
    requires t in Next(w, s).signUps && Next(w, s).signUps[t].stage.Accepted?
    requires t in w.signUps && w.signUps[t].stage.Accepted? ==> w.signUps[t].token.Some?
    ensures Next(w, s).signUps[t].token.Some?
  {
    hide HasClaimed;
  }

  lemma HolderKnown(w: World, s: Step, t: nat)
    requires HoldersApart(w) && t in Next(w, s).signUps && WithoutInvite(Next(w, s).signUps[t].stage).Some?
    ensures WithoutInvite(Next(w, s).signUps[t].stage).value in Next(w, s).known
  {
    hide Validated, HasClaimed;
  }

  lemma StepKeepsHoldersApart(w: World, s: Step)
    requires Orderly(w) && HoldersApart(w)
    ensures HoldersApart(Next(w, s))
  {
    hide Next, HasClaimed, Orderly;
    var out := Next(w, s);
    forall t | t in out.signUps && WithoutInvite(out.signUps[t].stage).Some?
      ensures out.signUps[t].token.Some? && WithoutInvite(out.signUps[t].stage).value in out.known
      ensures !HasClaimed(out.rows, WithoutInvite(out.signUps[t].stage).value)
    {
      var user := WithoutInvite(out.signUps[t].stage).value;
      HolderStep(w, s, t);
      HolderKnown(w, s, t);
      if HasClaimed(out.rows, user) {
        ClaimersAreKnown(w, s, user);
      }
    }
    forall t, u | t in out.signUps && u in out.signUps && t != u && WithoutInvite(out.signUps[t].stage).Some?
      ensures WithoutInvite(out.signUps[t].stage) != WithoutInvite(out.signUps[u].stage)
    {
      HolderStep(w, s, t);
      if WithoutInvite(out.signUps[u].stage).Some? {
        HolderStep(w, s, u);
      }
    }
    forall t | t in out.signUps && out.signUps[t].stage.Accepted? ensures out.signUps[t].token.Some? {
      AcceptedHasToken(w, s, t);
    }
  }

  lemma {:induction false} HoldersAlwaysApart(steps: seq<Step>)
    ensures HoldersApart(After(steps))
  {
    if steps != [] {
      var rest := steps[..|steps| - 1];
      HoldersAlwaysApart(rest);
      AlwaysConsistent(rest);
      StepKeepsHoldersApart(After(rest), steps[|steps| - 1]);
    }
  }

  /** Somebody has the profile, or the user has one with the same provider. */
  ghost predicate HasOwner(w: World, profile: Profile, user: UserId) {
    exists p :: p in w.identities && (p == profile || (p.provider == profile.provider && w.identities[p] == user))
  }

  lemma OwnerDecides(w: World, profile: Profile, user: UserId)
    ensures IsTaken(w.identities, profile, user) <==> HasOwner(w, profile, user)
  {
  }

  /** In every interleaving, linking fails exactly when the profile belongs to some account, or the account has
      another profile with that provider. No invite is touched, so one that is pending stays pending. */
  lemma LinkFailsIffTaken(steps: seq<Step>, t: nat)
    requires var w := After(steps);
      && t in w.signUps && w.signUps[t].stage.HasAccount? && w.signUps[t].stage.user in w.users
    ensures var w, out := After(steps), After(steps + [LinkIdentity(t)]);
      var user := w.signUps[t].stage.user;
      && (At(out, t, Lost(Some(user))) <==> HasOwner(w, w.signUps[t].profile, user))
      && (At(out, t, Linked(user)) <==> !HasOwner(w, w.signUps[t].profile, user))
      && user in out.users && !HasClaimed(out.rows, user) && out.rows == w.rows
  {
    HoldersAlwaysApart(steps);
    OneMore(steps, LinkIdentity(t));
    HolderHasNone(After(steps), t);
    OwnerDecides(After(steps), After(steps).signUps[t].profile, After(steps).signUps[t].stage.user);
    hide HasClaimed, HoldersApart, After, IsTaken, HasOwner;
  }

  /** In every interleaving, claiming leaves the account without an invite exactly when the invite is gone,
      used, revoked or expired at that moment. */
  lemma ClaimFailsIffUnavailable(steps: seq<Step>, t: nat, now: Time)
    requires var w := After(steps);
      && t in w.signUps && w.signUps[t].stage.Linked? && w.signUps[t].stage.user in w.users
    ensures var w, out := After(steps), After(steps + [TakeInvite(t, now)]);
      var user := w.signUps[t].stage.user;
      && w.signUps[t].token.Some? && t in out.signUps
      && (out.signUps[t].stage == Lost(Some(user)) <==> Unavailable(w.rows, w.signUps[t].token.value, now))
      && (out.signUps[t].stage == Won(user, now) <==> !Unavailable(w.rows, w.signUps[t].token.value, now))
      && user in out.users && (HasClaimed(out.rows, user) <==> out.signUps[t].stage.Won?)
  {
    HoldersAlwaysApart(steps);
    OneMore(steps, TakeInvite(t, now));
    var w := After(steps);
    var user, id := w.signUps[t].stage.user, w.signUps[t].token.value;
    hide HasClaimed, HoldersApart, After;
    assert w.signUps[t].token.Some? && !HasClaimed(w.rows, user) by {
      HolderHasNone(w, t);
    }
    if !Unavailable(w.rows, id, now) {
      ClaimMarks(w.rows, id, user, now);
    }
  }

  lemma HolderHasNone(w: World, t: nat)
    requires HoldersApart(w) && t in w.signUps && IsHolder(w.signUps[t].stage)
    ensures w.signUps[t].token.Some? && !HasClaimed(w.rows, w.signUps[t].stage.user)
  {
    assert WithoutInvite(w.signUps[t].stage) == Some(w.signUps[t].stage.user);
  }

  lemma ClaimMarks(rows: Rows, id: InviteId, user: UserId, now: Time)
    requires Claim(rows, id, user, now).Done?
    ensures HasClaimed(Claim(rows, id, user, now).value, user)
  {
    assert Claim(rows, id, user, now).value[id].usedBy == Some(user);
  }

  /** The step leaves the sign-up with this account and no invite: the profile is taken when the account is to
      be linked, or the invite is unavailable when it is to be claimed. */
  ghost predicate FailsAt(w: World, s: Step, t: nat, user: UserId) {
    && user in w.users
    && (|| (s == LinkIdentity(t) && At(w, t, HasAccount(user)) && HasOwner(w, w.signUps[t].profile, user))
        || (s.TakeInvite? && s.t == t && At(w, t, Linked(user)) && w.signUps[t].token.Some?
            && Unavailable(w.rows, w.signUps[t].token.value, s.now)))
  }

  /** Over whole interleavings: a sign-up ends with an account and no invite if and only if its profile was taken
      when the account was to be linked, or its invite was unavailable at the claim. Its user never comes to
      have an invite. */
  lemma AccountWithoutInviteIff(steps: seq<Step>, t: nat, user: UserId)
    ensures At(After(steps), t, Lost(Some(user))) <==>
            exists c: nat :: c < |steps| && FailsAt(After(steps[..c]), steps[c], t, user)
    ensures At(After(steps), t, Lost(Some(user))) ==> !HasClaimed(After(steps).rows, user)
  {
    if At(After(steps), t, Lost(Some(user))) {
      HoldersAlwaysApart(steps);
      assert WithoutInvite(After(steps).signUps[t].stage) == Some(user);
      hide FailsAt, HasClaimed;
      var c := LostAt(steps, t, user);
    }
    if c: nat :| c < |steps| && FailsAt(After(steps[..c]), steps[c], t, user) {
      LostForever(steps, c, t, user);
    }
  }

  lemma {:induction false} LostAt(steps: seq<Step>, t: nat, user: UserId) returns (c: nat)
    requires At(After(steps), t, Lost(Some(user)))
    ensures c < |steps| && FailsAt(After(steps[..c]), steps[c], t, user)
  {
    hide Next, FailsAt, HoldersApart;
    var rest := steps[..|steps| - 1];
    if At(After(rest), t, Lost(Some(user))) {
      c := LostAt(rest, t, user);
      assert rest[..c] == steps[..c];
    } else {
      c := |steps| - 1;
      HoldersAlwaysApart(rest);
      LosesIff(After(rest), steps[c], t, user);
    }
  }

  lemma {:induction false} LostForever(steps: seq<Step>, c: nat, t: nat, user: UserId)
    requires c < |steps| && FailsAt(After(steps[..c]), steps[c], t, user)
    ensures At(After(steps), t, Lost(Some(user)))
    decreases |steps|
  {
    hide Next, FailsAt, HoldersApart;
    var rest, s := steps[..|steps| - 1], steps[|steps| - 1];
    HoldersAlwaysApart(rest);
    if c < |rest| {
      assert rest[..c] == steps[..c];
      LostForever(rest, c, t, user);
    }
    LosesIff(After(rest), s, t, user);
  }

  lemma LosesIff(w: World, s: Step, t: nat, user: UserId)
    requires HoldersApart(w)
    ensures At(Next(w, s), t, Lost(Some(user))) <==> At(w, t, Lost(Some(user))) || FailsAt(w, s, t, user)
  {
    if s.TakeInvite? && s.t == t {
      if At(w, t, Linked(user)) {
        HolderHasNone(w, t);
      }
      LosesClaiming(w, s, t, user);
    } else if s == LinkIdentity(t) {
      LosesLinking(w, s, t, user);
    } else {
      OtherStepsDoNotLose(w, s, t, user);
    }
  }

  lemma LosesClaiming(w: World, s: Step, t: nat, user: UserId)
    requires s.TakeInvite? && s.t == t && (At(w, t, Linked(user)) ==> !HasClaimed(w.rows, user))
    ensures At(Next(w, s), t, Lost(Some(user))) <==> At(w, t, Lost(Some(user))) || FailsAt(w, s, t, user)
  {
    hide RowsAfter, UsersAfter, IdentitiesAfter, IsTaken, HasClaimed;
  }

  lemma LosesLinking(w: World, s: Step, t: nat, user: UserId)
    requires s == LinkIdentity(t)
    ensures At(Next(w, s), t, Lost(Some(user))) <==> At(w, t, Lost(Some(user))) || FailsAt(w, s, t, user)
  {
    if t in w.signUps {
      OwnerDecides(w, w.signUps[t].profile, user);
    }
    hide RowsAfter, UsersAfter, IdentitiesAfter, IsTaken, HasOwner;
  }

  lemma OtherStepsDoNotLose(w: World, s: Step, t: nat, user: UserId)
    requires s != LinkIdentity(t) && !(s.TakeInvite? && s.t == t)
    ensures At(Next(w, s), t, Lost(Some(user))) <==> At(w, t, Lost(Some(user)))
  {
    hide RowsAfter, UsersAfter, IdentitiesAfter, IsTaken, Validated, Claim;
  }

  // ---------- Winners who are told they lost ----------

  /** The step with which the sign-up wins. */
  ghost predicate WinsAt(steps: seq<Step>, c: nat, t: nat) {
    c < |steps| && !HasWon(After(steps[..c]), t) && HasWon(After(steps[..c + 1]), t)
  }

  /** The invite was deleted after the claim and before the read with which the claim ends. */
  ghost predicate ErasedBeforeRead(steps: seq<Step>, c: nat, e: nat, r: nat, t: nat) {
    && c < e < r < |steps| && WinsAt(steps, c, t)
    && HasWon(After(steps[..r]), t) && steps[e] == Erase(After(steps[..r]).signUps[t].token.value)
    && steps[r] == ReadBack(t) && t !in After(steps[..r]).answers
  }

  predicate IsToldOff(w: World, t: nat) {
    t in w.answers && !w.answers[t]
  }

  /** A winner is refused all the same if and only if the invite was deleted between the claim and its read. */
  lemma WinnerRefusedIffErased(steps: seq<Step>, t: nat)
    ensures IsToldOff(After(steps), t) <==>
            exists c: nat, e: nat, r: nat :: ErasedBeforeRead(steps, c, e, r, t)
  {
    hide Next, IsToldOff, ErasedBeforeRead;
    if IsToldOff(After(steps), t) {
      var c, e, r := ToldOffWasErased(steps, t);
    }
    if c: nat, e: nat, r: nat :| ErasedBeforeRead(steps, c, e, r, t) {
      ErasedIsToldOff(steps, c, e, r, t);
    }
  }

  lemma ToldOffWasErased(steps: seq<Step>, t: nat) returns (c: nat, e: nat, r: nat)
    requires IsToldOff(After(steps), t)
    ensures ErasedBeforeRead(steps, c, e, r, t)
  {
    hide Next, IsToldOff, MarkStands, Orderly;
    r := ToldAt(steps, t);
    c := WonAt(steps[..r], t);
    assert steps[..r][..c] == steps[..c] && steps[..r][..c + 1] == steps[..c + 1];
    OneMoreOf(steps, c);
    ClaimKeepsRow(After(steps[..c]), steps[c], t);
    VictoryIsFinal(steps[..r], c + 1, t);
    e := VanishedWasErased(steps[..r], c + 1, After(steps[..r]).signUps[t].token.value);
  }

  lemma ErasedIsToldOff(steps: seq<Step>, c: nat, e: nat, r: nat, t: nat)
    requires ErasedBeforeRead(steps, c, e, r, t)
    ensures IsToldOff(After(steps), t)
  {
    hide Next;
    ErasedStaysGone(steps, c, e, r, t);
    OneMoreOf(steps, r);
    ReadingTells(After(steps[..r]), steps[r], t);
    ToldForever(steps, r + 1, t);
  }

  lemma OneMoreOf(steps: seq<Step>, n: nat)
    requires n < |steps|
    ensures After(steps[..n + 1]) == Next(After(steps[..n]), steps[n])
  {
    assert steps[..n + 1][..n] == steps[..n];
  }

  lemma ClaimKeepsRow(w: World, s: Step, t: nat)
    requires !HasWon(w, t) && HasWon(Next(w, s), t)
    ensures HasRow(Next(w, s), t)
  {
    hide Validated, HasClaimed;
  }

  lemma ReadingTells(w: World, s: Step, t: nat)
    ensures s == ReadBack(t) && HasWon(w, t) && t !in w.answers ==>
              t in Next(w, s).answers && Next(w, s).answers[t] == HasRow(w, t)
    ensures t in w.answers ==> t in Next(w, s).answers && Next(w, s).answers[t] == w.answers[t]
    ensures t !in w.answers && t in Next(w, s).answers ==> s == ReadBack(t) && HasWon(w, t)
  {
    hide Validated, HasClaimed, IsTaken;
  }

  lemma {:induction false} ToldAt(steps: seq<Step>, t: nat) returns (r: nat)
    requires IsToldOff(After(steps), t)
    ensures r < |steps| && steps[r] == ReadBack(t) && t !in After(steps[..r]).answers
    ensures HasWon(After(steps[..r]), t) && !HasRow(After(steps[..r]), t)
  {
    hide Next;
    var rest := steps[..|steps| - 1];
    ReadingTells(After(rest), steps[|steps| - 1], t);
    if t in After(rest).answers {
      r := ToldAt(rest, t);
      assert rest[..r] == steps[..r];
    } else {
      r := |steps| - 1;
    }
  }

  lemma {:induction false} ToldForever(steps: seq<Step>, n: nat, t: nat)
    requires n <= |steps| && IsToldOff(After(steps[..n]), t)
    ensures IsToldOff(After(steps), t)
    decreases |steps|
  {
    hide Next;
    if n == |steps| {
      assert steps[..n] == steps;
    } else {
      var rest := steps[..|steps| - 1];
      assert rest[..n] == steps[..n];
      ToldForever(rest, n, t);
      ReadingTells(After(rest), steps[|steps| - 1], t);
    }
  }

  lemma {:induction false} WonAt(steps: seq<Step>, t: nat) returns (c: nat)
    requires HasWon(After(steps), t)
    ensures WinsAt(steps, c, t)
  {
    hide Next;
    var rest := steps[..|steps| - 1];
    if HasWon(After(rest), t) {
      c := WonAt(rest, t);
      assert rest[..c] == steps[..c] && rest[..c + 1] == steps[..c + 1];
    } else {
      c := |steps| - 1;
      assert steps[..c + 1] == steps;
    }
  }

  lemma RowsGoByErasing(w: World, s: Step, id: InviteId)
    requires id in w.rows
    ensures id !in Next(w, s).rows <==> s == Erase(id)
  {
    hide Validated, HasClaimed, IsTaken;
  }

  lemma {:induction false} VanishedWasErased(steps: seq<Step>, n: nat, id: InviteId) returns (e: nat)
    requires n <= |steps| && id in After(steps[..n]).rows && id !in After(steps).rows
    ensures n <= e < |steps| && steps[e] == Erase(id)
    decreases |steps|
  {
    hide Next;
    assert steps[..|steps|] == steps;
    e := |steps| - 1;
    var rest := steps[..e];
    assert rest[..n] == steps[..n];
    if id in After(rest).rows {
      RowsGoByErasing(After(rest), steps[e], id);
    } else {
      e := VanishedWasErased(rest, n, id);
    }
  }

  lemma ErasedStaysGone(steps: seq<Step>, c: nat, e: nat, r: nat, t: nat)
    requires ErasedBeforeRead(steps, c, e, r, t)
    ensures !HasRow(After(steps[..r]), t)
  {
    hide Next;
    var id := After(steps[..r]).signUps[t].token.value;
    assert steps[..r][..c + 1] == steps[..c + 1] && steps[..r][..e + 1] == steps[..e + 1];
    AlwaysConsistent(steps[..r]);
    AlwaysConsistent(steps[..c + 1]);
    VictoryIsFinal(steps[..r], c + 1, t);
    assert id < After(steps[..c + 1]).next;
    assert steps[..e + 1][..c + 1] == steps[..c + 1];
    KnownThroughout(steps[..e + 1], c + 1, id);
    OneMoreOf(steps, e);
    ErasingErases(After(steps[..e]), id);
    if id in After(steps[..r]).rows {
      RowThroughout(steps[..r], e + 1, id);
      assert false;
    }
  }

  lemma ErasingErases(w: World, id: InviteId)
    ensures id !in Next(w, Erase(id)).rows
  {
  }

  // ---------- Such runs ----------

  /** An administrator's check passes, the invite is used, and the revocation is still written. */
  lemma UsedAndRevokedCanMeet() returns (steps: seq<Step>)
    ensures 0 in After(steps).rows && After(steps).rows[0].usedAt.Some? && After(steps).rows[0].revoked.Some?
  {
    var s0 := OneAccount();
    var s1 := s0 + [Decide(0, ToRevoke(0, ByAdmin), 2)];
    var s2 := s1 + [TakeInvite(0, 3)];
    steps := s2 + [Write(0, 4)];
    OneMore(s0, Decide(0, ToRevoke(0, ByAdmin), 2));
    OneMore(s1, TakeInvite(0, 3));
    OneMore(s2, Write(0, 4));
    hide After;
    assert After(s1) == After(s0).(intents := map[0 := ToRevoke(0, ByAdmin)]);
    assert At(After(s2), 0, Won("u", 3));
  }

  const P: Profile := Profile(0, "p")
  const Q: Profile := Profile(0, "q")

  /** A sign-up that passed validation. */
  lemma OneAccepted() returns (steps: seq<Step>)
    ensures After(steps) == World(
              map[0 := Invite(None, false, 9, None, None, None, 0)], 1, map[], {}, map[],
              map[0 := SignUp(Some(0), "a", P, Accepted)], map[], map[])
  {
    steps := [Issue(None, false, 9), Arrive(0, Some(0), "a", P), Check(0, 1)];
    ThreeSteps(steps);
  }

  /** A sign-up that has its account, linked to its profile. */
  lemma OneAccount() returns (steps: seq<Step>)
    ensures After(steps) == World(
              map[0 := Invite(None, false, 9, None, None, None, 0)], 1, map["u" := "a"], {"u"}, map[P := "u"],
              map[0 := SignUp(Some(0), "a", P, Linked("u"))], map[], map[])
  {
    var s0 := OneAccepted();
    var s1 := s0 + [OpenAccount(0, "u")];
    steps := s1 + [LinkIdentity(0)];
    OneMore(s0, OpenAccount(0, "u"));
    OneMore(s1, LinkIdentity(0));
    hide After;
    assert At(After(s0), 0, Accepted) && At(After(s1), 0, HasAccount("u"));
  }

  lemma OneMore(steps: seq<Step>, s: Step)
    ensures After(steps + [s]) == Next(After(steps), s)
  {
  }

  lemma ThreeSteps(steps: seq<Step>)
    requires |steps| == 3
    ensures After(steps) == Next(Next(Next(NOTHING, steps[0]), steps[1]), steps[2])
  {
    hide Next;
    assert steps[..2][..1] == steps[..1] && steps[..1][..0] == [];
    assert After(steps[..1]) == Next(NOTHING, steps[0]);
    assert After(steps[..2]) == Next(After(steps[..1]), steps[1]);
  }

  /** Two sign-ups that both passed validation and have their accounts. */
  lemma TwoAccounts() returns (steps: seq<Step>)
    ensures After(steps) == World(
              map[0 := Invite(None, false, 9, None, None, None, 0)], 1, map["u" := "a", "v" := "b"], {"u", "v"},
              map[P := "u", Q := "v"],
              map[0 := SignUp(Some(0), "a", P, Linked("u")), 1 := SignUp(Some(0), "b", Q, Linked("v"))], map[], map[])
  {
    var s0 := OneAccount();
    var s1 := Attempt(s0, 1, 0, Q, 1, "v");
    steps := s1 + [LinkIdentity(1)];
    OneMore(s1, LinkIdentity(1));
    hide After;
    assert !IsTaken(map[P := "u"], Q, "v");
  }

  lemma Passes(w: World, t: nat, now: Time)
    requires At(w, t, Started) && Validated(w.rows, w.signUps[t].token, Some(w.signUps[t].email), now).Done?
    ensures Next(w, Check(t, now)) == Move(w, t, Accepted)
  {
    hide Validated;
  }

  lemma TriesToOpen(w: World, t: nat, user: UserId)
    requires At(w, t, Accepted) && user !in w.known
    ensures var out := Next(w, OpenAccount(t, user));
            if w.signUps[t].email in w.users.Values then out == Move(w, t, Lost(None))
            else out == Move(w.(users := w.users[user := w.signUps[t].email], known := w.known + {user}), t,
                             HasAccount(user))
  {
  }

  /** A sign-up for "b" gets as far as its account, or finds that there is one. */
  lemma Attempt(s0: seq<Step>, t: nat, id: InviteId, profile: Profile, now: Time, user: UserId)
    returns (steps: seq<Step>)
    requires Validated(After(s0).rows, Some(id), Some("b"), now).Done?
    requires t !in After(s0).signUps && user !in After(s0).known
    ensures steps == s0 + [Arrive(t, Some(id), "b", profile), Check(t, now), OpenAccount(t, user)]
    ensures var w, out := After(s0), After(steps);
            if "b" in w.users.Values
            then out == w.(signUps := w.signUps[t := SignUp(Some(id), "b", profile, Lost(None))])
            else out == w.(users := w.users[user := "b"], known := w.known + {user},
                           signUps := w.signUps[t := SignUp(Some(id), "b", profile, HasAccount(user))])
  {
    var s1 := s0 + [Arrive(t, Some(id), "b", profile)];
    var s2 := s1 + [Check(t, now)];
    steps := s2 + [OpenAccount(t, user)];
    OneMore(s0, Arrive(t, Some(id), "b", profile));
    OneMore(s1, Check(t, now));
    OneMore(s2, OpenAccount(t, user));
    assert After(s1) == After(s0).(signUps := After(s0).signUps[t := SignUp(Some(id), "b", profile, Started)]);
    hide After, Validated, Next;
    Passes(After(s1), t, now);
    TriesToOpen(After(s2), t, user);
  }

  lemma OneClaims() returns (steps: seq<Step>)
    ensures var w := After(steps);
      && At(w, 0, Won("u", 2)) && At(w, 1, Linked("v")) && w.signUps[0].token == w.signUps[1].token == Some(0)
      && w.users == map["u" := "a", "v" := "b"]
      && w.rows == map[0 := Invite(None, false, 9, Some(2), Some("u"), None, 0)]
  {
    var s0 := TwoAccounts();
    steps := s0 + [TakeInvite(0, 2)];
    OneMore(s0, TakeInvite(0, 2));
    hide After;
  }

  /** The loser of a race has no invite but keeps the account made for it. */
  lemma LoserKeepsAccount() returns (steps: seq<Step>)
    ensures var w := After(steps);
            HasWon(w, 0) && At(w, 1, Lost(Some("v"))) && "v" in w.users && !HasClaimed(w.rows, "v")
  {
    var s1 := OneClaims();
    steps := s1 + [TakeInvite(1, 2)];
    OneMore(s1, TakeInvite(1, 2));
    hide After;
  }

  /** Somebody who has the account "u" is invited again under another email, and opens a second account. */
  lemma InvitedAgain() returns (steps: seq<Step>)
    ensures After(steps) == World(
              map[0 := Invite(None, false, 9, None, None, None, 0),
                  1 := Invite(Some("b"), false, 9, None, None, None, 0)],
              2, map["u" := "a", "v" := "b"], {"u", "v"}, map[P := "u"],
              map[0 := SignUp(Some(0), "a", P, Linked("u")), 1 := SignUp(Some(1), "b", P, HasAccount("v"))],
              map[], map[])
  {
    var s0 := OneAccount();
    var s1 := s0 + [Issue(Some("b"), false, 9)];
    OneMore(s0, Issue(Some("b"), false, 9));
    var rows := After(s0).rows[1 := Invite(Some("b"), false, 9, None, None, None, 0)];
    assert After(s1) == After(s0).(rows := rows, next := 2);
    hide After, Next;
    steps := Attempt(s1, 1, 1, P, 1, "v");
  }

  /** No race is needed: the profile is known under another email. The invite stays pending, and another attempt
      finds the email in use. */
  lemma KnownProfileKeepsInvitePending() returns (steps: seq<Step>)
    ensures var w := After(steps);
      && At(w, 1, Lost(Some("v"))) && "v" in w.users && !HasClaimed(w.rows, "v")
      && w.signUps[1].token == Some(1) && 1 in w.rows && IsPending(w.rows[1], 2) && w.rows[1].email == Some("b")
    ensures var again := After(steps + [Arrive(2, Some(1), "b", P), Check(2, 2), OpenAccount(2, "x")]);
            At(again, 2, Lost(None)) && again.rows == After(steps).rows
  {
    var s0 := InvitedAgain();
    steps := s0 + [LinkIdentity(1)];
    OneMore(s0, LinkIdentity(1));
    hide After, Next;
    TakenAtLink(After(s0), 1);
    assert After(steps) == Move(After(s0), 1, Lost(Some("v")));
    var s3 := Attempt(steps, 2, 1, P, 2, "x");
  }

  lemma TakenAtLink(w: World, t: nat)
    requires t in w.signUps && w.signUps[t].stage.HasAccount? && w.signUps[t].stage.user in w.users
    requires w.signUps[t].profile in w.identities
    ensures Next(w, LinkIdentity(t)) == Move(w, t, Lost(Some(w.signUps[t].stage.user)))
  {
  }
}
