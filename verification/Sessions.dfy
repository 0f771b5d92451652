/**
 Refresh-token rotation: every refresh is a lookup, a conditional revocation and an insertion, and
 the steps of any number of calls may come in any order.

 A refresh token is the position of the session row it was issued for, so a token is fresh. A
 session belongs to the chain of the login it descends from; `origins` records that descent, which
 the rows themselves do not.
 */
module Sessions {
  import opened Prelude

  datatype Session = Session(user: nat, fingerprint: string, expiresAt: nat, revokedAt: Option<nat>)

  /** Where a row came from: the first row of its chain and, after a refresh, the row before it and the call. */
  datatype Origin = Login(root: nat) | Rotated(root: nat, parent: nat, maker: nat)

  datatype Progress =
    | Arrived
    | Found(session: nat)
    | Won(session: nat)
    | Done(session: nat, successor: nat)
    | Rejected

  /** A refresh call: the token and the fingerprint presented, and how far the call has come. */
  datatype Refresh = Refresh(token: nat, fingerprint: string, progress: Progress)

  datatype State = State(
    clock: nat,
    suspended: set<nat>,
    rows: seq<Session>,
    origins: seq<Origin>,
    calls: seq<Refresh>)

  datatype Event =
    | LogIn(user: nat, fingerprint: string)
    | Arrive(token: nat, fingerprint: string)
    | LookUp(call: nat)
    | RevokeIfLive(call: nat)
    | CreateSession(call: nat)
    | RevokeSession(token: nat, fingerprint: string)
    | LogOutAll(user: nat)
    | Suspend(user: nat)
    | Wait(ms: nat)

  const LIFETIME_MS: nat := 30 * 24 * 60 * 60 * 1000

  // ------------------------------------------------------------ row updates

  function NewSession(user: nat, fingerprint: string, now: nat): Session {
    Session(user, fingerprint, now + LIFETIME_MS, None)
  }

  /** The row the presented token is found under: not revoked, not expired, with the same fingerprint. */
  predicate Matches(rows: seq<Session>, token: nat, fingerprint: string, now: nat) {
    token < |rows| && rows[token].fingerprint == fingerprint && rows[token].revokedAt.None? && rows[token].expiresAt > now
  }

  function RevokedOne(rows: seq<Session>, token: nat, fingerprint: string, now: nat): seq<Session> {
    if token < |rows| && rows[token].fingerprint == fingerprint then rows[token := rows[token].(revokedAt := Some(now))] else rows
  }

  function RevokedAll(rows: seq<Session>, user: nat, now: nat): seq<Session> {
    seq(|rows|, i requires 0 <= i < |rows| => if rows[i].user == user then rows[i].(revokedAt := Some(now)) else rows[i])
  }

  // ------------------------------------------------------------------ steps

  function At(s: State, call: nat, progress: Progress): seq<Refresh>
    requires call < |s.calls|
  {
    s.calls[call := s.calls[call].(progress := progress)]
  }

  function LookedUp(s: State, call: nat): State
    requires call < |s.calls|
  {
    var c := s.calls[call];
    if !Matches(s.rows, c.token, c.fingerprint, s.clock) then s.(calls := At(s, call, Rejected))
    else if s.rows[c.token].user in s.suspended then s.(calls := At(s, call, Rejected))
    else s.(calls := At(s, call, Found(c.token)))
  }

  function Contested(s: State, call: nat): State
    requires call < |s.calls| && s.calls[call].progress.Found?
  {
    var p := s.calls[call].progress.session;
    if p < |s.rows| && s.rows[p].revokedAt.None? then
      s.(rows := s.rows[p := s.rows[p].(revokedAt := Some(s.clock))], calls := At(s, call, Won(p)))
    else s.(calls := At(s, call, Rejected))
  }

  function Created(s: State, call: nat): State
    requires call < |s.calls| && s.calls[call].progress.Won?
  {
    var p := s.calls[call].progress.session;
    if p < |s.rows| && |s.origins| == |s.rows| then
      s.(rows := s.rows + [NewSession(s.rows[p].user, s.calls[call].fingerprint, s.clock)],
         origins := s.origins + [Rotated(s.origins[p].root, p, call)],
         calls := At(s, call, Done(p, |s.rows|)))
    else s
  }

  /** One step; a step that its call is not ready for does nothing. */
  function Step(s: State, event: Event): State {
    match event
    case LogIn(user, fingerprint) =>
      s.(suspended := s.suspended - {user}, rows := s.rows + [NewSession(user, fingerprint, s.clock)],
         origins := s.origins + [Login(|s.rows|)])
    case Arrive(token, fingerprint) => s.(calls := s.calls + [Refresh(token, fingerprint, Arrived)])
    case LookUp(c) => if c < |s.calls| && s.calls[c].progress.Arrived? then LookedUp(s, c) else s
    case RevokeIfLive(c) => if c < |s.calls| && s.calls[c].progress.Found? then Contested(s, c) else s
    case CreateSession(c) => if c < |s.calls| && s.calls[c].progress.Won? then Created(s, c) else s
    case RevokeSession(token, fingerprint) => s.(rows := RevokedOne(s.rows, token, fingerprint, s.clock))
    case LogOutAll(user) => s.(rows := RevokedAll(s.rows, user, s.clock))
    case Suspend(user) => s.(suspended := s.suspended + {user})
    case Wait(ms) => s.(clock := s.clock + ms)
  }

  function Run(s: State, events: seq<Event>): State {
    if events == [] then s else Step(Run(s, events[..|events| - 1]), events[|events| - 1])
  }

  const EMPTY := State(0, {}, [], [], [])

  ghost predicate Reachable(s: State) {
    exists events :: Run(EMPTY, events) == s
  }

  // -------------------------------------------------------------- invariant

  predicate RowsDescend(s: State) {
    |s.origins| == |s.rows| && forall i :: 0 <= i < |s.rows| ==> Descends(s, i)
  }

  predicate Descends(s: State, i: nat)
    requires i < |s.rows| == |s.origins|
  {
    match s.origins[i]
    case Login(root) => root == i
    case Rotated(root, p, c) =>
      && p < i && root == s.origins[p].root && root <= p && s.rows[root].user == s.rows[i].user
      && c < |s.calls| && s.calls[c].progress == Done(p, i)
  }

  predicate Advanced(p: Progress) {
    p.Won? || p.Done?
  }

  predicate CallsSound(s: State)
    requires |s.origins| == |s.rows|
  {
    forall c :: 0 <= c < |s.calls| ==> CallSound(s, s.calls[c])
  }

  predicate CallSound(s: State, call: Refresh)
    requires |s.origins| == |s.rows|
  {
    var p := call.progress;
    && (p.Found? || Advanced(p) ==> p.session == call.token < |s.rows| && s.rows[p.session].fingerprint == call.fingerprint)
    && (Advanced(p) ==> s.rows[p.session].revokedAt.Some?)
    && (p.Done? ==> p.successor < |s.rows| && s.origins[p.successor].Rotated? && s.origins[p.successor].parent == p.session)
  }

  /** Whoever may still continue a chain: a session not revoked, or a call that revoked one and has yet to replace it. */
  datatype Holder = Row(row: nat) | Winner(call: nat)

  predicate Holds(s: State, h: Holder, root: nat) {
    match h
    case Row(i) => i < |s.rows| == |s.origins| && s.rows[i].revokedAt.None? && s.origins[i].root == root
    case Winner(c) =>
      && c < |s.calls| && s.calls[c].progress.Won?
      && s.calls[c].progress.session < |s.origins| && s.origins[s.calls[c].progress.session].root == root
  }

  ghost predicate OneHolder(s: State) {
    forall h, g, root {:trigger Holds(s, h, root), Holds(s, g, root)} :: Holds(s, h, root) && Holds(s, g, root) ==> h == g
  }

  predicate WonOnce(s: State) {
    forall c, d :: 0 <= c < d < |s.calls| && Advanced(s.calls[c].progress) && Advanced(s.calls[d].progress)
      ==> s.calls[c].progress.session != s.calls[d].progress.session
  }

  ghost predicate Inv(s: State) {
    RowsDescend(s) && CallsSound(s) && OneHolder(s) && WonOnce(s)
  }

  lemma StepDescends(s: State, event: Event)
    requires RowsDescend(s) && CallsSound(s)
    ensures RowsDescend(Step(s, event))
  {
    var t := Step(s, event);
    forall i | 0 <= i < |t.rows| ensures Descends(t, i) {
      if i < |s.rows| {
        assert Descends(s, i);
      } else if event.CreateSession? {
        assert Descends(s, s.calls[event.call].progress.session);
      }
    }
  }

  lemma StepCallsSound(s: State, event: Event)
    requires RowsDescend(s) && CallsSound(s)
    ensures |Step(s, event).origins| == |Step(s, event).rows| && CallsSound(Step(s, event))
  {
    StepDescends(s, event);
    var t := Step(s, event);
    forall c | 0 <= c < |t.calls| ensures CallSound(t, t.calls[c]) {
      if c < |s.calls| {
        assert CallSound(s, s.calls[c]);
      }
    }
  }

  lemma StepWonOnce(s: State, event: Event)
    requires RowsDescend(s) && CallsSound(s) && WonOnce(s)
    ensures WonOnce(Step(s, event))
  {
    var t := Step(s, event);
    forall c, d | 0 <= c < d < |t.calls| && Advanced(t.calls[c].progress) && Advanced(t.calls[d].progress)
      ensures t.calls[c].progress.session != t.calls[d].progress.session
    {
      assert CallSound(s, s.calls[c]);
      assert CallSound(s, s.calls[d]);
    }
  }

  /** The holder before the step that a holder after it comes from. */
  function Before(s: State, event: Event, h: Holder): Holder {
    match event
    case RevokeIfLive(c) => if h == Winner(c) && c < |s.calls| && s.calls[c].progress.Found? then Row(s.calls[c].progress.session) else h
    case CreateSession(c) => if h == Row(|s.rows|) then Winner(c) else h
    case _ => h
  }

  /** A chain never gains a holder: it is handed on, or, at a login, it is a new chain. */
  lemma HandedOn(s: State, event: Event, h: Holder, root: nat)
    requires RowsDescend(s) && CallsSound(s) && Holds(Step(s, event), h, root)
    ensures if event.LogIn? && h == Row(|s.rows|) then root == |s.rows| else Holds(s, Before(s, event, h), root)
  {
    match h
    case Row(i) =>
    case Winner(c) => assert CallSound(s, s.calls[c]);
  }

  lemma StepOneHolder(s: State, event: Event)
    requires Inv(s)
    ensures OneHolder(Step(s, event))
  {
    hide WonOnce;
    var t := Step(s, event);
    forall h, g, root | Holds(t, h, root) && Holds(t, g, root) ensures h == g {
      HandedOn(s, event, h, root);
      HandedOn(s, event, g, root);
      DifferentBefore(s, event, h, g, root);
    }
  }

  lemma DifferentBefore(s: State, event: Event, h: Holder, g: Holder, root: nat)
    requires Inv(s) && Holds(Step(s, event), h, root) && Holds(Step(s, event), g, root)
    requires if event.LogIn? && h == Row(|s.rows|) then root == |s.rows| else Holds(s, Before(s, event, h), root)
    requires if event.LogIn? && g == Row(|s.rows|) then root == |s.rows| else Holds(s, Before(s, event, g), root)
    ensures h == g
  {
    hide WonOnce;
    OldRoots(s, Before(s, event, h), root);
    OldRoots(s, Before(s, event, g), root);
  }

  lemma OldRoots(s: State, h: Holder, root: nat)
    requires RowsDescend(s)
    ensures Holds(s, h, root) ==> root < |s.rows|
  {
    match h
    case Row(i) => if Holds(s, h, root) { assert Descends(s, i); }
    case Winner(c) => if Holds(s, h, root) { assert Descends(s, s.calls[c].progress.session); }
  }

  lemma StepKeeps(s: State, event: Event)
    requires Inv(s)
    ensures Inv(Step(s, event))
  {
    StepDescends(s, event);
    StepCallsSound(s, event);
    StepWonOnce(s, event);
    StepOneHolder(s, event);
  }

  lemma {:induction false} RunKeeps(s: State, events: seq<Event>)
    requires Inv(s)
    ensures Inv(Run(s, events))
  {
    hide Inv;
    if events != [] {
      RunKeeps(s, events[..|events| - 1]);
      StepKeeps(Run(s, events[..|events| - 1]), events[|events| - 1]);
    }
  }

  lemma ReachableInv(s: State)
    requires Reachable(s)
    ensures Inv(s)
  {
    var events :| Run(EMPTY, events) == s;
    RunKeeps(EMPTY, events);
  }

  // ------------------------------------------------------------- main results

  function LiveRows(s: State, root: nat): set<nat> {
    set i: nat | i < |s.rows| && Holds(s, Row(i), root)
  }

  function Winners(s: State, root: nat): set<nat> {
    set c: nat | c < |s.calls| && Holds(s, Winner(c), root)
  }

  lemma NeverBoth(s: State, i: nat, c: nat, root: nat)
    requires OneHolder(s)
    ensures !(Holds(s, Row(i), root) && Holds(s, Winner(c), root))
  {
    assert Row(i) != Winner(c);
  }

  /**
   Rotation is linear: in every reachable state, the sessions of one login that are not revoked,
   counted together with the calls that have revoked one and not yet replaced it, are at most one.
   */
  lemma AtMostOneLive(s: State, root: nat)
    requires Reachable(s)
    ensures |LiveRows(s, root)| + |Winners(s, root)| <= 1
  {
    ReachableInv(s);
    var rows, winners := LiveRows(s, root), Winners(s, root);
    if i :| i in rows {
      assert forall j :: j in rows ==> Holds(s, Row(j), root) && Row(j) == Row(i);
      assert rows == {i};
      forall c: nat ensures c !in winners { NeverBoth(s, i, c, root); }
    } else if c :| c in winners {
      assert forall d :: d in winners ==> Holds(s, Winner(d), root) && Winner(d) == Winner(c);
      assert winners == {c};
      assert rows == {};
    } else {
      assert rows == {} && winners == {};
    }
  }

  /** Two refreshes that present the same token never both succeed, however their steps interleave. */
  lemma SameTokenWinsOnce(s: State, c: nat, d: nat)
    requires Reachable(s) && c < d < |s.calls| && s.calls[c].token == s.calls[d].token
    ensures !(Advanced(s.calls[c].progress) && Advanced(s.calls[d].progress))
  {
    ReachableInv(s);
    assert CallSound(s, s.calls[c]) && CallSound(s, s.calls[d]);
  }

  /** So a chain is a line: no session has two successors. */
  lemma OneSuccessor(s: State, i: nat, j: nat)
    requires Reachable(s) && i < |s.rows| == |s.origins| && j < |s.rows|
    requires s.origins[i].Rotated? && s.origins[j].Rotated? && s.origins[i].parent == s.origins[j].parent
    ensures i == j
  {
    ReachableInv(s);
    assert Descends(s, i) && Descends(s, j);
    var c, d := s.origins[i].maker, s.origins[j].maker;
    assert c == d;
  }

  // --------------------------------------------------------- a chain that ended

  ghost predicate Ended(s: State, root: nat) {
    root < |s.rows| && forall h :: !Holds(s, h, root)
  }

  lemma EndedStaysEnded(s: State, event: Event, root: nat)
    requires Inv(s) && Ended(s, root)
    ensures Ended(Step(s, event), root)
  {
    hide Holds;
    hide OneHolder;
    hide WonOnce;
    forall h ensures !Holds(Step(s, event), h, root) {
      if Holds(Step(s, event), h, root) {
        HandedOn(s, event, h, root);
      }
    }
  }

  /** A login whose chain has ended never has a live session again. */
  lemma {:induction false} EndedForever(s: State, events: seq<Event>, root: nat)
    requires Reachable(s) && Ended(s, root)
    ensures Ended(Run(s, events), root)
    decreases |events|
  {
    hide Ended;
    hide Inv;
    ReachableInv(s);
    if events != [] {
      EndedForever(s, events[..|events| - 1], root);
      RunKeeps(s, events[..|events| - 1]);
      EndedStaysEnded(Run(s, events[..|events| - 1]), events[|events| - 1], root);
    }
  }

  lemma {:induction false} RunConcat(s: State, first: seq<Event>, second: seq<Event>)
    ensures Run(s, first + second) == Run(Run(s, first), second)
  {
    hide Step;
    if second == [] {
      assert first + second == first;
    } else {
      var n := |second| - 1;
      assert (first + second)[..|first + second| - 1] == first + second[..n];
      RunConcat(s, first, second[..n]);
    }
  }

  lemma SingleStep(s: State, event: Event)
    ensures Run(s, [event]) == Step(s, event)
    ensures Reachable(s) ==> Reachable(Step(s, event))
  {
    hide Step;
    assert [event][..0] == [];
    assert Run(s, []) == s;
    if Reachable(s) {
      var events :| Run(EMPTY, events) == s;
      RunConcat(EMPTY, events, [event]);
    }
  }

  /**
   Logging a user out everywhere leaves no live session; but a chain comes back to life, in some
   continuation, exactly when a refresh of it had already won and had still to create its successor.
   */
  lemma LoggedOutRevivesIff(s: State, user: nat, root: nat)
    requires Reachable(s) && root < |s.rows| && s.rows[root].user == user
    ensures var t := Step(s, LogOutAll(user));
      LiveRows(t, root) == {}
      && ((exists events :: LiveRows(Run(t, events), root) != {}) <==> Winners(s, root) != {})
  {
    ReachableInv(s);
    var t := Step(s, LogOutAll(user));
    NoneLiveAfterLogout(s, user, root);
    SingleStep(s, LogOutAll(user));
    if c :| c in Winners(s, root) {
      ReachableInv(t);
      SingleStep(t, CreateSession(c));
      WinnerCreates(t, c, root);
      assert LiveRows(Run(t, [CreateSession(c)]), root) != {};
    } else {
      forall h ensures !Holds(t, h, root) {
        match h
        case Row(i) => assert Holds(t, h, root) ==> i in LiveRows(t, root);
        case Winner(c) => assert Holds(t, h, root) ==> c in Winners(s, root);
      }
      forall events ensures LiveRows(Run(t, events), root) == {} {
        EndedForever(t, events, root);
      }
    }
  }

  lemma NoneLiveAfterLogout(s: State, user: nat, root: nat)
    requires Inv(s) && root < |s.rows| && s.rows[root].user == user
    ensures LiveRows(Step(s, LogOutAll(user)), root) == {}
  {
    var t := Step(s, LogOutAll(user));
    forall i: nat | i < |t.rows| ensures !Holds(t, Row(i), root) {
      assert Descends(s, i);
    }
  }

  /** Every session of the user is dead after the logout, and no other has changed. */
  lemma LogoutIsExact(s: State, user: nat, t: State)
    requires Reachable(s) && |t.rows| == |s.rows| && t == s.(rows := t.rows)
    requires forall i :: 0 <= i < |s.rows| ==>
      t.rows[i] == if s.rows[i].user == user then s.rows[i].(revokedAt := Some(s.clock)) else s.rows[i]
    ensures t == Step(s, LogOutAll(user)) && Reachable(t)
    ensures forall root :: 0 <= root < |s.rows| && s.rows[root].user == user ==> LiveRows(t, root) == {}
  {
    assert t.rows == RevokedAll(s.rows, user, s.clock);
    SingleStep(s, LogOutAll(user));
    ReachableInv(s);
    forall root | 0 <= root < |s.rows| && s.rows[root].user == user ensures LiveRows(t, root) == {} {
      NoneLiveAfterLogout(s, user, root);
    }
  }

  lemma WinnerCreates(s: State, c: nat, root: nat)
    requires Inv(s) && Holds(s, Winner(c), root)
    ensures |s.rows| in LiveRows(Step(s, CreateSession(c)), root)
  {
    assert CallSound(s, s.calls[c]);
  }

  /** Revoking by token ends the chain exactly when the token is the one now in use: an older one revokes nothing that lives. */
  lemma RevokingEndsIff(s: State, token: nat, fingerprint: string)
    requires Reachable(s) && token < |s.rows| == |s.origins|
    ensures var root := s.origins[token].root;
      Ended(Step(s, RevokeSession(token, fingerprint)), root)
      <==> Ended(s, root) || (s.rows[token].fingerprint == fingerprint && s.rows[token].revokedAt.None?)
  {
    ReachableInv(s);
    var root := s.origins[token].root;
    var t := Step(s, RevokeSession(token, fingerprint));
    assert Descends(s, token);
    if s.rows[token].fingerprint == fingerprint && s.rows[token].revokedAt.None? {
      assert Holds(s, Row(token), root);
      forall h ensures !Holds(t, h, root) {
        if Holds(t, h, root) { HandedOn(s, RevokeSession(token, fingerprint), h, root); }
      }
    } else if Ended(s, root) {
      EndedStaysEnded(s, RevokeSession(token, fingerprint), root);
    } else {
      var h :| Holds(s, h, root);
      assert Holds(t, h, root);
    }
  }

  /** The call does not take its last step in this run. */
  predicate NeverCreates(events: seq<Event>, c: nat) {
    forall k :: 0 <= k < |events| ==> events[k] != CreateSession(c)
  }

  lemma {:induction false} WinnerWaits(s: State, events: seq<Event>, c: nat, root: nat)
    requires Reachable(s) && Holds(s, Winner(c), root) && NeverCreates(events, c)
    ensures Holds(Run(s, events), Winner(c), root) && Inv(Run(s, events))
    decreases |events|
  {
    ReachableInv(s);
    if events != [] {
      var front := events[..|events| - 1];
      assert NeverCreates(front, c) by { assert forall k :: 0 <= k < |front| ==> front[k] == events[k]; }
      WinnerWaits(s, front, c, root);
      StepKeeps(Run(s, front), events[|events| - 1]);
      assert CallSound(Run(s, front), Run(s, front).calls[c]);
    }
  }

  /** Rotation is not a transaction: a call that dies between revoking and creating ends the login for good. */
  lemma CrashedWinnerEndsTheLogin(s: State, events: seq<Event>, c: nat, root: nat)
    requires Reachable(s) && Holds(s, Winner(c), root) && NeverCreates(events, c)
    ensures LiveRows(Run(s, events), root) == {}
  {
    WinnerWaits(s, events, c, root);
    assert forall i: nat :: Holds(Run(s, events), Row(i), root) ==> Row(i) == Winner(c);
  }

  // ------------------------------------------------------- a refresh on its own

  /** The four steps of one refresh, with no other call in between. */
  function RefreshAlone(s: State, token: nat, fingerprint: string): State {
    var c := |s.calls|;
    Step(Step(Step(Step(s, Arrive(token, fingerprint)), LookUp(c)), RevokeIfLive(c)), CreateSession(c))
  }

  /** The token is of a session that is neither revoked nor expired, shown with the fingerprint it was given for, and its user is active. */
  predicate Admits(s: State, token: nat, fingerprint: string) {
    && token < |s.rows|
    && s.rows[token].revokedAt == None && s.clock < s.rows[token].expiresAt
    && s.rows[token].fingerprint == fingerprint && s.rows[token].user !in s.suspended
  }

  /**
   Undisturbed, a refresh succeeds exactly for such a token. The old session is revoked now, and one new
   session of the same user is added, for the same fingerprint and thirty days; nothing else changes.
   */
  lemma AloneSucceedsIff(s: State, token: nat, fingerprint: string)
    requires Reachable(s)
    ensures var t := RefreshAlone(s, token, fingerprint);
      if Admits(s, token, fingerprint) then
        && t.calls == s.calls + [Refresh(token, fingerprint, Done(token, |s.rows|))]
        && |t.rows| == |s.rows| + 1
        && t.rows[token] == s.rows[token].(revokedAt := Some(s.clock))
        && t.rows[|s.rows|] == Session(s.rows[token].user, fingerprint, s.clock + 30 * DAY_MS, None)
        && (forall i :: 0 <= i < |s.rows| && i != token ==> t.rows[i] == s.rows[i])
        && t.origins == s.origins + [Rotated(s.origins[token].root, token, |s.calls|)]
        && t.suspended == s.suspended && t.clock == s.clock
      else t == s.(calls := s.calls + [Refresh(token, fingerprint, Rejected)])
  {
    ReachableInv(s);
    var c := |s.calls|;
    var arrived := Step(s, Arrive(token, fingerprint));
    var looked := Step(arrived, LookUp(c));
    assert forall p :: At(arrived, c, p) == s.calls + [Refresh(token, fingerprint, p)];
    assert looked.calls == s.calls + [Refresh(token, fingerprint, if Admits(s, token, fingerprint) then Found(token) else Rejected)];
    assert forall p :: At(looked, c, p) == s.calls + [Refresh(token, fingerprint, p)];
    if Admits(s, token, fingerprint) {
      var won := Step(looked, RevokeIfLive(c));
      assert won.calls == s.calls + [Refresh(token, fingerprint, Won(token))];
      assert forall p :: At(won, c, p) == s.calls + [Refresh(token, fingerprint, p)];
    }
  }

  /** A login gives a token that works, for the same fingerprint, for thirty days and no longer, whatever the account was before. */
  lemma LoginLastsThirtyDays(s: State, user: nat, fingerprint: string, shown: string, ms: nat)
    requires Reachable(s)
    ensures var t := Step(Step(s, LogIn(user, fingerprint)), Wait(ms));
      Admits(t, |s.rows|, shown) <==> shown == fingerprint && ms < 30 * DAY_MS
  {
  }

  /** A suspended user's sessions are refused until the next login, and are not changed by trying. */
  lemma SuspendedIsRefused(s: State, user: nat, token: nat, fingerprint: string)
    requires Reachable(s) && token < |s.rows| && s.rows[token].user == user
    ensures var t := Step(s, Suspend(user));
      !Admits(t, token, fingerprint) && RefreshAlone(t, token, fingerprint).rows == s.rows
  {
    SingleStep(s, Suspend(user));
    AloneSucceedsIff(Step(s, Suspend(user)), token, fingerprint);
    hide RefreshAlone;
  }

  lemma RefreshReachable(s: State, token: nat, fingerprint: string)
    requires Reachable(s)
    ensures Reachable(RefreshAlone(s, token, fingerprint))
  {
    hide Step;
    hide Reachable;
    var c := |s.calls|;
    var arrived := Step(s, Arrive(token, fingerprint));
    var looked := Step(arrived, LookUp(c));
    var won := Step(looked, RevokeIfLive(c));
    SingleStep(s, Arrive(token, fingerprint));
    SingleStep(arrived, LookUp(c));
    SingleStep(looked, RevokeIfLive(c));
    SingleStep(won, CreateSession(c));
  }

  /** A login starts a chain of its own. */
  lemma LoginIsFresh(s: State, user: nat, fingerprint: string)
    requires Reachable(s)
    ensures var t := Step(s, LogIn(user, fingerprint));
      Reachable(t) && LiveRows(t, |s.rows|) == {|s.rows|}
  {
    ReachableInv(s);
    SingleStep(s, LogIn(user, fingerprint));
    var t := Step(s, LogIn(user, fingerprint));
    forall i: nat | i < |s.rows| ensures !Holds(t, Row(i), |s.rows|) { assert Descends(s, i); }
    assert Holds(t, Row(|s.rows|), |s.rows|);
  }

  lemma OriginKnown(s: State, token: nat)
    requires Reachable(s) && token < |s.rows|
    ensures token < |s.origins|
  {
    ReachableInv(s);
  }

  /** The new token can be used at once; the one traded in is refused and touches no session. */
  lemma TradedToken(s: State, token: nat, fingerprint: string)
    requires Reachable(s) && Admits(s, token, fingerprint)
    ensures var t := RefreshAlone(s, token, fingerprint);
      Admits(t, |s.rows|, fingerprint) && RefreshAlone(t, token, fingerprint).rows == t.rows
  {
    AloneSucceedsIff(s, token, fingerprint);
    RefreshReachable(s, token, fingerprint);
    AloneSucceedsIff(RefreshAlone(s, token, fingerprint), token, fingerprint);
  }
}
