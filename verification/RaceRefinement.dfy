/**
 The interleaved signing calls and the one-call-at-a-time workflow are the same protocol: a request
 that a run has reached is where a race starts from, and a call that races with nobody does to it
 what the workflow's signing step does.
 */
module RaceRefinement {
  import opened Prelude
  import opened SigningModel
  import opened SigningRuns
  import opened SigningRace
  import Workflow
  import AuditTrail
  import CallEffects
  import Progress

  function Roles(signers: seq<SignerRow>): (roles: seq<Role>)
    ensures |roles| == |signers| && forall k :: 0 <= k < |signers| ==> roles[k] == signers[k].role
  {
    seq(|signers|, k requires 0 <= k < |signers| => signers[k].role)
  }

  function Statuses(signers: seq<SignerRow>): (statuses: seq<SignerStatus>)
    ensures |statuses| == |signers| && forall k :: 0 <= k < |signers| ==> statuses[k] == signers[k].status
  {
    seq(|signers|, k requires 0 <= k < |signers| => signers[k].status)
  }

  /** The log entries that signing calls write. */
  function SigningLog(events: seq<Event>): seq<Entry> {
    if events == [] then []
    else
      var e := events[|events| - 1];
      var before := SigningLog(events[..|events| - 1]);
      if e.kind != SignedEvent then before
      else before + [if e.signer.Some? then SignedBy(e.signer.value) else RequestCompletedEntry]
  }

  /** The request as a race sees it before any call has begun. */
  function FromRequest(r: Request): Race {
    Race(Roles(r.signers), Statuses(r.signers), r.signatures, r.status, SigningLog(r.events), r.jobs, [])
  }

  // ------------------------------------------------------ where a race starts

  ghost predicate InRange(r: Request) {
    forall k :: 0 <= k < |r.signatures| ==> r.signatures[k] < |r.signers|
  }

  lemma {:induction false} DispatchSameSignatures(r: Request, targets: seq<nat>, automatic: bool, now: Time)
    requires forall k :: 0 <= k < |targets| ==> targets[k] < |r.signers|
    ensures DispatchReminders(r, targets, automatic, now).signatures == r.signatures
  {
    if targets != [] { DispatchSameSignatures(r, targets[..|targets| - 1], automatic, now); }
  }

  lemma SendSameSignatures(r: Request, rule: ReminderRule, automatic: bool, now: Time)
    ensures SendReminders(r, rule, automatic, now).signatures == r.signatures
  {
    TargetsInRange(r, rule, now, |r.signers|);
    DispatchSameSignatures(r, ReminderTargets(r, rule, now, |r.signers|), automatic, now);
  }

  lemma QuietCallsSameSignatures(r: Request, t: nat, wanted: Option<nat>, now: Time)
    ensures PublicSession(r, t, now).next.signatures == r.signatures && Decline(r, t, now).next.signatures == r.signatures
    ensures Cancel(r, now).next.signatures == r.signatures && InPersonSession(r, wanted, now).next.signatures == r.signatures
  {
    hide CanAct;
  }

  lemma SignAddsOne(r: Request, t: nat, input: SignInput, now: Time)
    ensures var s := Sign(r, t, input, now).next;
      s.signatures == r.signatures || (t < |r.signers| && s.signatures == r.signatures + [t])
  {
    SignResults(r, t, input, now);
    hide Sign;
    hide ResolveFieldValues;
    hide SignCheck;
  }

  lemma ServeKeepsRange(cfg: Config, r: Request, call: Call, now: Time)
    requires Workflow.WorkflowInv(r) && InRange(r)
    ensures InRange(Serve(cfg, r, call, now).next)
  {
    Workflow.ServeMoves(cfg, r, call, now);
    hide Workflow.WorkflowInv;
    hide PublicSession;
    hide Sign;
    hide Decline;
    hide Cancel;
    hide InPersonSession;
    hide SendReminders;
    match call
    case OpenCall(token) => QuietCallsSameSignatures(r, token, None, now);
    case SignCall(token, input) => SignAddsOne(r, token, input, now);
    case DeclineCall(token) => QuietCallsSameSignatures(r, token, None, now);
    case CancelCall => QuietCallsSameSignatures(r, 0, None, now);
    case RemindCall(only) => SendSameSignatures(r, ReminderRule(DAY_MS, None, only), false, now);
    case SweepCall => SendSameSignatures(r, SweepRule(cfg), true, now);
    case HandOverCall(wanted) => QuietCallsSameSignatures(r, 0, wanted, now);
    case EditTemplate(_) =>
  }

  lemma {:induction false} RunKeepsRange(cfg: Config, w: World, calls: seq<TimedCall>)
    requires Workflow.WorkflowInv(w.request) && InRange(w.request)
    ensures InRange(SigningRuns.Run(cfg, w, calls).request)
    decreases |calls|
  {
    hide Workflow.WorkflowInv;
    hide Serve;
    if calls != [] {
      var now := w.now + calls[0].wait;
      ServeKeepsRange(cfg, w.request, calls[0].call, now);
      Workflow.ServeKeeps(cfg, w.request, calls[0].call, now);
      RunKeepsRange(cfg, SigningRuns.Step(cfg, w, calls[0]), calls[1..]);
    }
  }

  lemma ReachableInRange(cfg: Config, w: World)
    requires Reachable(cfg, w)
    ensures InRange(w.request)
  {
    var birth, calls :| ReachedBy(cfg, w, birth, calls);
    Workflow.CreatedKeeps(birth);
    AuditTrail.CreatedFresh(birth);
    RunKeepsRange(cfg, Start(birth), calls);
  }

  lemma {:induction false} NoRepeats(rows: seq<nat>)
    requires forall i :: multiset(rows)[i] <= 1
    ensures forall a, b :: 0 <= a < b < |rows| ==> rows[a] != rows[b]
  {
    if rows != [] {
      var n := |rows| - 1;
      assert rows == rows[..n] + [rows[n]];
      forall i ensures multiset(rows[..n])[i] <= 1 { assert multiset(rows)[i] <= 1; }
      NoRepeats(rows[..n]);
      assert multiset(rows)[rows[n]] == multiset(rows[..n])[rows[n]] + 1;
    }
  }

  lemma RowsOfTheSigned(r: Request)
    requires Workflow.WorkflowInv(r) && AuditTrail.AuditInv(r) && InRange(r)
    ensures forall i: nat :: i in r.signatures <==> i < |r.signers| && r.signers[i].status == Signed
    ensures forall a, b :: 0 <= a < b < |r.signatures| ==> r.signatures[a] != r.signatures[b]
  {
    hide Workflow.WorkflowInv;
    forall i: nat
      ensures i in r.signatures <==> i < |r.signers| && r.signers[i].status == Signed
      ensures multiset(r.signatures)[i] <= 1
    {
      if i < |r.signers| { assert AuditTrail.SignerAudited(r, i); }
      assert i in r.signatures <==> multiset(r.signatures)[i] > 0;
    }
    NoRepeats(r.signatures);
  }

  /** The race's log records a completion as often as the trail does. */
  lemma {:induction false} CompletionsInLog(events: seq<Event>)
    ensures CountCompleted(SigningLog(events)) == AuditTrail.Count(events, SignedEvent, None)
  {
    if events != [] {
      var e := events[|events| - 1];
      var before := SigningLog(events[..|events| - 1]);
      CompletionsInLog(events[..|events| - 1]);
      if e.kind == SignedEvent {
        var entry := if e.signer.Some? then SignedBy(e.signer.value) else RequestCompletedEntry;
        assert (before + [entry])[..|before|] == before;
      }
    }
  }

  /** Every reachable parallel request that is active and has a real signer is a state a race can start from. */
  lemma ReachableIsAtRest(cfg: Config, w: World)
    requires Reachable(cfg, w) && w.request.mode == Parallel && w.request.Active()
    requires Workflow.HasRealSigner(w.request)
    ensures AtRest(FromRequest(w.request)) && CountCompleted(FromRequest(w.request).log) == 0
  {
    hide Reachable;
    var r, s := w.request, FromRequest(w.request);
    Workflow.ReachableInv(cfg, w);
    AuditTrail.ReachableInv(cfg, w);
    ReachableInRange(cfg, w);
    RowsOfTheSigned(r);
    CompletionsInLog(r.events);
    assert multiset(r.jobs)[CompletionMail] == 0;
    assert !AllRealSigned(s) by {
      var i :| 0 <= i < |r.signers| && r.Acting(i) && r.signers[i].status != Signed;
      assert Real(s, i);
    }
    forall a | 0 <= a < |s.rows| ensures Real(s, s.rows[a]) && s.statuses[s.rows[a]] == Signed {
      assert s.rows[a] in r.signatures;
      assert Workflow.RowOk(r, s.rows[a]);
    }
  }

  /** A call of the race passes its first check exactly when some signing call of that signer would be accepted. */
  lemma AdmittedAlike(cfg: Config, w: World, i: nat, now: Time)
    requires Reachable(cfg, w) && w.request.mode == Parallel && i < |w.request.signers|
    requires !CallEffects.Overdue(w.request, now)
    ensures PassesCheck(FromRequest(w.request), i)
      <==> exists input :: Sign(w.request, i, input, now).reply.Success?
  {
    var r := w.request;
    Workflow.ReachableInv(cfg, w);
    AuditTrail.ReachableInv(cfg, w);
    hide Reachable;
    assert PassesCheck(FromRequest(r), i) <==> CallEffects.Running(r) && CallEffects.Real(r, i) && CallEffects.IsUp(r, i);
    forall input | Sign(r, i, input, now).reply.Success? ensures CallEffects.MaySign(r, i, input, now) {
      CallEffects.SignsIff(r, i, input, now);
    }
    var input := Progress.RequiredValues(r, i);
    Progress.RequiredValuesResolve(r, i);
    CallEffects.FieldsInWords(r, i, input.values);
    CallEffects.SignsIff(r, i, input, now);
    hide Sign;
    hide CallEffects.FieldsInOrder;
    hide PassesCheck;
  }

  // ------------------------------------------------------- a call on its own

  function Alone(i: nat): seq<Move> {
    [Begin(i), Continue(0), Continue(0), Continue(0), Continue(0), Continue(0), Continue(0), Continue(0)]
  }

  /** The race after signer `i` has signed, the one call that did it standing at `stage`. */
  function SignedOnce(s: Race, i: nat, stage: Stage): Race
    requires i < |s.statuses|
  {
    s.(rows := s.rows + [i], statuses := s.statuses[i := Signed], log := s.log + [SignedBy(i)],
       calls := [SigningCall(i, stage, false)])
  }

  function ClosedOnce(t: Race): Race {
    t.(status := Completed, log := t.log + [RequestCompletedEntry], jobs := EnqueueCompletionMail(t.jobs))
  }

  lemma UntilLogged(s: Race, i: nat)
    requires Shaped(s) && s.calls == [] && i < |s.statuses| && PassesCheck(s, i) && i !in s.rows
    ensures Shaped(SignedOnce(s, i, Logged))
    ensures SigningRace.Run(s, Alone(i)) == SigningRace.Run(SignedOnce(s, i, Logged), Alone(i)[4..])
  {
    hide SigningRace.Run;
    var s1 := s.(calls := [SigningCall(i, Checked, false)]);
    var s2 := s1.(rows := s.rows + [i], calls := [SigningCall(i, Inserted, false)]);
    var s3 := s2.(statuses := s.statuses[i := Signed], calls := [SigningCall(i, Marked, false)]);
    assert Alone(i)[0..] == Alone(i);
    RunNext(s, Alone(i), 0);
    assert SigningRace.Step(s, Begin(i)) == s1;
    OwnMove(s1, i, 1, Checked, s2);
    OwnMove(s2, i, 2, Inserted, s3);
    OwnMove(s3, i, 3, Marked, SignedOnce(s, i, Logged));
  }

  /** A call that has finished makes no more moves. */
  lemma IdleMoves(t: Race, i: nat, n: nat)
    requires Shaped(t) && t.calls == [SigningCall(i, Finished, false)] && 5 <= n <= 8
    ensures SigningRace.Run(t, Alone(i)[n..]) == t
    decreases 8 - n
  {
    hide SigningRace.Run;
    if n == 8 {
      EndOfRun(t, Alone(i)[n..]);
    } else {
      OwnMove(t, i, n, Finished, t);
      IdleMoves(t, i, n + 1);
    }
  }

  lemma OwnMove(t: Race, i: nat, n: nat, stage: Stage, u: Race)
    requires Shaped(t) && t.calls == [SigningCall(i, stage, false)] && 1 <= n < 8 && u == Advance(t, 0)
    ensures Shaped(u) && SigningRace.Run(t, Alone(i)[n..]) == SigningRace.Run(u, Alone(i)[n + 1..])
  {
    hide SigningRace.Run;
    RunNext(t, Alone(i), n);
    assert SigningRace.Step(t, Continue(0)) == u;
  }

  lemma GotoOne(t: Race, i: nat, before: Stage, after: Stage)
    requires t.calls == [SigningCall(i, before, false)]
    ensures Goto(t, 0, after) == t.(calls := [SigningCall(i, after, false)])
  {
  }

  lemma ClosingMoves(t: Race, i: nat)
    requires Shaped(t) && t.calls == [SigningCall(i, SawAllSigned, false)]
    ensures SigningRace.Run(t, Alone(i)[5..]) == ClosedOnce(t).(calls := [SigningCall(i, Finished, false)])
  {
    hide SigningRace.Run;
    hide AllRealSigned;
    hide EnqueueCompletionMail;
    var t2 := t.(status := Completed, calls := [SigningCall(i, Closed, false)]);
    GotoOne(t.(status := Completed), i, SawAllSigned, Closed);
    GotoOne(t2.(log := t.log + [RequestCompletedEntry]), i, Closed, CompletionLogged);
    hide Goto;
    OwnMove(t, i, 5, SawAllSigned, t2);
    var t3 := t2.(log := t.log + [RequestCompletedEntry], calls := [SigningCall(i, CompletionLogged, false)]);
    OwnMove(t2, i, 6, Closed, t3);
    var t4 := ClosedOnce(t).(calls := [SigningCall(i, Finished, false)]);
    GotoOne(t3.(jobs := EnqueueCompletionMail(t.jobs)), i, CompletionLogged, Finished);
    OwnMove(t3, i, 7, CompletionLogged, t4);
    EndOfRun(t4, Alone(i)[8..]);
  }

  lemma AfterLogged(t: Race, i: nat)
    requires Shaped(t) && t.calls == [SigningCall(i, Logged, false)]
    ensures SigningRace.Run(t, Alone(i)[4..])
      == (if AllRealSigned(t) then ClosedOnce(t) else t).(calls := [SigningCall(i, Finished, false)])
  {
    hide SigningRace.Run;
    hide AllRealSigned;
    var t1 := t.(calls := [SigningCall(i, if AllRealSigned(t) then SawAllSigned else Finished, false)]);
    OwnMove(t, i, 4, Logged, t1);
    if AllRealSigned(t) { ClosingMoves(t1, i); } else { IdleMoves(t1, i, 5); }
  }

  lemma EndOfRun(s: Race, moves: seq<Move>)
    requires Shaped(s) && moves == []
    ensures SigningRace.Run(s, moves) == s
  {
  }

  lemma LogPush(events: seq<Event>, e: Event)
    requires e.kind == SignedEvent
    ensures SigningLog(events + [e]) == SigningLog(events) + [if e.signer.Some? then SignedBy(e.signer.value) else RequestCompletedEntry]
  {
    assert (events + [e])[..|events|] == events;
  }

  /** The rows an accepted call writes, as the race sees them. */
  lemma CollectedRace(r: Request, i: nat, values: map<nat, Value>, certificate: CertificateUse, now: Time)
    requires i < |r.signers|
    ensures FromRequest(Collect(r, i, values, certificate, now)) == SignedOnce(FromRequest(r), i, Logged).(calls := [])
  {
    var c := Collect(r, i, values, certificate, now);
    LogPush(r.events, c.events[|r.events|]);
    assert Roles(c.signers) == Roles(r.signers);
    assert Statuses(c.signers) == Statuses(r.signers)[i := Signed];
  }

  lemma AdvancedRace(c: Request, now: Time)
    requires c.mode == Parallel
    ensures FromRequest(AdvanceWorkflow(c, now))
      == if AllRealSigned(FromRequest(c)) then ClosedOnce(FromRequest(c)) else FromRequest(c)
  {
    assert AllRealSigned(FromRequest(c)) <==> AllSigned(c) by {
      assert forall k :: 0 <= k < |c.signers| ==> Real(FromRequest(c), k) == c.Acting(k);
    }
    LogPush(c.events, Event(SignedEvent, None, now, PLAIN.(completed := true)));
  }

  lemma AcceptedFacts(r: Request, i: nat, input: SignInput, now: Time)
    requires SignAccepted(r, i, input, now)
    ensures i < |r.signers| && r.Active() && r.Acting(i) && r.Open(i) && i !in r.signatures
  {
    hide ResolveFieldValues;
    hide CanAct;
  }

  lemma AcceptedRace(r: Request, i: nat, input: SignInput, now: Time)
    requires r.mode == Parallel && SignAccepted(r, i, input, now)
    ensures i < |r.signers| && PassesCheck(FromRequest(r), i) && i !in r.signatures
    ensures var t := SignedOnce(FromRequest(r), i, Logged).(calls := []);
      FromRequest(Sign(r, i, input, now).next) == if AllRealSigned(t) then ClosedOnce(t) else t
  {
    hide Sign;
    hide SignAccepted;
    hide ResolveFieldValues;
    hide AllRealSigned;
    hide AdvanceWorkflow;
    hide ClosedOnce;
    hide Collect;
    SignResults(r, i, input, now);
    AcceptedFacts(r, i, input, now);
    ValuesResolved(r, i, input, now);
    var values := ResolveFieldValues(r, i, input.values).value;
    CollectedRace(r, i, values, input.certificate, now);
    CollectedMode(r, i, values, input.certificate, now);
    AdvancedRace(Collect(r, i, values, input.certificate, now), now);
  }

  lemma ValuesResolved(r: Request, i: nat, input: SignInput, now: Time)
    requires SignAccepted(r, i, input, now)
    ensures ResolveFieldValues(r, i, input.values).Success?
  {
    hide ResolveFieldValues;
    hide CanAct;
  }

  lemma CollectedMode(r: Request, i: nat, values: map<nat, Value>, certificate: CertificateUse, now: Time)
    requires i < |r.signers|
    ensures Collect(r, i, values, certificate, now).mode == r.mode
  {
  }

  /** With nobody to race, the steps of one accepted call add up to the workflow's signing step. */
  lemma AloneIsSign(r: Request, i: nat, input: SignInput, now: Time)
    requires r.mode == Parallel && SignAccepted(r, i, input, now)
    ensures SigningRace.Run(FromRequest(r), Alone(i)).(calls := []) == FromRequest(Sign(r, i, input, now).next)
  {
    hide Sign;
    hide SignAccepted;
    hide PassesCheck;
    AcceptedRace(r, i, input, now);
    UntilLogged(FromRequest(r), i);
    AfterLogged(SignedOnce(FromRequest(r), i, Logged), i);
  }
}
