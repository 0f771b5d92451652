/**
 The turn is offered, not only guarded: on every run of a sequential request, once somebody has signed,
 whoever is next has been invited and mailed.
 */
module TurnOffered {
  import opened Prelude
  import opened SigningModel
  import opened SigningRuns
  import opened CallEffects
  import Workflow
  import AuditTrail
  import RaceRefinement

  // -------------------------------------------------------------- invariant

  /** There is a real signer before row `j`. */
  ghost predicate HasPrior(r: Request, j: nat)
    requires j < |r.signers|
  {
    exists k :: 0 <= k < j && Real(r, k)
  }

  /** A real signer that has others before it is not pending once they have all signed, and was mailed when it left pending. */
  ghost predicate Offered(r: Request, j: nat)
    requires j < |r.signers|
  {
    Real(r, j) && HasPrior(r, j) ==>
      && (EarlierSigned(r, j) ==> r.signers[j].status != Pending)
      && (r.signers[j].status != Pending ==> InviteJob(j) in r.jobs)
  }

  ghost predicate TurnInv(r: Request) {
    r.mode == Sequential ==> forall j :: 0 <= j < |r.signers| ==> Offered(r, j)
  }

  /** Roles and mode stay, queued jobs stay, nobody goes back to pending, and nobody signs. */
  ghost predicate Quiet(r: Request, s: Request) {
    && s.mode == r.mode && |s.signers| == |r.signers|
    && (forall job :: job in r.jobs ==> job in s.jobs)
    && forall k :: 0 <= k < |r.signers| ==>
      && s.signers[k].role == r.signers[k].role
      && (s.signers[k].status == Signed ==> r.signers[k].status == Signed)
      && (r.signers[k].status != Pending ==> s.signers[k].status != Pending)
      && (r.signers[k].status == Pending && s.signers[k].status != Pending && r.mode == Sequential ==> EarlierSigned(r, k))
  }

  lemma QuietKeeps(r: Request, s: Request)
    requires TurnInv(r) && Quiet(r, s)
    ensures TurnInv(s)
  {
    if s.mode == Sequential {
      forall j | 0 <= j < |s.signers| ensures Offered(s, j) {
        assert Offered(r, j);
        assert forall k :: 0 <= k < |r.signers| ==> Real(s, k) == Real(r, k);
        assert EarlierSigned(s, j) ==> EarlierSigned(r, j);
      }
    }
  }

  // ------------------------------------------------------------- each step

  lemma SignKeepsTurn(r: Request, i: nat, input: SignInput, now: Time)
    requires Workflow.WorkflowInv(r) && AuditTrail.AuditInv(r) && TurnInv(r)
    ensures TurnInv(Sign(r, i, input, now).next)
  {
    SignsIff(r, i, input, now);
    SignResults(r, i, input, now);
    var s := Sign(r, i, input, now).next;
    if MaySign(r, i, input, now) {
      Signing(r, i, input, now);
      hide Sign;
      hide SignAccepted;
      if s.mode == Sequential {
        forall j | 0 <= j < |s.signers| ensures Offered(s, j) { SignedOffers(r, i, input, now, s, j); }
      }
    } else {
      hide Sign;
      QuietKeeps(r, s);
    }
  }

  lemma SignedOffers(r: Request, i: nat, input: SignInput, now: Time, s: Request, j: nat)
    requires TurnInv(r) && r.mode == Sequential && MaySign(r, i, input, now)
    requires Collected(r, i, input, now, s) && HandedOn(r, i, now, s) && j < |s.signers|
    ensures Offered(s, j)
  {
    hide FieldTaken;
    hide FieldsInOrder;
    assert Offered(r, j);
    assert forall k :: 0 <= k < |r.signers| ==> Real(s, k) == Real(r, k) by { RolesStay(r, i, input, now, s); }
    assert HasPrior(s, j) == HasPrior(r, j);
    if Real(r, j) && r.signers[j].status == Pending && HasPrior(r, j) {
      if !NextInLine(r, j) {
        assert s.signers[j] == r.signers[j];
        var n := FirstInLine(r, j);
        assert s.signers[n].status == Invited;
      }
    }
  }

  lemma RolesStay(r: Request, i: nat, input: SignInput, now: Time, s: Request)
    requires Collected(r, i, input, now, s) && HandedOn(r, i, now, s)
    ensures forall k :: 0 <= k < |r.signers| ==> s.signers[k].role == r.signers[k].role
  {
    forall k | 0 <= k < |r.signers| ensures s.signers[k].role == r.signers[k].role {
      if k != i && r.mode == Sequential && NextInLine(r, k) {}
    }
  }

  /** Before a pending real signer that is not next in line there is one that is. */
  lemma {:induction false} FirstInLine(r: Request, j: nat) returns (n: nat)
    requires j < |r.signers| && Real(r, j) && r.signers[j].status == Pending
    ensures n <= j && NextInLine(r, n)
    decreases j
  {
    if k: nat :| k < j && Real(r, k) && r.signers[k].status == Pending {
      n := FirstInLine(r, k);
    } else {
      n := j;
    }
  }

  lemma LinkCallsQuiet(r: Request, t: nat, now: Time)
    requires Workflow.WorkflowInv(r)
    ensures Quiet(r, PublicSession(r, t, now).next) && Quiet(r, Decline(r, t, now).next)
  {
    Opening(r, t, now);
    Declining(r, t, now);
    hide PublicSession;
    hide Decline;
  }

  lemma OperatorCallsQuiet(r: Request, wanted: Option<nat>, now: Time)
    ensures Quiet(r, InPersonSession(r, wanted, now).next) && Quiet(r, Cancel(r, now).next)
  {
    hide CanAct;
    hide Waiting;
  }

  lemma {:induction false} DispatchQuiet(r: Request, targets: seq<nat>, automatic: bool, now: Time)
    requires forall k :: 0 <= k < |targets| ==> targets[k] < |r.signers|
    ensures Quiet(r, DispatchReminders(r, targets, automatic, now))
  {
    if targets != [] {
      DispatchQuiet(r, targets[..|targets| - 1], automatic, now);
    }
  }

  lemma SendQuiet(r: Request, rule: ReminderRule, automatic: bool, now: Time)
    ensures Quiet(r, SendReminders(r, rule, automatic, now))
  {
    TargetsInRange(r, rule, now, |r.signers|);
    DispatchQuiet(r, ReminderTargets(r, rule, now, |r.signers|), automatic, now);
  }

  lemma ServeKeepsTurn(cfg: Config, r: Request, call: Call, now: Time)
    requires Workflow.WorkflowInv(r) && AuditTrail.AuditInv(r) && TurnInv(r)
    ensures TurnInv(Serve(cfg, r, call, now).next)
  {
    hide PublicSession;
    hide Sign;
    hide Decline;
    hide Cancel;
    hide InPersonSession;
    hide SendReminders;
    hide TurnInv;
    match call
    case OpenCall(token) => LinkCallsQuiet(r, token, now); QuietKeeps(r, PublicSession(r, token, now).next);
    case SignCall(token, input) => SignKeepsTurn(r, token, input, now);
    case DeclineCall(token) => LinkCallsQuiet(r, token, now); QuietKeeps(r, Decline(r, token, now).next);
    case CancelCall => OperatorCallsQuiet(r, None, now); QuietKeeps(r, Cancel(r, now).next);
    case RemindCall(only) =>
      var rule := ReminderRule(DAY_MS, None, only);
      SendQuiet(r, rule, false, now); QuietKeeps(r, SendReminders(r, rule, false, now));
    case SweepCall => SendQuiet(r, SweepRule(cfg), true, now); QuietKeeps(r, SendReminders(r, SweepRule(cfg), true, now));
    case HandOverCall(wanted) => OperatorCallsQuiet(r, wanted, now); QuietKeeps(r, InPersonSession(r, wanted, now).next);
    case EditTemplate(_) =>
  }

  lemma {:induction false} RunKeepsTurn(cfg: Config, w: World, calls: seq<TimedCall>)
    requires Workflow.WorkflowInv(w.request) && AuditTrail.AuditInv(w.request) && TurnInv(w.request)
    ensures TurnInv(Run(cfg, w, calls).request)
    decreases |calls|
  {
    hide TurnInv;
    hide Serve;
    if calls != [] {
      var now := w.now + calls[0].wait;
      ServeKeepsTurn(cfg, w.request, calls[0].call, now);
      Workflow.ServeKeeps(cfg, w.request, calls[0].call, now);
      AuditTrail.ServeKeeps(cfg, w.request, calls[0].call, now);
      RunKeepsTurn(cfg, Step(cfg, w, calls[0]), calls[1..]);
    }
  }

  lemma CreatedTurn(birth: Birth)
    requires birth.Created().Success?
    ensures TurnInv(birth.Created().value)
  {
    Workflow.CreatedRows(birth);
    hide CreateRequest;
  }

  lemma ReachableTurn(cfg: Config, w: World)
    requires Reachable(cfg, w)
    ensures TurnInv(w.request)
  {
    var birth, calls :| ReachedBy(cfg, w, birth, calls);
    Workflow.CreatedKeeps(birth);
    AuditTrail.CreatedKeeps(birth);
    CreatedTurn(birth);
    hide CreateRequest;
    RunKeepsTurn(cfg, Start(birth), calls);
  }

  // ------------------------------------------------------------ main result

  /** The first real signer that has not signed. */
  ghost predicate FirstUnsigned(r: Request, j: nat) {
    && j < |r.signers| && Real(r, j) && r.signers[j].status != Signed
    && forall k :: 0 <= k < j && Real(r, k) ==> r.signers[k].status == Signed
  }

  /**
   On every run of a sequential request, once anybody has signed, the first real signer that has not is
   up, unless it declined; and an invitation to it has been queued.
   */
  lemma NextSignerIsInvited(cfg: Config, w: World, j: nat)
    requires Reachable(cfg, w) && w.request.mode == Sequential
    requires w.request.signatures != [] && FirstUnsigned(w.request, j)
    ensures w.request.signers[j].status == Declined || IsUp(w.request, j)
    ensures InviteJob(j) in w.request.jobs
  {
    hide Reachable;
    var r := w.request;
    Workflow.ReachableInv(cfg, w);
    ReachableTurn(cfg, w);
    var k := SomebodySigned(cfg, w);
    hide TurnInv;
    SignedComesFirst(r, k, j);
    OfferedTo(r, j);
    assert HasPrior(r, j);
    assert Workflow.RowOk(r, j);
  }

  lemma SomebodySigned(cfg: Config, w: World) returns (k: nat)
    requires Reachable(cfg, w) && w.request.signatures != []
    ensures k < |w.request.signers| && Real(w.request, k) && w.request.signers[k].status == Signed
  {
    hide Reachable;
    Workflow.ReachableInv(cfg, w);
    AuditTrail.ReachableInv(cfg, w);
    RaceRefinement.ReachableInRange(cfg, w);
    RaceRefinement.RowsOfTheSigned(w.request);
    hide AuditTrail.AuditInv;
    k := w.request.signatures[0];
    assert k in w.request.signatures;
    assert Workflow.RowOk(w.request, k);
  }

  lemma SignedComesFirst(r: Request, k: nat, j: nat)
    requires Workflow.WorkflowInv(r) && r.mode == Sequential && FirstUnsigned(r, j)
    requires k < |r.signers| && Real(r, k) && r.signers[k].status == Signed
    ensures k < j
  {
    assert r.Acting(j) && r.Acting(k);
  }

  lemma OfferedTo(r: Request, j: nat)
    requires TurnInv(r) && r.mode == Sequential && j < |r.signers|
    ensures Offered(r, j)
  {
    hide Offered;
  }
}
