/** The log is enough: replaying it gives the request's status, on every run. */
module StatusReplay {
  import opened Prelude
  import opened SigningModel
  import opened SigningRuns
  import opened CallEffects
  import Workflow
  import AuditTrail

  /** What the log says the status is: the last entry that decides it. */
  function Replay(mode: Mode, events: seq<Event>): RequestStatus {
    if events == [] then AwaitingSignature
    else
      var e := events[|events| - 1];
      var before := Replay(mode, events[..|events| - 1]);
      match e.kind
      case ExpiredEvent => Expired
      case CancelledEvent => Cancelled
      case SignedEvent => if e.signer == None then Completed else before
      case DeclinedEvent => if mode == Sequential then InProgress else before
      case _ => before
  }

  ghost predicate Replayed(r: Request) {
    r.status == Replay(r.mode, r.events)
  }

  /** What one more entry does to the status. */
  function After(mode: Mode, before: RequestStatus, e: Event): RequestStatus {
    match e.kind
    case ExpiredEvent => Expired
    case CancelledEvent => Cancelled
    case SignedEvent => if e.signer == None then Completed else before
    case DeclinedEvent => if mode == Sequential then InProgress else before
    case _ => before
  }

  lemma ReplayPush(mode: Mode, events: seq<Event>, e: Event)
    ensures Replay(mode, events + [e]) == After(mode, Replay(mode, events), e)
  {
    assert (events + [e])[..|events|] == events;
  }

  /** One more entry, and the status it calls for. */
  lemma OneMore(r: Request, s: Request, e: Event)
    requires Replayed(r) && s.mode == r.mode && s.events == r.events + [e] && s.status == After(r.mode, r.status, e)
    ensures Replayed(s)
  {
    ReplayPush(r.mode, r.events, e);
  }

  lemma NoMore(r: Request, s: Request)
    requires Replayed(r) && s.mode == r.mode && s.events == r.events && s.status == r.status
    ensures Replayed(s)
  {
  }

  /** Nothing happened, or one entry was written and the status is the one it calls for; rows apart. */
  ghost predicate AtMostOne(r: Request, s: Request) {
    && s.mode == r.mode
    && ((s.events == r.events && s.status == r.status)
        || (|s.events| == |r.events| + 1 && s.events == r.events + [s.events[|r.events|]]
            && s.status == After(r.mode, r.status, s.events[|r.events|])))
  }

  lemma AtMostOneReplayed(r: Request, s: Request)
    requires Replayed(r) && AtMostOne(r, s)
    ensures Replayed(s)
  {
    hide Replayed;
    if |s.events| > |r.events| { OneMore(r, s, s.events[|r.events|]); } else { NoMore(r, s); }
  }

  lemma LinkCallsReplayed(r: Request, t: nat, now: Time)
    requires Replayed(r)
    ensures Replayed(PublicSession(r, t, now).next) && Replayed(Decline(r, t, now).next)
  {
    LinkShape(r, t, now);
    hide Replayed;
    hide AtMostOne;
    hide PublicSession;
    hide Decline;
    AtMostOneReplayed(r, PublicSession(r, t, now).next);
    AtMostOneReplayed(r, Decline(r, t, now).next);
  }

  lemma LinkShape(r: Request, t: nat, now: Time)
    ensures AtMostOne(r, PublicSession(r, t, now).next) && AtMostOne(r, Decline(r, t, now).next)
  {
    hide CanAct;
  }

  lemma SignReplayed(r: Request, t: nat, input: SignInput, now: Time)
    requires Workflow.WorkflowInv(r) && AuditTrail.AuditInv(r) && Replayed(r)
    ensures Replayed(Sign(r, t, input, now).next)
  {
    hide Replayed;
    hide Sign;
    hide SignAccepted;
    hide Collected;
    hide OthersSigned;
    hide NextInLine;
    SignsIff(r, t, input, now);
    SignResults(r, t, input, now);
    var s := Sign(r, t, input, now).next;
    if SignAccepted(r, t, input, now) {
      Signing(r, t, input, now);
      SignedShape(r, t, input, now, s);
      hide MaySign;
      hide Workflow.WorkflowInv;
      hide AuditTrail.AuditInv;
      var e, last := SignedEntry(r, t, now), Event(SignedEvent, None, now, PLAIN.(completed := true));
      var halfway := r.(events := r.events + [e]);
      OneMore(r, halfway, e);
      if s.status == Completed && s.events == r.events + [e, last] {
        assert halfway.events + [last] == s.events;
        OneMore(halfway, s, last);
      } else {
        NoMore(halfway, s);
      }
    } else if s == MarkExpired(r, now) {
      OneMore(r, s, Event(ExpiredEvent, None, now, PLAIN));
    }
  }

  lemma SignedShape(r: Request, t: nat, input: SignInput, now: Time, s: Request)
    requires t < |r.signers| && Collected(r, t, input, now, s) && HandedOn(r, t, now, s)
    ensures s.mode == r.mode
    ensures var e, last := SignedEntry(r, t, now), Event(SignedEvent, None, now, PLAIN.(completed := true));
      (s.status == Completed && s.events == r.events + [e, last]) || (s.status == r.status && s.events == r.events + [e])
  {
    hide OthersSigned;
    hide NextInLine;
    hide FieldTaken;
  }

  lemma OperatorShape(r: Request, wanted: Option<nat>, now: Time)
    ensures AtMostOne(r, InPersonSession(r, wanted, now).next) && AtMostOne(r, Cancel(r, now).next)
  {
    hide ChooseSigner;
    hide CanAct;
  }

  lemma OperatorCallsReplayed(r: Request, wanted: Option<nat>, now: Time)
    requires Replayed(r)
    ensures Replayed(InPersonSession(r, wanted, now).next) && Replayed(Cancel(r, now).next)
  {
    OperatorShape(r, wanted, now);
    hide Replayed;
    hide AtMostOne;
    hide InPersonSession;
    hide Cancel;
    AtMostOneReplayed(r, InPersonSession(r, wanted, now).next);
    AtMostOneReplayed(r, Cancel(r, now).next);
  }

  lemma {:induction false} DispatchReplayed(r: Request, targets: seq<nat>, automatic: bool, now: Time)
    requires forall k :: 0 <= k < |targets| ==> targets[k] < |r.signers|
    requires Replayed(r)
    ensures Replayed(DispatchReminders(r, targets, automatic, now))
  {
    if targets != [] {
      var n := |targets| - 1;
      DispatchReplayed(r, targets[..n], automatic, now);
      var before := DispatchReminders(r, targets[..n], automatic, now);
      hide Replayed;
      OneMore(before, RemindOne(before, targets[n], automatic, now), Event(RemindedEvent, Some(targets[n]), now, PLAIN.(automatic := automatic)));
    }
  }

  lemma SendReplayed(r: Request, rule: ReminderRule, automatic: bool, now: Time)
    requires Replayed(r)
    ensures Replayed(SendReminders(r, rule, automatic, now))
  {
    TargetsInRange(r, rule, now, |r.signers|);
    DispatchReplayed(r, ReminderTargets(r, rule, now, |r.signers|), automatic, now);
  }

  lemma ServeReplayed(cfg: Config, r: Request, call: Call, now: Time)
    requires Workflow.WorkflowInv(r) && AuditTrail.AuditInv(r) && Replayed(r)
    ensures Replayed(Serve(cfg, r, call, now).next)
  {
    hide PublicSession;
    hide Sign;
    hide Decline;
    hide Cancel;
    hide InPersonSession;
    hide SendReminders;
    hide Replayed;
    match call
    case OpenCall(token) => LinkCallsReplayed(r, token, now);
    case SignCall(token, input) => SignReplayed(r, token, input, now);
    case DeclineCall(token) => LinkCallsReplayed(r, token, now);
    case CancelCall => OperatorCallsReplayed(r, None, now);
    case RemindCall(only) => SendReplayed(r, ReminderRule(DAY_MS, None, only), false, now);
    case SweepCall => SendReplayed(r, SweepRule(cfg), true, now);
    case HandOverCall(wanted) => OperatorCallsReplayed(r, wanted, now);
    case EditTemplate(_) =>
  }

  lemma {:induction false} RunReplayed(cfg: Config, w: World, calls: seq<TimedCall>)
    requires Workflow.WorkflowInv(w.request) && AuditTrail.AuditInv(w.request) && Replayed(w.request)
    ensures Replayed(Run(cfg, w, calls).request)
    decreases |calls|
  {
    hide Replayed;
    hide Serve;
    hide Workflow.WorkflowInv;
    hide AuditTrail.AuditInv;
    if calls != [] {
      var now := w.now + calls[0].wait;
      ServeReplayed(cfg, w.request, calls[0].call, now);
      Workflow.ServeKeeps(cfg, w.request, calls[0].call, now);
      AuditTrail.ServeKeeps(cfg, w.request, calls[0].call, now);
      RunReplayed(cfg, Step(cfg, w, calls[0]), calls[1..]);
    }
  }

  /**
   On every run, the status is what replaying the log gives: EXPIRED, CANCELLED or COMPLETED after the
   entry that says so, IN_PROGRESS after a decline in sequential mode, and AWAITING_SIGNATURE before.
   */
  lemma StatusIsTheReplay(cfg: Config, w: World)
    requires Reachable(cfg, w)
    ensures w.request.status == Replay(w.request.mode, w.request.events)
  {
    var birth, calls :| ReachedBy(cfg, w, birth, calls);
    Workflow.CreatedKeeps(birth);
    AuditTrail.CreatedKeeps(birth);
    AuditTrail.CreatedFresh(birth);
    ReplayPush(birth.Created().value.mode, [], Event(CreatedEvent, None, birth.now, PLAIN));
    assert [] + [Event(CreatedEvent, None, birth.now, PLAIN)] == [Event(CreatedEvent, None, birth.now, PLAIN)];
    hide CreateRequest;
    RunReplayed(cfg, Start(birth), calls);
  }
}
