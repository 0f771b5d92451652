/**
 What the order of the trail says on every run: entries are in time order, nothing a signer does is
 recorded after the deadline, and once the request is closed only a cancellation is ever recorded.
 */
module TrailOrder {
  import opened Prelude
  import opened SigningModel
  import opened SigningRuns
  import Workflow
  import AuditTrail
  import CreationEffects

  /** The entry comes on the right side of the deadline. */
  predicate Timely(deadline: Option<Time>, e: Event) {
    deadline.Some? ==>
      match e.kind
      case ViewedEvent => e.at <= deadline.value
      case SignedEvent => e.at <= deadline.value
      case DeclinedEvent => e.at <= deadline.value
      case HandedOverEvent => e.at <= deadline.value
      case RemindedEvent => e.meta.automatic ==> e.at < deadline.value
      case ExpiredEvent => e.at > deadline.value
      case _ => true
  }

  predicate Completes(e: Event) {
    e.kind == SignedEvent && e.signer == None
  }

  /** The entry closes the request: it expired, was cancelled or is complete. */
  predicate Closes(e: Event) {
    e.kind == ExpiredEvent || e.kind == CancelledEvent || Completes(e)
  }

  predicate NeverCompleted(events: seq<Event>) {
    forall k :: 0 <= k < |events| ==> !Completes(events[k])
  }

  predicate StillOpen(events: seq<Event>) {
    forall k :: 0 <= k < |events| ==> !Closes(events[k])
  }

  predicate UpTo(events: seq<Event>, now: Time) {
    forall k :: 0 <= k < |events| ==> events[k].at <= now
  }

  /** Entry `l` against those before it. */
  predicate Follows(deadline: Option<Time>, events: seq<Event>, l: nat)
    requires l < |events|
  {
    && UpTo(events[..l], events[l].at)
    && (events[l].kind == ExpiredEvent ==> deadline.Some?)
    && Timely(deadline, events[l])
    && NeverCompleted(events[..l])
    && (events[l].kind != CancelledEvent ==> StillOpen(events[..l]))
  }

  ghost predicate Ordered(deadline: Option<Time>, events: seq<Event>) {
    forall l :: 0 <= l < |events| ==> Follows(deadline, events, l)
  }

  ghost predicate OrderInv(r: Request, now: Time) {
    && Ordered(r.deadline, r.events) && UpTo(r.events, now)
    && (r.Active() ==> StillOpen(r.events))
    && (r.status != Completed ==> NeverCompleted(r.events))
  }

  lemma Push(deadline: Option<Time>, events: seq<Event>, e: Event)
    requires Ordered(deadline, events) && UpTo(events, e.at)
    requires Timely(deadline, e) && (e.kind == ExpiredEvent ==> deadline.Some?)
    requires NeverCompleted(events) && (e.kind != CancelledEvent ==> StillOpen(events))
    ensures Ordered(deadline, events + [e]) && UpTo(events + [e], e.at)
    ensures StillOpen(events) && !Closes(e) ==> StillOpen(events + [e])
    ensures !Completes(e) ==> NeverCompleted(events + [e])
  {
    hide Timely;
    var longer := events + [e];
    forall l | 0 <= l < |longer| ensures Follows(deadline, longer, l) {
      if l < |events| {
        assert longer[..l] == events[..l];
        assert Follows(deadline, events, l);
      } else {
        assert longer[..l] == events;
      }
    }
  }

  // ------------------------------------------------------------- each step

  lemma LinkCallsKeep(r: Request, t: nat, now: Time)
    requires OrderInv(r, now)
    ensures OrderInv(PublicSession(r, t, now).next, now) && OrderInv(Decline(r, t, now).next, now)
  {
    hide Ordered;
    hide UpTo;
    hide StillOpen;
    hide NeverCompleted;
    hide CanAct;
    if t < |r.signers| && r.Active() {
      if r.PastDeadline(now) {
        Push(r.deadline, r.events, Event(ExpiredEvent, None, now, PLAIN));
      } else {
        Push(r.deadline, r.events, Event(ViewedEvent, Some(t), now, PLAIN));
        Push(r.deadline, r.events, Event(DeclinedEvent, Some(t), now, PLAIN));
      }
    }
  }

  lemma SignKeeps(r: Request, t: nat, input: SignInput, now: Time)
    requires OrderInv(r, now)
    ensures OrderInv(Sign(r, t, input, now).next, now)
  {
    hide Ordered;
    hide UpTo;
    hide StillOpen;
    hide NeverCompleted;
    SignResults(r, t, input, now);
    hide Sign;
    hide SignCheck;
    hide ResolveFieldValues;
    hide AllSigned;
    if t < |r.signers| && r.Active() {
      if r.PastDeadline(now) {
        Push(r.deadline, r.events, Event(ExpiredEvent, None, now, PLAIN));
      } else {
        var signed := Event(SignedEvent, Some(t), now, PLAIN.(inPerson := r.signers[t].auth == InPerson));
        Push(r.deadline, r.events, signed);
        Push(r.deadline, r.events + [signed], Event(SignedEvent, None, now, PLAIN.(completed := true)));
      }
    }
  }

  lemma OperatorCallsKeep(r: Request, wanted: Option<nat>, now: Time)
    requires OrderInv(r, now)
    ensures OrderInv(InPersonSession(r, wanted, now).next, now) && OrderInv(Cancel(r, now).next, now)
  {
    hide Ordered;
    hide UpTo;
    hide StillOpen;
    hide NeverCompleted;
    hide CanAct;
    if r.status != Completed { Push(r.deadline, r.events, Event(CancelledEvent, None, now, PLAIN)); }
    if r.Active() {
      if r.PastDeadline(now) {
        Push(r.deadline, r.events, Event(ExpiredEvent, None, now, PLAIN));
      } else if ChooseSigner(r, wanted).Success? {
        Push(r.deadline, r.events, Event(HandedOverEvent, Some(ChooseSigner(r, wanted).value), now, PLAIN.(inPerson := true)));
      }
    }
  }

  lemma {:induction false} DispatchKeeps(r: Request, targets: seq<nat>, automatic: bool, now: Time)
    requires forall k :: 0 <= k < |targets| ==> targets[k] < |r.signers|
    requires OrderInv(r, now) && r.Active()
    requires automatic && r.deadline.Some? ==> now < r.deadline.value
    ensures var s := DispatchReminders(r, targets, automatic, now);
      OrderInv(s, now) && s.deadline == r.deadline && s.status == r.status
  {
    hide Ordered;
    hide UpTo;
    hide StillOpen;
    hide NeverCompleted;
    if targets != [] {
      var n := |targets| - 1;
      DispatchKeeps(r, targets[..n], automatic, now);
      var before := DispatchReminders(r, targets[..n], automatic, now);
      Push(before.deadline, before.events, Event(RemindedEvent, Some(targets[n]), now, PLAIN.(automatic := automatic)));
    }
  }

  lemma SendKeeps(r: Request, rule: ReminderRule, automatic: bool, now: Time)
    requires OrderInv(r, now) && r.Active()
    requires automatic && r.deadline.Some? ==> now < r.deadline.value
    ensures OrderInv(SendReminders(r, rule, automatic, now), now)
  {
    hide OrderInv;
    TargetsInRange(r, rule, now, |r.signers|);
    DispatchKeeps(r, ReminderTargets(r, rule, now, |r.signers|), automatic, now);
  }

  lemma ServeKeeps(cfg: Config, r: Request, call: Call, now: Time)
    requires OrderInv(r, now)
    ensures OrderInv(Serve(cfg, r, call, now).next, now)
  {
    hide OrderInv;
    hide PublicSession;
    hide Sign;
    hide Decline;
    hide Cancel;
    hide InPersonSession;
    match call
    case OpenCall(token) => LinkCallsKeep(r, token, now);
    case SignCall(token, input) => SignKeeps(r, token, input, now);
    case DeclineCall(token) => LinkCallsKeep(r, token, now);
    case CancelCall => OperatorCallsKeep(r, None, now);
    case RemindCall(only) => if r.Active() { SendKeeps(r, ReminderRule(DAY_MS, None, only), false, now); }
    case SweepCall => if SelectedBySweep(r, now) { SendKeeps(r, SweepRule(cfg), true, now); }
    case HandOverCall(wanted) => OperatorCallsKeep(r, wanted, now);
    case EditTemplate(_) =>
  }

  lemma Later(r: Request, now: Time, later: Time)
    requires OrderInv(r, now) && now <= later
    ensures OrderInv(r, later)
  {
  }

  lemma {:induction false} RunKeeps(cfg: Config, w: World, calls: seq<TimedCall>)
    requires OrderInv(w.request, w.now)
    ensures OrderInv(Run(cfg, w, calls).request, Run(cfg, w, calls).now)
    decreases |calls|
  {
    hide OrderInv;
    hide Serve;
    if calls != [] {
      var now := w.now + calls[0].wait;
      Later(w.request, w.now, now);
      ServeKeeps(cfg, w.request, calls[0].call, now);
      RunKeeps(cfg, Step(cfg, w, calls[0]), calls[1..]);
    }
  }

  lemma ReachableInv(cfg: Config, w: World)
    requires Reachable(cfg, w)
    ensures OrderInv(w.request, w.now)
  {
    var birth, calls :| ReachedBy(cfg, w, birth, calls);
    AuditTrail.CreatedFresh(birth);
    hide CreateRequest;
    assert OrderInv(Start(birth).request, birth.now);
    RunKeeps(cfg, Start(birth), calls);
  }

  // ------------------------------------------------------------ main results

  /** On every run the trail is in time order. */
  lemma TrailIsInTimeOrder(cfg: Config, w: World, k: nat, l: nat)
    requires Reachable(cfg, w) && k < l < |w.request.events|
    ensures w.request.events[k].at <= w.request.events[l].at <= w.now
  {
    ReachableInv(cfg, w);
    assert Follows(w.request.deadline, w.request.events, l);
    assert w.request.events[..l][k] == w.request.events[k];
  }

  lemma {:induction false} DeadlineStays(cfg: Config, w: World, calls: seq<TimedCall>)
    requires Workflow.WorkflowInv(w.request)
    ensures Run(cfg, w, calls).request.deadline == w.request.deadline
    decreases |calls|
  {
    hide Serve;
    hide Workflow.WorkflowInv;
    if calls != [] {
      var now := w.now + calls[0].wait;
      Workflow.ServeKeeps(cfg, w.request, calls[0].call, now);
      Workflow.ServeMoves(cfg, w.request, calls[0].call, now);
      DeadlineStays(cfg, Step(cfg, w, calls[0]), calls[1..]);
    }
  }

  /**
   On every run, the deadline asked for is observed: no link is opened, no signature, decline or
   handover is recorded after it, the sweep reminds nobody from then on, and the request expires only
   then; a request asked for without a deadline never expires.
   */
  lemma DeadlineIsObserved(cfg: Config, birth: Birth, calls: seq<TimedCall>, l: nat)
    requires birth.Created().Success? && l < |Run(cfg, Start(birth), calls).request.events|
    ensures var e := Run(cfg, Start(birth), calls).request.events[l];
      var deadline := birth.input.deadline;
      && (e.kind in {ViewedEvent, SignedEvent, DeclinedEvent, HandedOverEvent} ==> deadline == None || e.at <= deadline.value)
      && (e.kind == RemindedEvent && e.meta.automatic ==> deadline == None || e.at < deadline.value)
      && (e.kind == ExpiredEvent ==> deadline.Some? && e.at > deadline.value)
  {
    var w := Run(cfg, Start(birth), calls);
    assert ReachedBy(cfg, w, birth, calls);
    ReachableInv(cfg, w);
    Workflow.CreatedKeeps(birth);
    DeadlineStays(cfg, Start(birth), calls);
    CreationEffects.CreatedAsAsked(birth);
    hide CreateRequest;
    assert Follows(w.request.deadline, w.request.events, l);
  }

  /**
   On every run, after the entry that expires, cancels or completes the request only cancellations
   are recorded, and after the one that completes it nothing at all.
   */
  lemma ClosedMeansClosed(cfg: Config, w: World, k: nat, l: nat)
    requires Reachable(cfg, w) && k < l < |w.request.events|
    requires Closes(w.request.events[k])
    ensures w.request.events[l].kind == CancelledEvent && !Completes(w.request.events[k])
  {
    ReachableInv(cfg, w);
    assert Follows(w.request.deadline, w.request.events, l);
    assert w.request.events[..l][k] == w.request.events[k];
  }
}
