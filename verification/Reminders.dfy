/**
 Reminders over whole runs that mix deliberate and automatic ones: how far apart they are, how many
 the sweep may send, and to whom. All of it is read off the event log.
 */
module Reminders {
  import opened Prelude
  import opened SigningModel
  import opened SigningRuns
  import opened AuditTrail
  import Workflow

  function Gap(cfg: Config, automatic: bool): nat {
    if automatic then cfg.afterDays * DAY_MS else DAY_MS
  }

  predicate IsReminderOf(e: Event, i: nat) {
    e.kind == RemindedEvent && e.signer == Some(i)
  }

  /** Entry `e`, written after `events`, is a reminder that should have been sent. */
  ghost predicate Deserved(cfg: Config, r: Request, events: seq<Event>, e: Event) {
    e.kind == RemindedEvent ==>
      && e.signer.Some? && e.signer.value < |r.signers|
      && var i := e.signer.value;
      && r.Acting(i)
      && Count(events, SignedEvent, Some(i)) == 0
      && Count(events, DeclinedEvent, Some(i)) == 0
      && (r.mode == Sequential ==> forall j :: 0 <= j < i && r.Acting(j) ==> Count(events, SignedEvent, Some(j)) == 1)
      && (e.meta.automatic ==> Count(events, RemindedEvent, Some(i)) < cfg.maxReminders)
      && (forall k :: 0 <= k < |events| && IsReminderOf(events[k], i) ==> e.at - events[k].at >= Gap(cfg, e.meta.automatic))
  }

  ghost predicate EntryDeserved(cfg: Config, r: Request, l: nat)
    requires l < |r.events|
  {
    Deserved(cfg, r, r.events[..l], r.events[l])
  }

  ghost predicate RemindersOk(cfg: Config, r: Request) {
    forall l :: 0 <= l < |r.events| ==> EntryDeserved(cfg, r, l)
  }

  ghost predicate SameRoles(r: Request, s: Request) {
    s.mode == r.mode && |s.signers| == |r.signers| && forall i :: 0 <= i < |r.signers| ==> s.signers[i].role == r.signers[i].role
  }

  lemma SameRolesDeserved(cfg: Config, r: Request, s: Request, events: seq<Event>, e: Event)
    requires SameRoles(r, s) && Deserved(cfg, r, events, e)
    ensures Deserved(cfg, s, events, e)
  {
    assert forall i :: 0 <= i < |r.signers| ==> s.Acting(i) == r.Acting(i);
  }

  /** Entries that are not reminders, written after the log, change nothing. */
  lemma QuietEntriesKeep(cfg: Config, r: Request, s: Request)
    requires RemindersOk(cfg, r) && SameRoles(r, s) && r.events <= s.events
    requires forall l :: |r.events| <= l < |s.events| ==> s.events[l].kind != RemindedEvent
    ensures RemindersOk(cfg, s)
  {
    forall l | 0 <= l < |s.events| ensures EntryDeserved(cfg, s, l) {
      if l < |r.events| {
        assert s.events[..l] == r.events[..l];
        assert EntryDeserved(cfg, r, l);
        SameRolesDeserved(cfg, r, s, r.events[..l], r.events[l]);
      }
    }
  }

  lemma ReminderKeeps(cfg: Config, r: Request, i: nat, automatic: bool, now: Time)
    requires RemindersOk(cfg, r) && i < |r.signers|
    requires Deserved(cfg, r, r.events, Event(RemindedEvent, Some(i), now, PLAIN.(automatic := automatic)))
    ensures RemindersOk(cfg, RemindOne(r, i, automatic, now))
  {
    var s := RemindOne(r, i, automatic, now);
    forall l | 0 <= l < |s.events| ensures EntryDeserved(cfg, s, l) {
      assert s.events[..l] == r.events[..l];
      if l < |r.events| {
        assert EntryDeserved(cfg, r, l);
        SameRolesDeserved(cfg, r, s, r.events[..l], r.events[l]);
      } else {
        assert r.events[..l] == r.events;
        SameRolesDeserved(cfg, r, s, r.events, s.events[l]);
      }
    }
  }

  // ------------------------------------------------------------- dispatching

  ghost predicate AllEligible(r: Request, targets: seq<nat>, rule: ReminderRule, now: Time) {
    forall k :: 0 <= k < |targets| ==> targets[k] < |r.signers| && EligibleForReminder(r, targets[k], rule, now)
  }

  ghost predicate Increasing(targets: seq<nat>) {
    forall k, l :: 0 <= k < l < |targets| ==> targets[k] < targets[l]
  }

  lemma {:induction false} TargetsAreEligible(r: Request, rule: ReminderRule, now: Time, n: nat)
    requires n <= |r.signers|
    ensures AllEligible(r, ReminderTargets(r, rule, now, n), rule, now)
    ensures Increasing(ReminderTargets(r, rule, now, n))
  {
    if n > 0 {
      TargetsAreEligible(r, rule, now, n - 1);
      TargetsInRange(r, rule, now, n - 1);
    }
  }

  /** Dispatching to others leaves a signer's row and its reminders alone. */
  lemma {:induction false} DispatchLeavesOthers(r: Request, targets: seq<nat>, automatic: bool, now: Time, i: nat)
    requires forall k :: 0 <= k < |targets| ==> targets[k] < |r.signers|
    requires i < |r.signers| && i !in targets
    ensures var s := DispatchReminders(r, targets, automatic, now);
      && s.signers[i] == r.signers[i]
      && r.events <= s.events
      && forall k :: |r.events| <= k < |s.events| ==> !IsReminderOf(s.events[k], i)
  {
    if targets != [] {
      DispatchLeavesOthers(r, targets[..|targets| - 1], automatic, now, i);
    }
  }

  lemma TargetDeserves(cfg: Config, r: Request, before: Request, i: nat, rule: ReminderRule, automatic: bool, now: Time)
    requires Workflow.WorkflowInv(r) && i < |r.signers| && EligibleForReminder(r, i, rule, now)
    requires AuditInv(before) && Workflow.SameWorkflow(r, before) && before.signers[i] == r.signers[i]
    requires r.events <= before.events
    requires forall k :: |r.events| <= k < |before.events| ==> !IsReminderOf(before.events[k], i)
    requires rule.minInterval == Gap(cfg, automatic)
    requires automatic ==> rule.cap == Some(cfg.maxReminders)
    ensures Deserved(cfg, before, before.events, Event(RemindedEvent, Some(i), now, PLAIN.(automatic := automatic)))
  {
    Workflow.TurnIsPrefix(r, i);
    assert SignerAudited(before, i);
    forall j | 0 <= j < i && before.Acting(j) && before.mode == Sequential
      ensures Count(before.events, SignedEvent, Some(j)) == 1
    {
      assert r.Acting(j);
      assert SignerAudited(before, j);
    }
    forall k | 0 <= k < |before.events| && IsReminderOf(before.events[k], i)
      ensures now - before.events[k].at >= Gap(cfg, automatic)
    {
      assert before.events[k] == r.events[k];
    }
  }

  lemma {:induction false} DispatchKeepsReminders(
      cfg: Config, r: Request, targets: seq<nat>, rule: ReminderRule, automatic: bool, now: Time)
    requires Workflow.WorkflowInv(r) && AuditInv(r) && RemindersOk(cfg, r)
    requires AllEligible(r, targets, rule, now) && Increasing(targets)
    requires rule.minInterval == Gap(cfg, automatic)
    requires automatic ==> rule.cap == Some(cfg.maxReminders)
    ensures RemindersOk(cfg, DispatchReminders(r, targets, automatic, now))
  {
    if targets != [] {
      var n := |targets| - 1;
      var before := DispatchReminders(r, targets[..n], automatic, now);
      DispatchKeepsReminders(cfg, r, targets[..n], rule, automatic, now);
      Workflow.DispatchSameWorkflow(r, targets[..n], automatic, now);
      DispatchKeeps(r, targets[..n], automatic, now);
      DispatchLeavesOthers(r, targets[..n], automatic, now, targets[n]);
      TargetDeserves(cfg, r, before, targets[n], rule, automatic, now);
      ReminderKeeps(cfg, before, targets[n], automatic, now);
    }
  }

  lemma SendKeepsReminders(cfg: Config, r: Request, rule: ReminderRule, automatic: bool, now: Time)
    requires Workflow.WorkflowInv(r) && AuditInv(r) && RemindersOk(cfg, r)
    requires rule.minInterval == Gap(cfg, automatic)
    requires automatic ==> rule.cap == Some(cfg.maxReminders)
    ensures RemindersOk(cfg, SendReminders(r, rule, automatic, now))
  {
    TargetsAreEligible(r, rule, now, |r.signers|);
    DispatchKeepsReminders(cfg, r, ReminderTargets(r, rule, now, |r.signers|), rule, automatic, now);
  }

  // -------------------------------------------------------------- every call

  ghost predicate Quiet(r: Request, s: Request) {
    r.events <= s.events && forall l :: |r.events| <= l < |s.events| ==> s.events[l].kind != RemindedEvent
  }

  lemma QuietSign(r: Request, t: nat, input: SignInput, now: Time)
    ensures Quiet(r, Sign(r, t, input, now).next)
  {
    SignResults(r, t, input, now);
  }

  lemma QuietLinkCalls(r: Request, t: nat, now: Time)
    ensures Quiet(r, PublicSession(r, t, now).next)
    ensures Quiet(r, Decline(r, t, now).next)
  {
  }

  lemma QuietOperatorCalls(r: Request, wanted: Option<nat>, now: Time)
    ensures Quiet(r, Cancel(r, now).next)
    ensures Quiet(r, InPersonSession(r, wanted, now).next)
  {
  }

  lemma ServeKeepsReminders(cfg: Config, r: Request, call: Call, now: Time)
    requires Workflow.WorkflowInv(r) && AuditInv(r) && RemindersOk(cfg, r)
    ensures RemindersOk(cfg, Serve(cfg, r, call, now).next)
  {
    match call
    case RemindCall(only) => SendKeepsReminders(cfg, r, ReminderRule(DAY_MS, None, only), false, now);
    case SweepCall => SendKeepsReminders(cfg, r, SweepRule(cfg), true, now);
    case OpenCall(token) => QuietLinkCalls(r, token, now); QuietServe(cfg, r, call, now);
    case SignCall(token, input) => QuietSign(r, token, input, now); QuietServe(cfg, r, call, now);
    case DeclineCall(token) => QuietLinkCalls(r, token, now); QuietServe(cfg, r, call, now);
    case CancelCall => QuietOperatorCalls(r, None, now); QuietServe(cfg, r, call, now);
    case HandOverCall(wanted) => QuietOperatorCalls(r, wanted, now); QuietServe(cfg, r, call, now);
    case EditTemplate(_) =>
  }

  lemma QuietServe(cfg: Config, r: Request, call: Call, now: Time)
    requires Workflow.WorkflowInv(r) && RemindersOk(cfg, r) && Quiet(r, Serve(cfg, r, call, now).next)
    ensures RemindersOk(cfg, Serve(cfg, r, call, now).next)
  {
    Workflow.ServeMoves(cfg, r, call, now);
    QuietEntriesKeep(cfg, r, Serve(cfg, r, call, now).next);
  }

  lemma {:induction false} RunKeepsReminders(cfg: Config, w: World, calls: seq<TimedCall>)
    requires Workflow.WorkflowInv(w.request) && AuditInv(w.request) && RemindersOk(cfg, w.request)
    ensures RemindersOk(cfg, Run(cfg, w, calls).request)
    decreases |calls|
  {
    hide Serve;
    if calls != [] {
      var now := w.now + calls[0].wait;
      Workflow.ServeKeeps(cfg, w.request, calls[0].call, now);
      ServeKeeps(cfg, w.request, calls[0].call, now);
      ServeKeepsReminders(cfg, w.request, calls[0].call, now);
      RunKeepsReminders(cfg, Step(cfg, w, calls[0]), calls[1..]);
    }
  }

  lemma ReachableReminders(cfg: Config, w: World)
    requires Reachable(cfg, w)
    ensures RemindersOk(cfg, w.request)
  {
    var birth, calls :| ReachedBy(cfg, w, birth, calls);
    Workflow.CreatedKeeps(birth);
    AuditTrail.CreatedKeeps(birth);
    CreatedFresh(birth);
    RunKeepsReminders(cfg, Start(birth), calls);
  }

  // ------------------------------------------------------------ main results

  /**
   On every run, a reminder comes at least `afterDays` days after any earlier reminder of the same
   signer if the sweep sent it, and at least 24 hours after it if somebody asked for it.
   */
  lemma RemindersAreSpaced(cfg: Config, w: World, i: nat, k: nat, l: nat)
    requires Reachable(cfg, w) && k < l < |w.request.events|
    requires IsReminderOf(w.request.events[k], i) && IsReminderOf(w.request.events[l], i)
    ensures w.request.events[l].at - w.request.events[k].at
      >= if w.request.events[l].meta.automatic then cfg.afterDays * 86_400_000 else 86_400_000
  {
    ReachableReminders(cfg, w);
    assert EntryDeserved(cfg, w.request, l);
    assert w.request.events[..l][k] == w.request.events[k];
  }

  /**
   On every run, a reminder goes to a real signer that has neither signed nor declined and, in a
   sequential request, only once every real signer before it has signed.
   */
  lemma RemindersReachWhoeverIsUp(cfg: Config, w: World, l: nat)
    requires Reachable(cfg, w) && l < |w.request.events| && w.request.events[l].kind == RemindedEvent
    ensures var r := w.request;
      var e := r.events[l];
      && e.signer.Some? && e.signer.value < |r.signers| && r.Acting(e.signer.value)
      && Count(r.events[..l], SignedEvent, e.signer) == 0
      && Count(r.events[..l], DeclinedEvent, e.signer) == 0
      && (r.mode == Sequential ==>
          forall j :: 0 <= j < e.signer.value && r.Acting(j) ==> Count(r.events[..l], SignedEvent, Some(j)) == 1)
  {
    ReachableReminders(cfg, w);
    assert EntryDeserved(cfg, w.request, l);
  }

  function CountAutomatic(events: seq<Event>, i: nat): nat {
    if events == [] then 0
    else
      var e := events[|events| - 1];
      CountAutomatic(events[..|events| - 1], i) + One(IsReminderOf(e, i) && e.meta.automatic)
  }

  lemma {:induction false} CapHolds(cfg: Config, r: Request, i: nat, n: nat)
    requires RemindersOk(cfg, r) && n <= |r.events|
    ensures CountAutomatic(r.events[..n], i) <= cfg.maxReminders
    ensures CountAutomatic(r.events[..n], i) <= Count(r.events[..n], RemindedEvent, Some(i))
  {
    if n > 0 {
      CapHolds(cfg, r, i, n - 1);
      assert r.events[..n][..n - 1] == r.events[..n - 1];
      assert EntryDeserved(cfg, r, n - 1);
    }
  }

  /** On every run, the sweep reminds one signer at most `maxReminders` times, however many deliberate reminders there are. */
  lemma SweepStaysUnderCap(cfg: Config, w: World, i: nat)
    requires Reachable(cfg, w)
    ensures CountAutomatic(w.request.events, i) <= cfg.maxReminders
  {
    ReachableReminders(cfg, w);
    CapHolds(cfg, w.request, i, |w.request.events|);
    assert w.request.events[..|w.request.events|] == w.request.events;
  }
}
