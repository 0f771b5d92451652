/** Who is reminded, exactly, when somebody asks for reminders or the sweep comes round, and what it leaves behind. */
module ReminderEffects {
  import opened Prelude
  import opened SigningModel
  import opened SigningRuns
  import opened CallEffects
  import Workflow
  import AuditTrail
  import Reminders

  /** An earlier reminder of signer `i` is younger than `gap`. */
  ghost predicate RemindedWithin(events: seq<Event>, i: nat, gap: nat, now: Time) {
    exists k :: 0 <= k < |events| && events[k].kind == RemindedEvent && events[k].signer == Some(i) && now - events[k].at < gap
  }

  /** A real signer who is up, whose turn it is, and who was not reminded within `gap`. */
  ghost predicate Waits(r: Request, i: nat, gap: nat, now: Time) {
    i < |r.signers| && Real(r, i) && IsUp(r, i) && EarlierSigned(r, i) && !RemindedWithin(r.events, i, gap, now)
  }

  lemma EligibleInWords(r: Request, i: nat, rule: ReminderRule, now: Time)
    requires Workflow.WorkflowInv(r) && i < |r.signers|
    ensures EligibleForReminder(r, i, rule, now) <==>
      && (rule.only == None || rule.only == Some(i))
      && (rule.cap.Some? ==> r.signers[i].reminderCount < rule.cap.value)
      && Waits(r, i, rule.minInterval, now)
  {
    TurnInWords(r, i);
    hide CanAct;
    hide Workflow.WorkflowInv;
    assert RemindedSince(r.events, i, now - rule.minInterval) == RemindedWithin(r.events, i, rule.minInterval, now);
  }

  // ------------------------------------------------------------ dispatching

  function JobsFor(jobs: seq<Job>, i: nat): nat {
    if jobs == [] then 0
    else
      var job := jobs[|jobs| - 1];
      JobsFor(jobs[..|jobs| - 1], i) + if job.ReminderJob? && job.signer == i then 1 else 0
  }

  lemma JobsPush(jobs: seq<Job>, job: Job, i: nat)
    ensures JobsFor(jobs + [job], i) == JobsFor(jobs, i) + if job.ReminderJob? && job.signer == i then 1 else 0
  {
    assert (jobs + [job])[..|jobs|] == jobs;
  }

  /** Signer `i` gets one more reminder, or none: one job with the next number, one entry, one more on the counter. */
  ghost predicate Reminded(r: Request, s: Request, i: nat, yes: bool)
    requires i < |r.signers|
  {
    && |s.signers| == |r.signers| && s.status == r.status
    && s.signers[i] == r.signers[i].(reminderCount := r.signers[i].reminderCount + if yes then 1 else 0)
    && JobsFor(s.jobs, i) == JobsFor(r.jobs, i) + (if yes then 1 else 0)
    && (yes ==> ReminderJob(i, r.signers[i].reminderCount + 1) in s.jobs)
    && AuditTrail.Count(s.events, RemindedEvent, Some(i)) == AuditTrail.Count(r.events, RemindedEvent, Some(i)) + if yes then 1 else 0
  }

  /** All that is new in the log and the queue is `n` reminders, made now. */
  ghost predicate OnlyReminders(r: Request, s: Request, n: nat, automatic: bool, now: Time) {
    && r.events <= s.events && |s.events| == |r.events| + n
    && r.jobs <= s.jobs && |s.jobs| == |r.jobs| + n
    && s.fields == r.fields && s.signatures == r.signatures && s.deadline == r.deadline
    && forall k :: |r.events| <= k < |s.events| ==>
         s.events[k].kind == RemindedEvent && s.events[k].at == now && s.events[k].meta == PLAIN.(automatic := automatic)
  }

  lemma {:induction false} DispatchReminds(r: Request, targets: seq<nat>, automatic: bool, now: Time, i: nat)
    requires forall k :: 0 <= k < |targets| ==> targets[k] < |r.signers|
    requires Reminders.Increasing(targets) && i < |r.signers|
    ensures Reminded(r, DispatchReminders(r, targets, automatic, now), i, i in targets)
    ensures OnlyReminders(r, DispatchReminders(r, targets, automatic, now), |targets|, automatic, now)
  {
    hide DispatchReminders;
    hide RemindOne;
    hide Reminded;
    hide OnlyReminders;
    DispatchUnfolds(r, targets, automatic, now);
    if targets == [] {
      NobodyReminded(r, i, automatic, now);
    } else {
      var n := |targets| - 1;
      var t := targets[n];
      var front := targets[..n];
      assert targets == front + [t] && t !in front;
      DispatchReminds(r, front, automatic, now, i);
      var before := DispatchReminders(r, front, automatic, now);
      OneReminder(before, t, automatic, now, i);
      Chain(r, before, RemindOne(before, t, automatic, now), i, i in front, i == t, n, automatic, now);
    }
  }

  lemma DispatchUnfolds(r: Request, targets: seq<nat>, automatic: bool, now: Time)
    requires forall k :: 0 <= k < |targets| ==> targets[k] < |r.signers|
    ensures DispatchReminders(r, targets, automatic, now)
      == if targets == [] then r
         else RemindOne(DispatchReminders(r, targets[..|targets| - 1], automatic, now), targets[|targets| - 1], automatic, now)
  {
    hide RemindOne;
  }

  lemma NobodyReminded(r: Request, i: nat, automatic: bool, now: Time)
    requires i < |r.signers|
    ensures Reminded(r, r, i, false) && OnlyReminders(r, r, 0, automatic, now)
  {
    hide JobsFor;
    hide AuditTrail.Count;
  }

  lemma OneReminder(r: Request, t: nat, automatic: bool, now: Time, i: nat)
    requires t < |r.signers| && i < |r.signers|
    ensures Reminded(r, RemindOne(r, t, automatic, now), i, i == t)
    ensures OnlyReminders(r, RemindOne(r, t, automatic, now), 1, automatic, now)
  {
    JobsPush(r.jobs, ReminderJob(t, r.signers[t].reminderCount + 1), i);
    AuditTrail.CountPush(r.events, Event(RemindedEvent, Some(t), now, PLAIN.(automatic := automatic)));
    hide JobsFor;
    hide AuditTrail.Count;
  }

  lemma Chain(r: Request, s: Request, t: Request, i: nat, first: bool, second: bool, n: nat, automatic: bool, now: Time)
    requires i < |r.signers| == |s.signers| && !(first && second)
    requires Reminded(r, s, i, first) && Reminded(s, t, i, second)
    requires OnlyReminders(r, s, n, automatic, now) && OnlyReminders(s, t, 1, automatic, now)
    ensures Reminded(r, t, i, first || second) && OnlyReminders(r, t, n + 1, automatic, now)
  {
    hide JobsFor;
    hide AuditTrail.Count;
    assert forall k :: 0 <= k < |s.jobs| ==> s.jobs[k] == t.jobs[k];
  }

  lemma {:induction false} TargetsAreTheEligible(r: Request, rule: ReminderRule, now: Time, n: nat, i: nat)
    requires n <= |r.signers| && i < |r.signers|
    ensures i in ReminderTargets(r, rule, now, n) <==> i < n && EligibleForReminder(r, i, rule, now)
  {
    if n > 0 { TargetsAreTheEligible(r, rule, now, n - 1, i); }
  }

  lemma SendReminds(r: Request, rule: ReminderRule, automatic: bool, now: Time, i: nat)
    requires Workflow.WorkflowInv(r) && i < |r.signers|
    ensures Reminded(r, SendReminders(r, rule, automatic, now), i,
                     && (rule.only == None || rule.only == Some(i))
                     && (rule.cap.Some? ==> r.signers[i].reminderCount < rule.cap.value)
                     && Waits(r, i, rule.minInterval, now))
    ensures OnlyReminders(r, SendReminders(r, rule, automatic, now), |ReminderTargets(r, rule, now, |r.signers|)|, automatic, now)
  {
    EligibleInWords(r, i, rule, now);
    TargetsInRange(r, rule, now, |r.signers|);
    Reminders.TargetsAreEligible(r, rule, now, |r.signers|);
    TargetsAreTheEligible(r, rule, now, |r.signers|, i);
    DispatchReminds(r, ReminderTargets(r, rule, now, |r.signers|), automatic, now, i);
  }

  lemma WaitsMeansSelected(r: Request, i: nat, gap: nat, now: Time)
    requires Waits(r, i, gap, now)
    ensures SelectedBySweep(r, now) <==> Running(r) && (r.deadline.Some? ==> now < r.deadline.value)
  {
    hide RemindedWithin;
    hide EarlierSigned;
    assert r.Open(i);
  }

  lemma SelectedMeansRunning(r: Request, now: Time)
    ensures SelectedBySweep(r, now) ==> Running(r) && (r.deadline.Some? ==> now < r.deadline.value)
  {
  }

  // ------------------------------------------------------------ main results

  /**
   Asking for reminders, on every run: a signer is reminded, once, if and only if the request is
   running, nobody or that signer is named, and it is a real signer who is up, whose turn it is, and who
   has no reminder younger than 24 hours. The reply counts the reminders, and nothing else happens.
   */
  lemma RemindsExactly(cfg: Config, w: World, only: Option<nat>, now: Time, i: nat)
    requires Reachable(cfg, w) && i < |w.request.signers|
    ensures var r := w.request;
      var o := Remind(r, only, now);
      && Reminded(r, o.next, i, Running(r) && (only == None || only == Some(i)) && Waits(r, i, DAY_MS, now))
      && (if Running(r) then
            o.reply.Success? && o.reply.value.Enqueued? && OnlyReminders(r, o.next, o.reply.value.count, false, now)
          else o == Outcome(r, Failure(NotAwaiting)))
  {
    Workflow.ReachableInv(cfg, w);
    var rule := ReminderRule(DAY_MS, None, only);
    SendReminds(w.request, rule, false, now, i);
    NobodyReminded(w.request, i, false, now);
    hide SendReminders;
    hide ReminderTargets;
    hide Waits;
    hide Reminded;
    hide OnlyReminders;
  }

  /**
   The sweep, on every run: a signer is reminded, once, if and only if mail can be sent, the request is
   running before its deadline, and it is a real signer who is up, whose turn it is, who has no reminder
   younger than `afterDays` days, and who has had fewer than the maximum.
   */
  lemma SweepRemindsExactly(cfg: Config, w: World, now: Time, i: nat)
    requires Reachable(cfg, w) && i < |w.request.signers|
    ensures var r := w.request;
      var s := SweepRequest(cfg, r, now);
      && Reminded(r, s, i,
                  && cfg.smtpHost && Running(r) && (r.deadline.Some? ==> now < r.deadline.value)
                  && Waits(r, i, cfg.afterDays * DAY_MS, now) && r.signers[i].reminderCount < cfg.maxReminders)
      && OnlyReminders(r, s, SweepCount(cfg, r, now), true, now)
  {
    Workflow.ReachableInv(cfg, w);
    var r := w.request;
    SendReminds(r, SweepRule(cfg), true, now, i);
    NobodyReminded(r, i, true, now);
    SelectedMeansRunning(r, now);
    if Waits(r, i, cfg.afterDays * DAY_MS, now) { WaitsMeansSelected(r, i, cfg.afterDays * DAY_MS, now); }
    hide SendReminders;
    hide ReminderTargets;
    hide SelectedBySweep;
    hide Waits;
    hide Reminded;
    hide OnlyReminders;
    hide Workflow.WorkflowInv;
    hide Reachable;
  }
}
