/**
 The audit trail agrees with the rows it is about, on every run: signatures, declines, views,
 reminders and handovers are each counted exactly, and the webhooks sent out are the trail's image.
 */
module AuditTrail {
  import opened Prelude
  import opened SigningModel
  import opened SigningRuns
  import Workflow

  // --------------------------------------------------------------- counting

  function Count(events: seq<Event>, kind: EventKind, who: Option<nat>): nat {
    if events == [] then 0
    else
      var last := events[|events| - 1];
      Count(events[..|events| - 1], kind, who) + if last.kind == kind && last.signer == who then 1 else 0
  }

  function CountKind(events: seq<Event>, kind: EventKind): nat {
    if events == [] then 0
    else CountKind(events[..|events| - 1], kind) + if events[|events| - 1].kind == kind then 1 else 0
  }

  lemma CountPush(events: seq<Event>, e: Event)
    ensures forall kind, who ::
      Count(events + [e], kind, who) == Count(events, kind, who) + One(e.kind == kind && e.signer == who)
    ensures forall kind :: CountKind(events + [e], kind) == CountKind(events, kind) + One(e.kind == kind)
  {
    assert (events + [e])[..|events|] == events;
  }

  function HowMany(signers: seq<SignerRow>, status: SignerStatus): nat {
    if signers == [] then 0
    else HowMany(signers[..|signers| - 1], status) + if signers[|signers| - 1].status == status then 1 else 0
  }

  lemma {:induction false} HowManyUpdate(signers: seq<SignerRow>, i: nat, row: SignerRow, status: SignerStatus)
    requires i < |signers|
    ensures HowMany(signers[i := row], status) + (if signers[i].status == status then 1 else 0)
      == HowMany(signers, status) + if row.status == status then 1 else 0
  {
    var n := |signers| - 1;
    if i == n {
      assert signers[i := row][..n] == signers[..n];
    } else {
      assert signers[i := row][..n] == signers[..n][i := row];
      HowManyUpdate(signers[..n], i, row, status);
    }
  }

  // -------------------------------------------------------------- invariant

  function One(b: bool): nat { if b then 1 else 0 }

  /** What the trail and the `rows` signature rows of signer `i` say, against its signer row. */
  ghost predicate Audited(events: seq<Event>, rows: nat, row: SignerRow, i: nat) {
    && Count(events, SignedEvent, Some(i)) == One(row.status == Signed) == rows
    && Count(events, DeclinedEvent, Some(i)) == One(row.status == Declined)
    && Count(events, ViewedEvent, Some(i)) <= 1
    && (row.status in {Pending, Invited} ==> Count(events, ViewedEvent, Some(i)) == 0)
    && (row.status == Viewed ==> Count(events, ViewedEvent, Some(i)) == 1)
    && Count(events, RemindedEvent, Some(i)) == row.reminderCount
    && (row.status != Signed ==> (row.auth == InPerson <==> Count(events, HandedOverEvent, Some(i)) > 0))
  }

  ghost predicate SignerAudited(r: Request, i: nat)
    requires i < |r.signers|
  {
    Audited(r.events, multiset(r.signatures)[i], r.signers[i], i)
  }

  /** What the trail says about the request as a whole. */
  ghost predicate TotalsAudited(r: Request) {
    && Count(r.events, SignedEvent, None) == One(r.status == Completed)
    && CountKind(r.events, SignedEvent) == |r.signatures| + One(r.status == Completed)
    && |r.signatures| == HowMany(r.signers, Signed)
    && CountKind(r.events, DeclinedEvent) == HowMany(r.signers, Declined)
    && multiset(r.jobs)[CompletionMail] == One(r.status == Completed)
  }

  ghost predicate AuditInv(r: Request) {
    && (forall i :: 0 <= i < |r.signers| ==> SignerAudited(r, i))
    && TotalsAudited(r)
  }

  // -------------------------------------------------------- one more entry

  /** How entry `e` about signer `i` may change its row. */
  ghost predicate EntryFits(row: SignerRow, e: Event, after: SignerRow) {
    match e.kind
    case ViewedEvent => row.status in {Pending, Invited} && after == row.(status := Viewed)
    case SignedEvent => row.status in {Invited, Viewed} && after == row.(status := Signed, auth := after.auth)
    case DeclinedEvent => row.status in {Invited, Viewed} && after == row.(status := Declined)
    case RemindedEvent => after == row.(reminderCount := row.reminderCount + 1)
    case HandedOverEvent => row.status != Signed && after == row.(auth := InPerson)
    case _ => after == row
  }

  lemma PushKeepsAudited(events: seq<Event>, rows: nat, row: SignerRow, e: Event, after: SignerRow, i: nat)
    requires Audited(events, rows, row, i)
    requires if e.signer == Some(i) then EntryFits(row, e, after) else after == row
    ensures Audited(events + [e], rows + One(e.signer == Some(i) && e.kind == SignedEvent), after, i)
  {
    CountPush(events, e);
  }

  /** `s` is `r` with entry `e` written about signer `t`, whose row becomes `after`. */
  ghost predicate OneEntry(r: Request, s: Request, t: nat, e: Event, after: SignerRow) {
    && t < |r.signers|
    && s.events == r.events + [e]
    && s.signers == r.signers[t := after]
    && s.signatures == (if e.kind == SignedEvent && e.signer == Some(t) then r.signatures + [t] else r.signatures)
    && (if e.signer == Some(t) then EntryFits(r.signers[t], e, after) else e.signer == None && after == r.signers[t])
  }

  lemma OneEntryKeepsSigners(r: Request, s: Request, t: nat, e: Event, after: SignerRow)
    requires OneEntry(r, s, t, e, after)
    requires forall i :: 0 <= i < |r.signers| ==> SignerAudited(r, i)
    ensures forall i :: 0 <= i < |s.signers| ==> SignerAudited(s, i)
  {
    forall i | 0 <= i < |s.signers| ensures SignerAudited(s, i) {
      assert SignerAudited(r, i);
      PushKeepsAudited(r.events, multiset(r.signatures)[i], r.signers[i], e, s.signers[i], i);
    }
  }

  lemma OneEntryKeeps(r: Request, s: Request, t: nat, e: Event, after: SignerRow)
    requires AuditInv(r) && OneEntry(r, s, t, e, after)
    requires e.kind in {SignedEvent, DeclinedEvent} ==> e.signer == Some(t)
    requires (s.status == Completed) == (r.status == Completed)
    requires multiset(s.jobs)[CompletionMail] == multiset(r.jobs)[CompletionMail]
    ensures AuditInv(s)
  {
    OneEntryKeepsSigners(r, s, t, e, after);
    CountPush(r.events, e);
    HowManyUpdate(r.signers, t, after, Signed);
    HowManyUpdate(r.signers, t, after, Declined);
  }

  lemma CompleteKeeps(c: Request, now: Time)
    requires AuditInv(c) && c.status != Completed && |c.signers| > 0
    ensures AuditInv(Complete(c, now))
  {
    var e := Event(SignedEvent, None, now, PLAIN.(completed := true));
    OneEntryKeepsSigners(c, Complete(c, now), 0, e, c.signers[0]);
    CountPush(c.events, e);
  }

  lemma InviteKeeps(c: Request, next: nat)
    requires AuditInv(c) && next < |c.signers| && c.signers[next].status == Pending
    ensures AuditInv(SetStatus(c, next, Invited).(jobs := c.jobs + [InviteJob(next)]))
  {
    var s := SetStatus(c, next, Invited).(jobs := c.jobs + [InviteJob(next)]);
    HowManyUpdate(c.signers, next, s.signers[next], Signed);
    HowManyUpdate(c.signers, next, s.signers[next], Declined);
    forall i | 0 <= i < |s.signers| ensures SignerAudited(s, i) {
      assert SignerAudited(c, i);
    }
  }

  // ------------------------------------------------------------- each step

  lemma ExpireKeeps(r: Request, now: Time)
    requires Workflow.WorkflowInv(r) && AuditInv(r) && r.Active()
    ensures AuditInv(MarkExpired(r, now))
  {
    OneEntryKeeps(r, MarkExpired(r, now), 0, Event(ExpiredEvent, None, now, PLAIN), r.signers[0]);
  }

  lemma OpenKeeps(r: Request, t: nat, now: Time)
    requires AuditInv(r) && t < |r.signers| && MaySignFromLink(r, t)
    ensures AuditInv(OpenLink(r, t, now))
  {
    if r.signers[t].status != Viewed {
      OneEntryKeeps(r, OpenLink(r, t, now), t, Event(ViewedEvent, Some(t), now, PLAIN), r.signers[t].(status := Viewed));
    }
  }

  lemma CollectedKeeps(r: Request, t: nat, values: map<nat, Value>, certificate: CertificateUse, now: Time)
    requires AuditInv(r) && r.Active() && t < |r.signers| && r.Open(t)
    ensures var c := Collect(r, t, values, certificate, now);
      AuditInv(c) && c.status == r.status && |c.signers| == |r.signers|
  {
    hide AuditInv;
    var c := Collect(r, t, values, certificate, now);
    var e := Event(SignedEvent, Some(t), now, PLAIN.(inPerson := r.signers[t].auth == InPerson));
    OneEntryKeeps(r, c, t, e, c.signers[t]);
  }

  lemma CollectKeeps(r: Request, t: nat, values: map<nat, Value>, certificate: CertificateUse, now: Time)
    requires AuditInv(r) && r.Active() && t < |r.signers| && r.Open(t)
    ensures AuditInv(AdvanceWorkflow(Collect(r, t, values, certificate, now), now))
  {
    hide AuditInv;
    hide AllSigned;
    hide Complete;
    CollectedKeeps(r, t, values, certificate, now);
    var c := Collect(r, t, values, certificate, now);
    hide Collect;
    CompleteKeeps(c, now);
    if FirstPending(c, 0) < |c.signers| { InviteKeeps(c, FirstPending(c, 0)); }
  }

  lemma DeclineKeeps(r: Request, t: nat, now: Time)
    requires AuditInv(r) && r.Active() && t < |r.signers| && r.Open(t)
    ensures AuditInv(RecordDecline(r, t, now))
  {
    OneEntryKeeps(r, RecordDecline(r, t, now), t, Event(DeclinedEvent, Some(t), now, PLAIN), r.signers[t].(status := Declined));
  }

  lemma HandoverKeeps(r: Request, t: nat, now: Time)
    requires AuditInv(r) && t < |r.signers| && r.signers[t].status != Signed
    ensures AuditInv(RecordHandover(r, t, now))
  {
    OneEntryKeeps(r, RecordHandover(r, t, now), t,
                  Event(HandedOverEvent, Some(t), now, PLAIN.(inPerson := true)), r.signers[t].(auth := InPerson));
  }

  lemma RemindKeeps(r: Request, t: nat, automatic: bool, now: Time)
    requires AuditInv(r) && t < |r.signers|
    ensures AuditInv(RemindOne(r, t, automatic, now))
  {
    OneEntryKeeps(r, RemindOne(r, t, automatic, now), t,
                  Event(RemindedEvent, Some(t), now, PLAIN.(automatic := automatic)),
                  r.signers[t].(reminderCount := r.signers[t].reminderCount + 1));
  }

  lemma {:induction false} DispatchKeeps(r: Request, targets: seq<nat>, automatic: bool, now: Time)
    requires forall k :: 0 <= k < |targets| ==> targets[k] < |r.signers|
    requires AuditInv(r)
    ensures AuditInv(DispatchReminders(r, targets, automatic, now))
  {
    if targets != [] {
      var n := |targets| - 1;
      DispatchKeeps(r, targets[..n], automatic, now);
      RemindKeeps(DispatchReminders(r, targets[..n], automatic, now), targets[n], automatic, now);
    }
  }

  lemma SendKeeps(r: Request, rule: ReminderRule, automatic: bool, now: Time)
    requires AuditInv(r)
    ensures AuditInv(SendReminders(r, rule, automatic, now))
  {
    TargetsInRange(r, rule, now, |r.signers|);
    DispatchKeeps(r, ReminderTargets(r, rule, now, |r.signers|), automatic, now);
  }

  lemma LinkCallsKeep(r: Request, t: nat, now: Time)
    requires Workflow.WorkflowInv(r) && AuditInv(r)
    ensures AuditInv(PublicSession(r, t, now).next)
    ensures AuditInv(Decline(r, t, now).next)
  {
    hide AuditInv;
    hide Workflow.WorkflowInv;
    if t < |r.signers| && r.Active() {
      ExpireKeeps(r, now);
      if MaySignFromLink(r, t) { OpenKeeps(r, t, now); }
      if r.Open(t) { DeclineKeeps(r, t, now); }
    }
  }

  lemma SignKeeps(r: Request, t: nat, input: SignInput, now: Time)
    requires Workflow.WorkflowInv(r) && AuditInv(r)
    ensures AuditInv(Sign(r, t, input, now).next)
  {
    hide AuditInv;
    hide Workflow.WorkflowInv;
    SignResults(r, t, input, now);
    if SignAccepted(r, t, input, now) {
      CollectKeeps(r, t, ResolveFieldValues(r, t, input.values).value, input.certificate, now);
    } else if t < |r.signers| && r.Active() {
      ExpireKeeps(r, now);
    }
  }

  lemma HandOverCallKeeps(r: Request, wanted: Option<nat>, now: Time)
    requires Workflow.WorkflowInv(r) && AuditInv(r)
    ensures AuditInv(InPersonSession(r, wanted, now).next)
  {
    hide AuditInv;
    hide Workflow.WorkflowInv;
    var s := InPersonSession(r, wanted, now).next;
    var chosen := ChooseSigner(r, wanted);
    if r.Active() && r.PastDeadline(now) {
      ExpireKeeps(r, now);
    } else if r.Active() && chosen.Success? && r.signers[chosen.value].status != Signed {
      HandoverKeeps(r, chosen.value, now);
      assert s == r || s == RecordHandover(r, chosen.value, now);
    } else {
      assert s == r;
    }
  }

  lemma CancelCallKeeps(r: Request, now: Time)
    requires Workflow.WorkflowInv(r) && AuditInv(r)
    ensures AuditInv(Cancel(r, now).next)
  {
    if r.status != Completed {
      OneEntryKeeps(r, Cancel(r, now).next, 0, Event(CancelledEvent, None, now, PLAIN), r.signers[0]);
    }
  }

  lemma ServeKeeps(cfg: Config, r: Request, call: Call, now: Time)
    requires Workflow.WorkflowInv(r) && AuditInv(r)
    ensures AuditInv(Serve(cfg, r, call, now).next)
  {
    hide AuditInv;
    hide Workflow.WorkflowInv;
    hide PublicSession;
    hide Sign;
    hide Decline;
    hide Cancel;
    hide InPersonSession;
    hide SendReminders;
    match call
    case OpenCall(token) => LinkCallsKeep(r, token, now);
    case SignCall(token, input) => SignKeeps(r, token, input, now);
    case DeclineCall(token) => LinkCallsKeep(r, token, now);
    case CancelCall => CancelCallKeeps(r, now);
    case RemindCall(only) => SendKeeps(r, ReminderRule(DAY_MS, None, only), false, now);
    case SweepCall => SendKeeps(r, SweepRule(cfg), true, now);
    case HandOverCall(wanted) => HandOverCallKeeps(r, wanted, now);
    case EditTemplate(_) =>
  }

  lemma {:induction false} NobodyStartsSigned(rows: seq<SignerRow>)
    requires forall k :: 0 <= k < |rows| ==> rows[k].status in {Pending, Invited}
    ensures HowMany(rows, Signed) == 0 && HowMany(rows, Declined) == 0
  {
    if rows != [] { NobodyStartsSigned(rows[..|rows| - 1]); }
  }

  lemma {:induction false} InvitesAreInvites(rows: seq<SignerRow>)
    ensures CompletionMail !in InviteJobs(rows)
  {
    if rows != [] { InvitesAreInvites(rows[..|rows| - 1]); }
  }

  lemma CreatedKeeps(birth: Birth)
    requires birth.Created().Success?
    ensures AuditInv(birth.Created().value)
  {
    var r := birth.Created().value;
    CreatedFresh(birth);
    NobodyStartsSigned(r.signers);
    FirstEntryCountsNothing(birth.now);
  }

  lemma CreatedFresh(birth: Birth)
    requires birth.Created().Success?
    ensures var r := birth.Created().value;
      && r.status == AwaitingSignature && r.signatures == []
      && r.events == [Event(CreatedEvent, None, birth.now, PLAIN)]
      && CompletionMail !in r.jobs
      && r.lost == birth.lost
      && forall i :: 0 <= i < |r.signers| ==>
        r.signers[i].status in {Pending, Invited} && r.signers[i].reminderCount == 0 && r.signers[i].auth == Unstated
  {
    InvitesAreInvites(birth.Created().value.signers);
  }

  lemma FirstEntryCountsNothing(now: Time)
    ensures var events := [Event(CreatedEvent, None, now, PLAIN)];
      forall kind, who :: kind != CreatedEvent ==> Count(events, kind, who) == 0 && CountKind(events, kind) == 0
  {
    var events := [Event(CreatedEvent, None, now, PLAIN)];
    forall kind, who | kind != CreatedEvent ensures Count(events, kind, who) == 0 && CountKind(events, kind) == 0 {
      FirstEntryIsNot(now, kind, who);
    }
  }

  lemma FirstEntryIsNot(now: Time, kind: EventKind, who: Option<nat>)
    requires kind != CreatedEvent
    ensures var events := [Event(CreatedEvent, None, now, PLAIN)];
      Count(events, kind, who) == 0 && CountKind(events, kind) == 0
  {
    var events := [Event(CreatedEvent, None, now, PLAIN)];
    assert events[..0] == [];
    assert Count(events[..0], kind, who) == 0 && CountKind(events[..0], kind) == 0;
  }

  lemma {:induction false} RunKeeps(cfg: Config, w: World, calls: seq<TimedCall>)
    requires Workflow.WorkflowInv(w.request) && AuditInv(w.request)
    ensures AuditInv(Run(cfg, w, calls).request)
    decreases |calls|
  {
    hide Serve;
    if calls != [] {
      var now := w.now + calls[0].wait;
      ServeKeeps(cfg, w.request, calls[0].call, now);
      Workflow.ServeKeeps(cfg, w.request, calls[0].call, now);
      RunKeeps(cfg, Step(cfg, w, calls[0]), calls[1..]);
    }
  }

  // ------------------------------------------------------------ main results

  /**
   On every run, for each signer: signed events, signature rows and the signed status agree; so do
   declined events and the declined status; a link is recorded as viewed at most once; and the
   reminder counter is the number of reminder events.
   */
  lemma TrailMatchesRows(cfg: Config, w: World, i: nat)
    requires Reachable(cfg, w) && i < |w.request.signers|
    ensures var r := w.request;
      var row := r.signers[i];
      && Count(r.events, SignedEvent, Some(i)) == One(row.status == Signed)
      && multiset(r.signatures)[i] == One(row.status == Signed)
      && Count(r.events, DeclinedEvent, Some(i)) == One(row.status == Declined)
      && Count(r.events, ViewedEvent, Some(i)) <= 1
      && Count(r.events, RemindedEvent, Some(i)) == row.reminderCount
  {
    ReachableInv(cfg, w);
    assert SignerAudited(w.request, i);
  }

  lemma ReachableInv(cfg: Config, w: World)
    requires Reachable(cfg, w)
    ensures AuditInv(w.request)
  {
    var birth, calls :| ReachedBy(cfg, w, birth, calls);
    Workflow.CreatedKeeps(birth);
    CreatedKeeps(birth);
    RunKeeps(cfg, Start(birth), calls);
  }

  /**
   In total: one signature row per signed signer, one signed event per signature row and one more
   exactly when the request is complete, one completion mail exactly then, and one declined event
   per declined signer.
   */
  lemma TrailTotals(cfg: Config, w: World)
    requires Reachable(cfg, w)
    ensures var r := w.request;
      && |r.signatures| == HowMany(r.signers, Signed)
      && CountKind(r.events, SignedEvent) == HowMany(r.signers, Signed) + One(r.status == Completed)
      && CountKind(r.events, DeclinedEvent) == HowMany(r.signers, Declined)
      && multiset(r.jobs)[CompletionMail] == One(r.status == Completed)
  {
    ReachableInv(cfg, w);
  }

  // ------------------------------------------------- in-person marks in the log

  /** A signature is marked in person exactly when a handover of that signer's session came before it. */
  ghost predicate MarkOk(events: seq<Event>, l: nat)
    requires l < |events|
  {
    events[l].kind == SignedEvent && events[l].signer.Some? ==>
      (events[l].meta.inPerson <==> Count(events[..l], HandedOverEvent, events[l].signer) > 0)
  }

  ghost predicate MarksOk(events: seq<Event>) {
    forall l :: 0 <= l < |events| ==> MarkOk(events, l)
  }

  lemma MarksPush(events: seq<Event>, e: Event)
    requires MarksOk(events)
    requires e.kind == SignedEvent && e.signer.Some? ==> (e.meta.inPerson <==> Count(events, HandedOverEvent, e.signer) > 0)
    ensures MarksOk(events + [e])
  {
    var longer := events + [e];
    forall l | 0 <= l < |longer| ensures MarkOk(longer, l) {
      assert longer[..l] == events[..l];
      if l < |events| { assert MarkOk(events, l); } else { assert events[..l] == events; }
    }
  }

  lemma {:induction false} DispatchKeepsMarks(r: Request, targets: seq<nat>, automatic: bool, now: Time)
    requires forall k :: 0 <= k < |targets| ==> targets[k] < |r.signers|
    requires MarksOk(r.events)
    ensures MarksOk(DispatchReminders(r, targets, automatic, now).events)
  {
    if targets != [] {
      var n := |targets| - 1;
      DispatchKeepsMarks(r, targets[..n], automatic, now);
      MarksPush(DispatchReminders(r, targets[..n], automatic, now).events,
                Event(RemindedEvent, Some(targets[n]), now, PLAIN.(automatic := automatic)));
    }
  }

  lemma SignKeepsMarks(r: Request, t: nat, input: SignInput, now: Time)
    requires AuditInv(r) && MarksOk(r.events)
    ensures MarksOk(Sign(r, t, input, now).next.events)
  {
    SignResults(r, t, input, now);
    MarksPush(r.events, Event(ExpiredEvent, None, now, PLAIN));
    if SignAccepted(r, t, input, now) {
      assert SignerAudited(r, t);
      var signed := Event(SignedEvent, Some(t), now, PLAIN.(inPerson := r.signers[t].auth == InPerson));
      MarksPush(r.events, signed);
      MarksPush(r.events + [signed], Event(SignedEvent, None, now, PLAIN.(completed := true)));
    }
  }

  lemma LinkCallsKeepMarks(r: Request, t: nat, now: Time)
    requires MarksOk(r.events)
    ensures MarksOk(PublicSession(r, t, now).next.events)
    ensures MarksOk(Decline(r, t, now).next.events)
  {
    MarksPush(r.events, Event(ExpiredEvent, None, now, PLAIN));
    MarksPush(r.events, Event(ViewedEvent, Some(t), now, PLAIN));
    MarksPush(r.events, Event(DeclinedEvent, Some(t), now, PLAIN));
  }

  lemma OperatorCallsKeepMarks(r: Request, wanted: Option<nat>, now: Time)
    requires MarksOk(r.events)
    ensures MarksOk(InPersonSession(r, wanted, now).next.events)
    ensures MarksOk(Cancel(r, now).next.events)
  {
    MarksPush(r.events, Event(ExpiredEvent, None, now, PLAIN));
    MarksPush(r.events, Event(CancelledEvent, None, now, PLAIN));
    var chosen := ChooseSigner(r, wanted);
    if chosen.Success? {
      MarksPush(r.events, Event(HandedOverEvent, Some(chosen.value), now, PLAIN.(inPerson := true)));
    }
  }

  lemma SendKeepsMarks(r: Request, rule: ReminderRule, automatic: bool, now: Time)
    requires MarksOk(r.events)
    ensures MarksOk(SendReminders(r, rule, automatic, now).events)
  {
    TargetsInRange(r, rule, now, |r.signers|);
    DispatchKeepsMarks(r, ReminderTargets(r, rule, now, |r.signers|), automatic, now);
  }

  lemma ServeKeepsMarks(cfg: Config, r: Request, call: Call, now: Time)
    requires AuditInv(r) && MarksOk(r.events)
    ensures MarksOk(Serve(cfg, r, call, now).next.events)
  {
    match call
    case OpenCall(token) => LinkCallsKeepMarks(r, token, now);
    case SignCall(token, input) => SignKeepsMarks(r, token, input, now);
    case DeclineCall(token) => LinkCallsKeepMarks(r, token, now);
    case CancelCall => OperatorCallsKeepMarks(r, None, now);
    case RemindCall(only) => SendKeepsMarks(r, ReminderRule(DAY_MS, None, only), false, now);
    case SweepCall => SendKeepsMarks(r, SweepRule(cfg), true, now);
    case HandOverCall(wanted) => OperatorCallsKeepMarks(r, wanted, now);
    case EditTemplate(_) =>
  }

  lemma {:induction false} RunKeepsMarks(cfg: Config, w: World, calls: seq<TimedCall>)
    requires Workflow.WorkflowInv(w.request) && AuditInv(w.request) && MarksOk(w.request.events)
    ensures MarksOk(Run(cfg, w, calls).request.events)
    decreases |calls|
  {
    hide Serve;
    if calls != [] {
      var now := w.now + calls[0].wait;
      ServeKeeps(cfg, w.request, calls[0].call, now);
      ServeKeepsMarks(cfg, w.request, calls[0].call, now);
      Workflow.ServeKeeps(cfg, w.request, calls[0].call, now);
      RunKeepsMarks(cfg, Step(cfg, w, calls[0]), calls[1..]);
    }
  }

  /** On every run, a signature is marked in person exactly when the signer's session was handed over before it. */
  lemma InPersonMarkIsEarned(cfg: Config, w: World, l: nat)
    requires Reachable(cfg, w) && l < |w.request.events|
    requires w.request.events[l].kind == SignedEvent && w.request.events[l].signer.Some?
    ensures w.request.events[l].meta.inPerson <==>
      Count(w.request.events[..l], HandedOverEvent, w.request.events[l].signer) > 0
  {
    var birth, calls :| ReachedBy(cfg, w, birth, calls);
    Workflow.CreatedKeeps(birth);
    CreatedKeeps(birth);
    CreatedFresh(birth);
    FirstEntryCountsNothing(birth.now);
    RunKeepsMarks(cfg, Start(birth), calls);
    assert MarkOk(w.request.events, l);
  }

  // ---------------------------------------------------------------- webhooks

  /** Which entries of the trail each webhook stands for. Handovers stand for none, and `RequestSent` for no entry. */
  predicate Announces(e: Event, hook: Webhook) {
    match hook
    case RequestCreated => e.kind == CreatedEvent
    case RequestSent => false
    case RequestViewed => e.kind == ViewedEvent
    case RequestSigned => e.kind == SignedEvent && e.signer.Some?
    case RequestCompleted => e.kind == SignedEvent && e.signer.None?
    case RequestDeclined => e.kind == DeclinedEvent
    case RequestCancelled => e.kind == CancelledEvent
    case RequestExpired => e.kind == ExpiredEvent
    case RequestReminded => e.kind == RemindedEvent
  }

  /** The webhook that announces the entry, if there is one. */
  ghost function Announcement(e: Event): (hook: Option<Webhook>)
    ensures hook.Some? ==> Announces(e, hook.value)
    ensures hook.None? ==> forall h :: !Announces(e, h)
  {
    if exists h :: Announces(e, h) then
      var h :| Announces(e, h);
      Some(h)
    else None
  }

  /** The webhooks that announce the entries of the trail, in order, without those that could not be queued. */
  ghost function Image(events: seq<Event>, lost: set<nat>): seq<Webhook> {
    if events == [] then []
    else
      var n := |events| - 1;
      var hook := Announcement(events[n]);
      if hook.Some? && n !in lost then Image(events[..n], lost) + [hook.value] else Image(events[..n], lost)
  }

  function WithoutSent(webhooks: seq<Webhook>): seq<Webhook> {
    if webhooks == [] then []
    else
      var n := |webhooks| - 1;
      if webhooks[n] == RequestSent then WithoutSent(webhooks[..n]) else WithoutSent(webhooks[..n]) + [webhooks[n]]
  }

  ghost predicate WebhooksOk(r: Request) {
    WithoutSent(r.webhooks) == Image(r.events, r.lost)
  }

  /** An entry about the request as a whole is a signature exactly when it says that the request is complete. */
  predicate MetaFits(kind: EventKind, who: Option<nat>, meta: Metadata) {
    kind == SignedEvent ==> (meta.completed <==> who == None)
  }

  lemma OneHookPerEntry(e: Event, a: Webhook, b: Webhook)
    requires Announces(e, a) && Announces(e, b)
    ensures a == b
  {
  }

  /** What the service emits is what announces the entry. */
  lemma EmitsTheAnnouncement(e: Event)
    requires MetaFits(e.kind, e.signer, e.meta)
    ensures WebhookEventFor(e.kind, e.meta) == Announcement(e)
  {
    var emitted, due := WebhookEventFor(e.kind, e.meta), Announcement(e);
    if emitted.Some? {
      assert Announces(e, emitted.value);
      OneHookPerEntry(e, emitted.value, due.value);
    } else {
      assert e.kind == HandedOverEvent;
    }
  }

  lemma ImagePush(events: seq<Event>, e: Event, lost: set<nat>)
    requires MetaFits(e.kind, e.signer, e.meta)
    ensures var hook := WebhookEventFor(e.kind, e.meta);
      Image(events + [e], lost) == Image(events, lost) + if hook.Some? && |events| !in lost then [hook.value] else []
  {
    EmitsTheAnnouncement(e);
    assert (events + [e])[..|events|] == events;
    hide Announcement;
    hide WebhookEventFor;
  }

  lemma SentPush(webhooks: seq<Webhook>, hook: Webhook)
    requires hook != RequestSent
    ensures WithoutSent(webhooks + [hook]) == WithoutSent(webhooks) + [hook]
  {
    assert (webhooks + [hook])[..|webhooks|] == webhooks;
  }

  lemma RecordKeepsWebhooks(r: Request, kind: EventKind, who: Option<nat>, now: Time, meta: Metadata)
    requires WebhooksOk(r) && MetaFits(kind, who, meta)
    ensures WebhooksOk(RecordEvent(r, kind, who, now, meta))
  {
    hide Image;
    hide WithoutSent;
    ImagePush(r.events, Event(kind, who, now, meta), r.lost);
    if WebhookEventFor(kind, meta).Some? { SentPush(r.webhooks, WebhookEventFor(kind, meta).value); }
  }

  lemma {:induction false} DispatchKeepsWebhooks(r: Request, targets: seq<nat>, automatic: bool, now: Time)
    requires forall k :: 0 <= k < |targets| ==> targets[k] < |r.signers|
    requires WebhooksOk(r)
    ensures WebhooksOk(DispatchReminders(r, targets, automatic, now))
    ensures DispatchReminders(r, targets, automatic, now).lost == r.lost
  {
    if targets != [] {
      var n := |targets| - 1;
      DispatchKeepsWebhooks(r, targets[..n], automatic, now);
      var before := DispatchReminders(r, targets[..n], automatic, now);
      var t := targets[n];
      var row := before.signers[t];
      RecordKeepsWebhooks(before.(jobs := before.jobs + [ReminderJob(t, row.reminderCount + 1)],
                                  signers := before.signers[t := row.(reminderCount := row.reminderCount + 1)]),
                          RemindedEvent, Some(t), now, PLAIN.(automatic := automatic));
    }
  }

  lemma SignKeepsWebhooks(r: Request, t: nat, input: SignInput, now: Time)
    requires WebhooksOk(r)
    ensures WebhooksOk(Sign(r, t, input, now).next) && Sign(r, t, input, now).next.lost == r.lost
  {
    hide Image;
    hide WithoutSent;
    RecordKeepsWebhooks(r.(status := Expired), ExpiredEvent, None, now, PLAIN);
    var values := ResolveFieldValues(r, t, input.values);
    if t < |r.signers| && values.Success? {
      var c := Collect(r, t, values.value, input.certificate, now);
      RecordKeepsWebhooks(r.(signatures := c.signatures, fields := c.fields, signers := c.signers),
                          SignedEvent, Some(t), now, PLAIN.(inPerson := r.signers[t].auth == InPerson));
      assert WebhooksOk(c);
      RecordKeepsWebhooks(c.(status := Completed), SignedEvent, None, now, PLAIN.(completed := true));
      assert WebhooksOk(Complete(c, now));
    }
  }

  lemma LinkCallsKeepWebhooks(r: Request, t: nat, now: Time)
    requires WebhooksOk(r)
    ensures WebhooksOk(PublicSession(r, t, now).next) && PublicSession(r, t, now).next.lost == r.lost
    ensures WebhooksOk(Decline(r, t, now).next) && Decline(r, t, now).next.lost == r.lost
  {
    hide Image;
    hide WithoutSent;
    RecordKeepsWebhooks(r.(status := Expired), ExpiredEvent, None, now, PLAIN);
    if t < |r.signers| {
      RecordKeepsWebhooks(SetStatus(r, t, Viewed), ViewedEvent, Some(t), now, PLAIN);
      RecordKeepsWebhooks(SetStatus(r, t, Declined), DeclinedEvent, Some(t), now, PLAIN);
      assert WebhooksOk(OpenLink(r, t, now));
      assert WebhooksOk(RecordDecline(r, t, now));
    }
  }

  lemma OperatorCallsKeepWebhooks(r: Request, wanted: Option<nat>, now: Time)
    requires WebhooksOk(r)
    ensures WebhooksOk(InPersonSession(r, wanted, now).next) && InPersonSession(r, wanted, now).next.lost == r.lost
    ensures WebhooksOk(Cancel(r, now).next) && Cancel(r, now).next.lost == r.lost
  {
    hide Image;
    hide WithoutSent;
    RecordKeepsWebhooks(r.(status := Expired), ExpiredEvent, None, now, PLAIN);
    RecordKeepsWebhooks(r.(status := Cancelled), CancelledEvent, None, now, PLAIN);
    var chosen := ChooseSigner(r, wanted);
    if chosen.Success? {
      var i := chosen.value;
      RecordKeepsWebhooks(r.(signers := r.signers[i := r.signers[i].(auth := InPerson)]),
                          HandedOverEvent, Some(i), now, PLAIN.(inPerson := true));
    }
  }

  lemma SendKeepsWebhooks(r: Request, rule: ReminderRule, automatic: bool, now: Time)
    requires WebhooksOk(r)
    ensures WebhooksOk(SendReminders(r, rule, automatic, now)) && SendReminders(r, rule, automatic, now).lost == r.lost
  {
    hide Image;
    hide WithoutSent;
    TargetsInRange(r, rule, now, |r.signers|);
    DispatchKeepsWebhooks(r, ReminderTargets(r, rule, now, |r.signers|), automatic, now);
  }

  lemma ServeKeepsWebhooks(cfg: Config, r: Request, call: Call, now: Time)
    requires WebhooksOk(r)
    ensures WebhooksOk(Serve(cfg, r, call, now).next) && Serve(cfg, r, call, now).next.lost == r.lost
  {
    match call
    case OpenCall(token) => LinkCallsKeepWebhooks(r, token, now);
    case SignCall(token, input) => SignKeepsWebhooks(r, token, input, now);
    case DeclineCall(token) => LinkCallsKeepWebhooks(r, token, now);
    case CancelCall => OperatorCallsKeepWebhooks(r, None, now);
    case RemindCall(only) => SendKeepsWebhooks(r, ReminderRule(DAY_MS, None, only), false, now);
    case SweepCall => SendKeepsWebhooks(r, SweepRule(cfg), true, now);
    case HandOverCall(wanted) => OperatorCallsKeepWebhooks(r, wanted, now);
    case EditTemplate(_) =>
  }

  lemma {:induction false} RunKeepsWebhooks(cfg: Config, w: World, calls: seq<TimedCall>)
    requires WebhooksOk(w.request)
    ensures WebhooksOk(Run(cfg, w, calls).request) && Run(cfg, w, calls).request.lost == w.request.lost
    decreases |calls|
  {
    hide Serve;
    if calls != [] {
      ServeKeepsWebhooks(cfg, w.request, calls[0].call, w.now + calls[0].wait);
      RunKeepsWebhooks(cfg, Step(cfg, w, calls[0]), calls[1..]);
    }
  }

  lemma CreatedWebhooks(birth: Birth)
    requires birth.Created().Success?
    ensures WebhooksOk(birth.Created().value)
  {
    hide Image;
    hide WithoutSent;
    CreatedFresh(birth);
    FirstImage(birth.now, birth.lost);
    NewWebhooks(birth);
  }

  lemma NewWebhooks(birth: Birth)
    requires birth.Created().Success?
    ensures var hooks := if 0 in birth.lost then [] else [RequestCreated];
      birth.Created().value.webhooks == hooks || birth.Created().value.webhooks == hooks + [RequestSent]
  {
    hide Image;
    hide WithoutSent;
    hide SortByOrder;
    var ordered := SortByOrder(WithDefaults(birth.input.signers));
    var blank := NewRows(birth.input, ordered, birth.template, birth.lost);
    var created := RecordEvent(blank, CreatedEvent, None, birth.now, PLAIN);
    assert created.webhooks == if 0 in birth.lost then [] else [RequestCreated];
  }

  lemma FirstImage(now: Time, lost: set<nat>)
    ensures var hooks := if 0 in lost then [] else [RequestCreated];
      && Image([Event(CreatedEvent, None, now, PLAIN)], lost) == hooks
      && WithoutSent(hooks) == hooks
      && WithoutSent(hooks + [RequestSent]) == hooks
  {
    var e := Event(CreatedEvent, None, now, PLAIN);
    var hooks := if 0 in lost then [] else [RequestCreated];
    ImagePush([], e, lost);
    SentPush([], RequestCreated);
    SentDropped(hooks);
    NothingYet(lost);
    hide Image;
    hide WithoutSent;
    assert [] + [e] == [e] && [] + [RequestCreated] == [RequestCreated];
  }

  lemma SentDropped(webhooks: seq<Webhook>)
    ensures WithoutSent(webhooks + [RequestSent]) == WithoutSent(webhooks)
  {
    assert (webhooks + [RequestSent])[..|webhooks|] == webhooks;
  }

  lemma NothingYet(lost: set<nat>)
    ensures Image([], lost) == [] && WithoutSent([]) == []
  {
  }

  /**
   On every run, the webhooks emitted are the trail's image in the trail's order, save `RequestSent`
   and the entries the environment lost. When nothing is lost they are the whole image.
   */
  lemma WebhooksAreTheTrail(cfg: Config, w: World)
    requires Reachable(cfg, w)
    ensures WithoutSent(w.request.webhooks) == Image(w.request.events, w.request.lost)
  {
    var birth, calls :| ReachedBy(cfg, w, birth, calls);
    var r := Start(birth).request;
    CreatedWebhooks(birth);
    RunKeepsWebhooks(cfg, Start(birth), calls);
  }

  /** How many entries of the trail stand for that webhook and could be queued. */
  function Announced(events: seq<Event>, lost: set<nat>, hook: Webhook): nat {
    if events == [] then 0
    else
      var n := |events| - 1;
      Announced(events[..n], lost, hook) + One(n !in lost && Announces(events[n], hook))
  }

  lemma AnnouncementIs(e: Event, hook: Webhook)
    ensures Announcement(e) == Some(hook) <==> Announces(e, hook)
  {
    if Announces(e, hook) { OneHookPerEntry(e, hook, Announcement(e).value); }
  }

  lemma {:induction false} ImageCounts(events: seq<Event>, lost: set<nat>, hook: Webhook)
    ensures multiset(Image(events, lost))[hook] == Announced(events, lost, hook)
  {
    hide Announces;
    hide Announcement;
    if events != [] {
      var n := |events| - 1;
      ImageCounts(events[..n], lost, hook);
      AnnouncementIs(events[n], hook);
    }
  }

  lemma {:induction false} SentAside(webhooks: seq<Webhook>, hook: Webhook)
    requires hook != RequestSent
    ensures multiset(WithoutSent(webhooks))[hook] == multiset(webhooks)[hook]
  {
    if webhooks != [] {
      var n := |webhooks| - 1;
      assert webhooks == webhooks[..n] + [webhooks[n]];
      SentAside(webhooks[..n], hook);
    }
  }

  /**
   On every run, each webhook but `RequestSent` has been emitted exactly as often as there are entries
   of its kind in the trail that could be queued: views, signatures by a signer, completions, declines,
   cancellations, expiries, reminders and the creation each have their own, and handovers have none.
   */
  lemma WebhooksCountTheTrail(cfg: Config, w: World, hook: Webhook)
    requires Reachable(cfg, w) && hook != RequestSent
    ensures multiset(w.request.webhooks)[hook] == Announced(w.request.events, w.request.lost, hook)
  {
    WebhooksAreTheTrail(cfg, w);
    SentAside(w.request.webhooks, hook);
    ImageCounts(w.request.events, w.request.lost, hook);
  }
}
