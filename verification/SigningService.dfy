/**
 The signing service as it runs: one object holds a request's rows, and each service call updates
 them step by step. The checks, searches and maps that the source spells as queries and array methods
 are loops over the rows; every call is proved to do exactly what the corresponding step of the model
 does, and to keep the object valid.
 */
module SigningService {
  import opened Prelude
  import opened SigningModel
  import opened RequestInvariant
  import M = SigningModel
  import R = SigningRuns

  function InvitesFor(targets: seq<nat>): seq<Job> {
    if targets == [] then [] else InvitesFor(targets[..|targets| - 1]) + [InviteJob(targets[|targets| - 1])]
  }

  class SigningRequest {
    var mode: Mode
    var status: RequestStatus
    var deadline: Option<Time>
    var signers: seq<SignerRow>
    var fields: seq<RequestField>
    var events: seq<Event>
    var signatures: seq<nat>
    var jobs: seq<Job>
    var webhooks: seq<Webhook>

    /** The positions in the log whose webhook the environment will fail to queue. */
    const lost: set<nat>

    function State(): Request
      reads this
    {
      Request(mode, status, deadline, signers, fields, events, signatures, jobs, webhooks, lost)
    }

    /** What every call keeps. */
    ghost predicate Valid()
      reads this
    {
      Sound(State())
    }

    constructor (r: Request)
      ensures State() == r
    {
      mode, status, deadline := r.mode, r.status, r.deadline;
      signers, fields, events := r.signers, r.fields, r.events;
      signatures, jobs, webhooks := r.signatures, r.jobs, r.webhooks;
      lost := r.lost;
    }

    // ------------------------------------------------------------- helpers

    method RecordEvent(kind: EventKind, who: Option<nat>, now: Time, meta: Metadata)
      modifies this
      ensures State() == M.RecordEvent(old(State()), kind, who, now, meta)
    {
      var position := |events|;
      events := events + [Event(kind, who, now, meta)];
      var hook := WebhookEventFor(kind, meta);
      if hook.Some? {
        if position !in lost {
          webhooks := webhooks + [hook.value];
        }
      }
    }

    method MarkRequestExpired(now: Time)
      modifies this
      ensures State() == M.MarkExpired(old(State()), now)
    {
      status := Expired;
      RecordEvent(ExpiredEvent, None, now, PLAIN);
    }

    method EnqueueInvites(targets: seq<nat>)
      modifies this`jobs
      ensures jobs == old(jobs) + InvitesFor(targets)
    {
      for n := 0 to |targets|
        invariant jobs == old(jobs) + InvitesFor(targets[..n])
      {
        assert targets[..n + 1][..n] == targets[..n];
        jobs := jobs + [InviteJob(targets[n])];
      }
      assert targets[..|targets|] == targets;
    }

    /** Invites everybody whose turn it is, and says so to subscribers. */
    method SendOut(sentLost: bool)
      modifies this
      ensures State() == old(State()).(
        jobs := old(jobs) + InviteJobs(old(signers)),
        webhooks := if sentLost then old(webhooks) else old(webhooks) + [RequestSent])
    {
      InvitesOfInvited(signers);
      EnqueueInvites(InvitedRows(signers));
      if !sentLost {
        webhooks := webhooks + [RequestSent];
      }
    }

    method CaptureFieldValues(values: map<nat, Value>, now: Time)
      modifies this`fields
      ensures fields == M.CaptureFieldValues(old(fields), values, now)
    {
      for n := 0 to |fields|
        invariant |fields| == |old(fields)|
        invariant forall k :: 0 <= k < n ==> fields[k] == M.CaptureFieldValues(old(fields), values, now)[k]
        invariant forall k :: n <= k < |fields| ==> fields[k] == old(fields)[k]
      {
        if n in values {
          fields := fields[n := Captured(fields[n], values[n], now)];
        }
      }
    }

    // ------------------------------------------------- queries over the rows

    /** No real signer with a lower order index is left unsigned. */
    method CanSignerAct(i: nat) returns (can: bool)
      requires i < |signers|
      ensures can == CanAct(State(), i)
    {
      if signers[i].role == CarbonCopy { return false; }
      if mode == Parallel { return true; }
      for n := 0 to |signers|
        invariant forall j :: 0 <= j < n && signers[j].orderIndex < signers[i].orderIndex && State().Acting(j) ==> signers[j].status == Signed
      {
        if signers[n].orderIndex < signers[i].orderIndex && signers[n].role != CarbonCopy && signers[n].status != Signed {
          assert State().Acting(n);
          return false;
        }
      }
      return true;
    }

    method EverybodySigned() returns (all: bool)
      ensures all == AllSigned(State())
    {
      for n := 0 to |signers|
        invariant forall i :: 0 <= i < n && State().Acting(i) ==> signers[i].status == Signed
      {
        if signers[n].role != CarbonCopy && signers[n].status != Signed {
          assert State().Acting(n);
          return false;
        }
      }
      return true;
    }

    /** The first pending real signer; past the end if there is none. */
    method NextPending() returns (next: nat)
      ensures next == FirstPending(State(), 0)
    {
      next := 0;
      while next < |signers|
        invariant next <= |signers| && FirstPending(State(), 0) == FirstPending(State(), next)
      {
        if signers[next].role != CarbonCopy && signers[next].status == Pending { return; }
        next := next + 1;
      }
    }

    method WaitingSigners() returns (waiting: seq<nat>)
      ensures waiting == Waiting(State(), |signers|)
    {
      waiting := [];
      for n := 0 to |signers|
        invariant waiting == Waiting(State(), n)
      {
        if signers[n].role != CarbonCopy && (signers[n].status == Invited || signers[n].status == Viewed) {
          waiting := waiting + [n];
        }
      }
    }

    /** The signers with a reminder after `since`. */
    method RecentlyReminded(since: Time) returns (recent: set<nat>)
      ensures forall i :: i in recent <==> RemindedSince(events, i, since)
    {
      recent := {};
      for n := 0 to |events|
        invariant forall i :: i in recent <==>
          exists k :: 0 <= k < n && events[k].kind == RemindedEvent && events[k].signer == Some(i) && events[k].at > since
      {
        if events[n].kind == RemindedEvent && events[n].at > since && events[n].signer.Some? {
          recent := recent + {events[n].signer.value};
        }
      }
    }

    // ------------------------------------------------------------- the fields

    method FieldsOf(i: nat) returns (requested: seq<nat>)
      ensures forall f: nat :: f in requested <==> Requested(State(), i, f)
    {
      requested := [];
      for f := 0 to |fields|
        invariant forall g: nat :: g in requested <==> g < f && Requested(State(), i, g)
      {
        if fields[f].owner == Some(i) { requested := requested + [f]; }
      }
    }

    /** The values to store, or what is wrong with them: a field of somebody else, or a required one left empty. */
    method ResolveFieldValues(i: nat, input: seq<(nat, Value)>) returns (values: Result<map<nat, Value>, Refusal>)
      ensures values == M.ResolveFieldValues(State(), i, input)
    {
      var requested := FieldsOf(i);
      if |requested| == 0 {
        assert forall f :: 0 <= f < |fields| ==> !Requested(State(), i, f) by {
          assert forall f :: Requested(State(), i, f) ==> f in requested;
        }
        return Success(map[]);
      }
      assert Requested(State(), i, requested[0]);
      var submitted := BuildMap(input);
      SubmittedKeys(input);
      for n := 0 to |input|
        invariant forall k :: 0 <= k < n ==> Requested(State(), i, input[k].0)
      {
        if input[n].0 !in requested {
          assert input[n].0 in submitted;
          return Failure(UnknownField);
        }
      }
      assert forall f :: f in submitted ==> Requested(State(), i, f);
      for n := 0 to |requested|
        invariant forall k :: 0 <= k < n ==> !LeftEmpty(State(), submitted, requested[k])
      {
        var f := requested[n];
        assert f in requested;
        if fields[f].required && IsEmpty(if f in submitted then submitted[f] else Undefined) {
          return Failure(MissingField);
        }
      }
      NothingMissing(State(), i, submitted, requested);
      return Success(submitted);
    }

    method AdvanceWorkflow(now: Time)
      modifies this
      ensures State() == M.AdvanceWorkflow(old(State()), now)
    {
      var allSigned := EverybodySigned();
      if allSigned {
        status := Completed;
        RecordEvent(SignedEvent, None, now, PLAIN.(completed := true));
        jobs := EnqueueCompletionMail(jobs);
        return;
      }
      if mode == Sequential {
        var next := NextPending();
        if next < |signers| {
          signers := signers[next := signers[next].(status := Invited)];
          assert [next][..0] == [];
          EnqueueInvites([next]);
        }
      }
    }

    // --------------------------------------------------------- public flow

    method PublicSession(token: nat, now: Time) returns (reply: Result<Reply, Refusal>)
      requires Valid()
      modifies this
      ensures Outcome(State(), reply) == M.PublicSession(old(State()), token, now)
      ensures Valid()
    {
      hide Sound;
      ServeKeepsSound(ANY_CONFIG, State(), R.OpenCall(token), now);
      if token >= |signers| || !State().Active()
         || signers[token].status == Declined || signers[token].status == Lapsed {
        return Failure(SessionNotFound);
      }
      if State().PastDeadline(now) {
        MarkRequestExpired(now);
        return Failure(SessionExpired);
      }
      var canSign := CanSignerAct(token);
      canSign := canSign && signers[token].status in {Pending, Invited, Viewed};
      if signers[token].status == Pending && canSign {
        signers := signers[token := signers[token].(status := Invited)];
      }
      if signers[token].status == Invited && canSign {
        signers := signers[token := signers[token].(status := Viewed)];
        RecordEvent(ViewedEvent, Some(token), now, PLAIN);
      }
      return Success(Opened(canSign));
    }

    /** Why the signer may not sign now, if so. */
    method CheckSigner(token: nat) returns (refusal: Option<Refusal>)
      requires token < |signers|
      ensures refusal == SignCheck(State(), token)
    {
      var signer := signers[token];
      if signer.role == CarbonCopy { return Some(CarbonCopyCannotAct); }
      if signer.status == Signed { return Some(AlreadySigned); }
      if signer.status == Declined { return Some(AlreadyDeclined); }
      if signer.status != Invited && signer.status != Viewed { return Some(NotYourTurn); }
      var can := CanSignerAct(token);
      return if can then None else Some(NotYourTurn);
    }

    method Sign(token: nat, input: SignInput, now: Time) returns (reply: Result<Reply, Refusal>)
      requires Valid()
      modifies this
      ensures Outcome(State(), reply) == M.Sign(old(State()), token, input, now)
      ensures Valid()
    {
      hide Sound;
      hide M.ResolveFieldValues;
      hide M.AdvanceWorkflow;
      hide SignCheck;
      ServeKeepsSound(ANY_CONFIG, State(), R.SignCall(token, input), now);
      if token >= |signers| { return Failure(SessionNotFound); }
      if !State().Active() { return Failure(NotActive); }
      if State().PastDeadline(now) {
        MarkRequestExpired(now);
        return Failure(RequestExpiredNow);
      }
      var refusal := CheckSigner(token);
      if refusal.Some? { return Failure(refusal.value); }
      if !input.hashMatches { return Failure(HashMismatch); }
      var values := ResolveFieldValues(token, input.values);
      if values.Failure? { return Failure(values.error); }
      if input.certificate == Refused { return Failure(CertificateRefused); }
      if token in signatures { return Failure(AlreadySigned); }
      var signer := signers[token];
      signatures := signatures + [token];
      CaptureFieldValues(values.value, now);
      signers := signers[token := signer.(status := Signed,
                                          auth := if input.certificate == Issued then Certificate else signer.auth)];
      RecordEvent(SignedEvent, Some(token), now, PLAIN.(inPerson := signer.auth == InPerson));
      AdvanceWorkflow(now);
      return Success(Accepted);
    }

    method Decline(token: nat, now: Time) returns (reply: Result<Reply, Refusal>)
      requires Valid()
      modifies this
      ensures Outcome(State(), reply) == M.Decline(old(State()), token, now)
      ensures Valid()
    {
      hide Sound;
      ServeKeepsSound(ANY_CONFIG, State(), R.DeclineCall(token), now);
      if token >= |signers| { return Failure(SessionNotFound); }
      if !State().Active() { return Failure(NotActive); }
      if State().PastDeadline(now) {
        MarkRequestExpired(now);
        return Failure(RequestExpiredNow);
      }
      if signers[token].role == CarbonCopy { return Failure(CarbonCopyCannotAct); }
      if signers[token].status == Signed { return Failure(AlreadySigned); }
      if signers[token].status == Declined { return Failure(AlreadyDeclined); }
      if signers[token].status != Invited && signers[token].status != Viewed { return Failure(NotReady); }
      var can := CanSignerAct(token);
      if !can { return Failure(NotYourTurn); }
      signers := signers[token := signers[token].(status := Declined)];
      RecordEvent(DeclinedEvent, Some(token), now, PLAIN);
      if mode == Sequential {
        status := InProgress;
      }
      return Success(Accepted);
    }

    // ------------------------------------------------------------- control

    method Cancel(now: Time) returns (reply: Result<Reply, Refusal>)
      requires Valid()
      modifies this
      ensures Outcome(State(), reply) == M.Cancel(old(State()), now)
      ensures Valid()
    {
      hide Sound;
      ServeKeepsSound(ANY_CONFIG, State(), R.CancelCall, now);
      if status == Completed { return Failure(CannotCancelCompleted); }
      status := Cancelled;
      RecordEvent(CancelledEvent, None, now, PLAIN);
      return Success(Accepted);
    }

    method EligibleReminderTargets(rule: ReminderRule, now: Time) returns (targets: seq<nat>)
      ensures targets == ReminderTargets(State(), rule, now, |signers|)
    {
      hide CanAct;
      hide RemindedSince;
      targets := [];
      var recentlyReminded := RecentlyReminded(now - rule.minInterval);
      for n := 0 to |signers|
        invariant targets == ReminderTargets(State(), rule, now, n)
      {
        if (rule.only == None || rule.only == Some(n)) && (signers[n].status == Invited || signers[n].status == Viewed) {
          if n !in recentlyReminded && (rule.cap == None || signers[n].reminderCount < rule.cap.value) {
            var can := CanSignerAct(n);
            if can { targets := targets + [n]; }
          }
        }
      }
    }

    method DispatchReminders(targets: seq<nat>, automatic: bool, now: Time)
      requires forall k :: 0 <= k < |targets| ==> targets[k] < |signers|
      modifies this
      ensures State() == M.DispatchReminders(old(State()), targets, automatic, now)
    {
      for n := 0 to |targets|
        invariant State() == M.DispatchReminders(old(State()), targets[..n], automatic, now)
      {
        var i := targets[n];
        assert targets[..n + 1][..n] == targets[..n];
        jobs := jobs + [ReminderJob(i, signers[i].reminderCount + 1)];
        signers := signers[i := signers[i].(reminderCount := signers[i].reminderCount + 1)];
        RecordEvent(RemindedEvent, Some(i), now, PLAIN.(automatic := automatic));
      }
      assert targets[..|targets|] == targets;
    }

    method Remind(only: Option<nat>, now: Time) returns (reply: Result<Reply, Refusal>)
      requires Valid()
      modifies this
      ensures Outcome(State(), reply) == M.Remind(old(State()), only, now)
      ensures Valid()
    {
      hide Sound;
      ServeKeepsSound(ANY_CONFIG, State(), R.RemindCall(only), now);
      if status != AwaitingSignature && status != InProgress { return Failure(NotAwaiting); }
      TargetsInRange(State(), ReminderRule(DAY_MS, None, only), now, |signers|);
      var targets := EligibleReminderTargets(ReminderRule(DAY_MS, None, only), now);
      DispatchReminders(targets, false, now);
      return Success(Enqueued(|targets|));
    }

    /** The signer the device is handed to: the one named, or the only one waiting. */
    method ChoosePresent(wanted: Option<nat>) returns (chosen: Result<nat, Refusal>)
      ensures chosen == ChooseSigner(State(), wanted)
    {
      var waiting := WaitingSigners();
      if wanted.Some? {
        if wanted.value >= |signers| || signers[wanted.value].role == CarbonCopy {
          return Failure(SignerNotOnRequest);
        }
        return Success(wanted.value);
      }
      if |waiting| == 1 { return Success(waiting[0]); }
      if |waiting| == 0 { return Failure(NobodyWaiting); }
      return Failure(SignerIdRequired);
    }

    method InPersonSession(wanted: Option<nat>, now: Time) returns (reply: Result<Reply, Refusal>)
      requires Valid()
      modifies this
      ensures Outcome(State(), reply) == M.InPersonSession(old(State()), wanted, now)
      ensures Valid()
    {
      hide Sound;
      ServeKeepsSound(ANY_CONFIG, State(), R.HandOverCall(wanted), now);
      if !State().Active() { return Failure(NotActive); }
      if State().PastDeadline(now) {
        MarkRequestExpired(now);
        return Failure(RequestExpiredNow);
      }
      var chosen := ChoosePresent(wanted);
      if chosen.Failure? { return Failure(chosen.error); }
      var i := chosen.value;
      if signers[i].status == Signed { return Failure(AlreadySigned); }
      if signers[i].status == Declined { return Failure(AlreadyDeclined); }
      var can := CanSignerAct(i);
      if !CanSignNow(mode, signers[i]) || !can { return Failure(NotYourTurn); }
      signers := signers[i := signers[i].(auth := InPerson)];
      RecordEvent(HandedOverEvent, Some(i), now, PLAIN.(inPerson := true));
      return Success(HandedTo(i));
    }
  }

  /** What a call keeps does not depend on the configuration. */
  const ANY_CONFIG := Config(false, 0, 0)

  /** A map from pairs, later entries winning. */
  method BuildMap(input: seq<(nat, Value)>) returns (submitted: map<nat, Value>)
    ensures submitted == Submitted(input)
  {
    submitted := map[];
    for n := 0 to |input|
      invariant submitted == Submitted(input[..n])
    {
      assert input[..n + 1][..n] == input[..n];
      submitted := submitted[input[n].0 := input[n].1];
    }
    assert input[..|input|] == input;
  }

  lemma {:induction false} SubmittedKeys(input: seq<(nat, Value)>)
    ensures forall f :: f in Submitted(input) <==> exists k :: 0 <= k < |input| && input[k].0 == f
  {
    if input != [] {
      var n := |input| - 1;
      SubmittedKeys(input[..n]);
      assert forall k :: 0 <= k < n ==> input[..n][k] == input[k];
    }
  }

  predicate LeftEmpty(r: Request, submitted: map<nat, Value>, f: nat) {
    f < |r.fields| && r.fields[f].required && IsEmpty(ValueOf(submitted, f))
  }

  lemma NothingMissing(r: Request, i: nat, submitted: map<nat, Value>, requested: seq<nat>)
    requires forall f: nat :: f in requested <==> Requested(r, i, f)
    requires forall k :: 0 <= k < |requested| ==> !LeftEmpty(r, submitted, requested[k])
    ensures forall f :: 0 <= f < |r.fields| && Requested(r, i, f) && r.fields[f].required ==> !IsEmpty(ValueOf(submitted, f))
  {
    forall f | 0 <= f < |r.fields| && Requested(r, i, f) && r.fields[f].required ensures !IsEmpty(ValueOf(submitted, f)) {
      assert f in requested;
    }
  }

  // ---------------------------------------------------------------- sweeping

  function TotalCount(cfg: Config, states: seq<Request>, now: Time): nat {
    if states == [] then 0
    else TotalCount(cfg, states[..|states| - 1], now) + SweepCount(cfg, states[|states| - 1], now)
  }

  function SelectedCount(cfg: Config, states: seq<Request>, now: Time): nat {
    if states == [] || !cfg.smtpHost then 0
    else SelectedCount(cfg, states[..|states| - 1], now) + if SelectedBySweep(states[|states| - 1], now) then 1 else 0
  }

  function Entries(states: seq<Request>): nat {
    if states == [] then 0 else Entries(states[..|states| - 1]) + |states[|states| - 1].events|
  }

  lemma {:induction false} DispatchGrows(r: Request, targets: seq<nat>, now: Time)
    requires forall k :: 0 <= k < |targets| ==> targets[k] < |r.signers|
    ensures |M.DispatchReminders(r, targets, true, now).events| == |r.events| + |targets|
  {
    if targets != [] { DispatchGrows(r, targets[..|targets| - 1], now); }
  }

  lemma SweepGrows(cfg: Config, r: Request, now: Time)
    ensures |SweepRequest(cfg, r, now).events| == |r.events| + SweepCount(cfg, r, now)
  {
    TargetsInRange(r, SweepRule(cfg), now, |r.signers|);
    DispatchGrows(r, ReminderTargets(r, SweepRule(cfg), now, |r.signers|), now);
  }

  /** A running request before its deadline with somebody who is invited or has opened the link. */
  ghost predicate Due(r: Request, now: Time) {
    && (r.status == AwaitingSignature || r.status == InProgress)
    && (r.deadline.Some? ==> now < r.deadline.value)
    && exists row :: row in r.signers && (row.status == Invited || row.status == Viewed)
  }

  ghost function DueAmong(states: seq<Request>, now: Time): set<nat> {
    set k: nat | k < |states| && Due(states[k], now)
  }

  lemma SelectedMeansDue(r: Request, now: Time)
    ensures SelectedBySweep(r, now) <==> Due(r, now)
  {
    if i: nat :| i < |r.signers| && r.Open(i) { assert r.signers[i] in r.signers; }
    if row :| row in r.signers && (row.status == Invited || row.status == Viewed) {
      var i: nat :| i < |r.signers| && r.signers[i] == row;
      assert r.Open(i);
    }
  }

  /** The totals the sweep returns: one per request that is due, if mail can be sent, and one per entry written. */
  lemma {:induction false} SweepTotals(cfg: Config, states: seq<Request>, after: seq<Request>, now: Time)
    requires |after| == |states| && forall k :: 0 <= k < |states| ==> after[k] == SweepRequest(cfg, states[k], now)
    ensures SelectedCount(cfg, states, now) == if cfg.smtpHost then |DueAmong(states, now)| else 0
    ensures Entries(after) == Entries(states) + TotalCount(cfg, states, now)
  {
    hide SweepRequest;
    hide SweepCount;
    hide SelectedBySweep;
    hide Due;
    if states != [] {
      var n := |states| - 1;
      SweepTotals(cfg, states[..n], after[..n], now);
      SweepGrows(cfg, states[n], now);
      SelectedMeansDue(states[n], now);
      assert DueAmong(states, now) == DueAmong(states[..n], now) + if Due(states[n], now) then {n} else {};
    }
  }

  function Snapshots(requests: seq<SigningRequest>): (states: seq<Request>)
    reads requests
    ensures |states| == |requests|
  {
    seq(|requests|, k requires 0 <= k < |requests| reads requests => requests[k].State())
  }

  /** One request of the sweep: reminds on it if it is selected, and returns how many reminders that was. */
  method SweepOne(cfg: Config, request: SigningRequest, now: Time) returns (selected: bool, enqueued: nat)
    requires request.Valid() && cfg.smtpHost
    modifies request
    ensures request.State() == SweepRequest(cfg, old(request.State()), now) && request.Valid()
    ensures selected == SelectedBySweep(old(request.State()), now) && enqueued == SweepCount(cfg, old(request.State()), now)
  {
    hide Sound;
    ServeKeepsSound(cfg, request.State(), R.SweepCall, now);
    selected, enqueued := SelectedBySweep(request.State(), now), 0;
    if selected {
      TargetsInRange(request.State(), SweepRule(cfg), now, |request.signers|);
      var targets := request.EligibleReminderTargets(SweepRule(cfg), now);
      request.DispatchReminders(targets, true, now);
      enqueued := |targets|;
    }
  }

  /** Reminds on every selected request, one after the other; the others are left as they are. */
  method SweepDueReminders(cfg: Config, requests: seq<SigningRequest>, now: Time) returns (selected: nat, enqueued: nat)
    requires forall i, j :: 0 <= i < j < |requests| ==> requests[i] != requests[j]
    requires forall k :: 0 <= k < |requests| ==> requests[k].Valid()
    modifies requests
    ensures forall k :: 0 <= k < |requests| ==> requests[k].State() == SweepRequest(cfg, old(requests[k].State()), now)
    ensures forall k :: 0 <= k < |requests| ==> requests[k].Valid()
    ensures selected == SelectedCount(cfg, old(Snapshots(requests)), now)
    ensures enqueued == TotalCount(cfg, old(Snapshots(requests)), now)
  {
    hide SweepRequest;
    hide SweepCount;
    hide SelectedBySweep;
    hide Sound;
    selected, enqueued := 0, 0;
    ghost var states := Snapshots(requests);
    if !cfg.smtpHost {
      NothingWithoutMail(cfg, states, now);
      forall k | 0 <= k < |requests| ensures requests[k].State() == SweepRequest(cfg, requests[k].State(), now) {
        NotSwept(cfg, requests[k].State(), now);
      }
      return;
    }
    for n := 0 to |requests|
      invariant forall k :: 0 <= k < n ==> requests[k].State() == SweepRequest(cfg, old(requests[k].State()), now)
      invariant forall k :: n <= k < |requests| ==> requests[k].State() == old(requests[k].State())
      invariant forall k :: 0 <= k < |requests| ==> requests[k].Valid()
      invariant selected == SelectedCount(cfg, states[..n], now) && enqueued == TotalCount(cfg, states[..n], now)
    {
      assert states[n] == requests[n].State();
      assert states[..n + 1][..n] == states[..n];
      var chosen, count := SweepOne(cfg, requests[n], now);
      if chosen { selected := selected + 1; }
      enqueued := enqueued + count;
    }
    assert states[..|requests|] == states;
  }

  lemma NotSwept(cfg: Config, r: Request, now: Time)
    requires !cfg.smtpHost
    ensures SweepRequest(cfg, r, now) == r
  {
  }

  lemma {:induction false} NothingWithoutMail(cfg: Config, states: seq<Request>, now: Time)
    requires !cfg.smtpHost
    ensures TotalCount(cfg, states, now) == 0 && SelectedCount(cfg, states, now) == 0
  {
    if states != [] { NothingWithoutMail(cfg, states[..|states| - 1], now); }
  }

  // ---------------------------------------------------------------- creating

  /** The given signers, their missing order indexes filled in, put in order one at a time. */
  method OrderSigners(given: seq<NewSigner>) returns (ordered: seq<OrderedSigner>)
    ensures ordered == SortByOrder(WithDefaults(given))
  {
    ordered := [];
    ghost var all := WithDefaults(given);
    for n := 0 to |given|
      invariant ordered == SortByOrder(all[..n])
    {
      assert all[..n + 1][..n] == all[..n];
      var role := if given[n].role.Some? then given[n].role.value else Signer;
      var order := if given[n].orderIndex.Some? then given[n].orderIndex.value else n;
      ordered := InsertSigner(OrderedSigner(given[n].email, role, order), ordered);
    }
    assert all[..|given|] == all;
  }

  /** Behind every signer with the same or a lower order index. */
  method InsertSigner(s: OrderedSigner, sorted: seq<OrderedSigner>) returns (longer: seq<OrderedSigner>)
    ensures longer == InsertByOrder(s, sorted)
  {
    var k := |sorted|;
    assert sorted[..k] == sorted && sorted[k..] == [];
    while k > 0 && sorted[k - 1].orderIndex > s.orderIndex
      invariant k <= |sorted|
      invariant InsertByOrder(s, sorted) == InsertByOrder(s, sorted[..k]) + sorted[k..]
    {
      assert sorted[..k][..k - 1] == sorted[..k - 1];
      assert [sorted[k - 1]] + sorted[k..] == sorted[k - 1..];
      k := k - 1;
    }
    longer := sorted[..k] + [s] + sorted[k..];
  }

  /** As many different emails as signers. */
  method NoDuplicateEmails(ordered: seq<OrderedSigner>) returns (none: bool)
    ensures none == DistinctEmails(ordered)
  {
    var emails: set<string> := {};
    for n := 0 to |ordered|
      invariant |emails| <= n
      invariant forall e :: e in emails <==> exists k :: 0 <= k < n && ordered[k].email == e
      invariant |emails| == n <==> forall i, j :: 0 <= i < j < n ==> ordered[i].email != ordered[j].email
    {
      assert ordered[n].email in emails ==> emails + {ordered[n].email} == emails;
      emails := emails + {ordered[n].email};
    }
    return |emails| == |ordered|;
  }

  /** As many different order indexes as signers. */
  method NoDuplicateOrder(ordered: seq<OrderedSigner>) returns (none: bool)
    ensures none == DistinctOrder(ordered)
  {
    var orders: set<nat> := {};
    for n := 0 to |ordered|
      invariant |orders| <= n
      invariant forall x :: x in orders <==> exists k :: 0 <= k < n && ordered[k].orderIndex == x
      invariant |orders| == n <==> forall i, j :: 0 <= i < j < n ==> ordered[i].orderIndex != ordered[j].orderIndex
    {
      assert ordered[n].orderIndex in orders ==> orders + {ordered[n].orderIndex} == orders;
      orders := orders + {ordered[n].orderIndex};
    }
    return |orders| == |ordered|;
  }

  /** The template's fields, unless one is out of range or, failing that, one is an attachment. */
  method TemplatePlacements(template: seq<TemplateField>, signerCount: nat) returns (placements: Result<seq<TemplateField>, Refusal>)
    ensures placements == LoadTemplatePlacements(template, signerCount)
  {
    for n := 0 to |template|
      invariant forall k :: 0 <= k < n ==> template[k].assigneeOrder < signerCount
    {
      if template[n].assigneeOrder >= signerCount { return Failure(AssigneeOutOfRange); }
    }
    for n := 0 to |template|
      invariant forall k :: 0 <= k < n ==> !template[k].attachment
    {
      if template[n].attachment { return Failure(AttachmentField); }
    }
    return Success(template);
  }

  /** One row per signer; in sequential mode only the first is invited. */
  method BuildRows(mode: Mode, ordered: seq<OrderedSigner>) returns (rows: seq<SignerRow>)
    ensures rows == InitialRows(mode, ordered)
  {
    rows := [];
    for n := 0 to |ordered|
      invariant rows == InitialRows(mode, ordered)[..n]
    {
      var status := if mode == Sequential && n > 0 then Pending else Invited;
      rows := rows + [SignerRow(ordered[n].email, ordered[n].role, ordered[n].orderIndex, status, 0, Unstated)];
    }
  }

  /** Each placement bound through a map from order index to row. */
  method BindPlacements(placements: seq<TemplateField>, rows: seq<SignerRow>) returns (fields: seq<RequestField>)
    ensures fields == PlacementsForRequest(placements, rows)
  {
    var signerByOrder: map<nat, nat> := map[];
    for n := 0 to |rows|
      invariant forall o: nat :: SignerByOrder(rows[..n], o) == if o in signerByOrder then Some(signerByOrder[o]) else None
    {
      assert rows[..n + 1][..n] == rows[..n];
      signerByOrder := signerByOrder[rows[n].orderIndex := n];
    }
    assert rows[..|rows|] == rows;
    fields := [];
    for n := 0 to |placements|
      invariant fields == PlacementsForRequest(placements, rows)[..n]
    {
      var p := placements[n];
      var owner := if p.assigneeOrder in signerByOrder then Some(signerByOrder[p.assigneeOrder]) else None;
      fields := fields + [RequestField(owner, p.name, p.required, Undefined, None)];
    }
  }

  method CreateRequest(input: NewRequest, template: seq<TemplateField>, now: Time, lost: set<nat>, sentLost: bool)
      returns (result: Result<SigningRequest, Refusal>)
    ensures result.Success? ==> fresh(result.value) && result.value.Valid()
    ensures var expected := M.CreateRequest(input, template, now, lost, sentLost);
      if result.Success? then expected == Success(result.value.State()) else expected == Failure(result.error)
  {
    hide Sound;
    hide SortByOrder;
    hide LoadTemplatePlacements;
    hide InitialRows;
    hide PlacementsForRequest;
    if !input.documentFound { return Failure(DocumentNotFound); }
    if input.documentCompleted { return Failure(DocumentCompleted); }
    if |input.signers| == 0 { return Failure(NoSigners); }
    if |input.signers| > MAX_SIGNERS { return Failure(TooManySigners); }
    var ordered := OrderSigners(input.signers);
    var distinct := NoDuplicateEmails(ordered);
    if !distinct { return Failure(DuplicateEmails); }
    distinct := NoDuplicateOrder(ordered);
    if !distinct { return Failure(DuplicateOrder); }
    if input.ruleTargetGiven { return Failure(RuleTargetGiven); }
    var mode := if input.mode.Some? then input.mode.value else Sequential;
    var placements := TemplatePlacements(template, |ordered|);
    if placements.Failure? { return Failure(placements.error); }
    var rows := BuildRows(mode, ordered);
    var fields := BindPlacements(placements.value, rows);
    var request := new SigningRequest(Request(mode, AwaitingSignature, input.deadline, rows, fields, [], [], [], [], lost));
    request.RecordEvent(CreatedEvent, None, now, PLAIN);
    if input.sendInvites {
      request.SendOut(sentLost);
      assert [] + InviteJobs(request.signers) == InviteJobs(request.signers);
    }
    CreatedSound(R.Birth(input, template, now, lost, sentLost));
    return Success(request);
  }

  function InvitedRows(rows: seq<SignerRow>): seq<nat> {
    if rows == [] then []
    else if rows[|rows| - 1].status == Invited then InvitedRows(rows[..|rows| - 1]) + [|rows| - 1]
    else InvitedRows(rows[..|rows| - 1])
  }

  lemma {:induction false} InvitesOfInvited(rows: seq<SignerRow>)
    ensures InvitesFor(InvitedRows(rows)) == InviteJobs(rows)
  {
    if rows != [] {
      InvitesOfInvited(rows[..|rows| - 1]);
      var earlier := InvitedRows(rows[..|rows| - 1]);
      assert (earlier + [|rows| - 1])[..|earlier|] == earlier;
    }
  }
}
