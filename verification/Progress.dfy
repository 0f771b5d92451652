/**
 The workflow never gets stuck by itself: from any active state it can be finished, every change of
 a signer's status is a step down a ladder, and what a signing page says about signing is what a
 signing call does.
 */
module Progress {
  import opened Prelude
  import opened SigningModel
  import opened SigningRuns
  import Workflow
  import AuditTrail

  // --------------------------------------------------------------- the plan

  /** A value for every field the signer must fill, among the first `n` fields. */
  function FillAll(r: Request, i: nat, n: nat): seq<(nat, Value)>
    requires n <= |r.fields|
  {
    if n == 0 then []
    else if Requested(r, i, n - 1) then
      var last: nat := n - 1;
      FillAll(r, i, last) + [(last, Text("x"))]
    else FillAll(r, i, n - 1)
  }

  lemma SubmittedPush(input: seq<(nat, Value)>, f: nat, v: Value)
    ensures Submitted(input + [(f, v)]) == Submitted(input)[f := v]
  {
    assert (input + [(f, v)])[..|input|] == input;
  }

  lemma {:induction false} FillAllFills(r: Request, i: nat, n: nat)
    requires n <= |r.fields|
    ensures Submitted(FillAll(r, i, n)) == map f: nat | 0 <= f < n && Requested(r, i, f) :: Text("x")
  {
    if n > 0 {
      var last: nat := n - 1;
      FillAllFills(r, i, last);
      SubmittedPush(FillAll(r, i, last), last, Text("x"));
    }
  }

  function RequiredValues(r: Request, i: nat): SignInput {
    SignInput(true, FillAll(r, i, |r.fields|), NoCertificate)
  }

  lemma RequiredValuesResolve(r: Request, i: nat)
    ensures ResolveFieldValues(r, i, RequiredValues(r, i).values).Success?
  {
    FillAllFills(r, i, |r.fields|);
    assert !IsEmpty(Text("x")) by {
      assert !IsSpace("x"[0]);
    }
  }

  /** Open the link, then sign with the required values, both at once. */
  function OpenAndSign(r: Request, i: nat): seq<TimedCall> {
    [TimedCall(0, OpenCall(i)), TimedCall(0, SignCall(i, RequiredValues(r, i)))]
  }

  /** Each unsigned real signer from row `from` on opens its link and signs, in row order. */
  function FinishPlan(cfg: Config, w: World, from: nat): seq<TimedCall>
    requires from <= |w.request.signers|
    decreases |w.request.signers| - from
  {
    if from == |w.request.signers| then []
    else if w.request.Acting(from) && w.request.signers[from].status != Signed then
      var two := OpenAndSign(w.request, from);
      var later := Run(cfg, w, two);
      if |later.request.signers| == |w.request.signers| then two + FinishPlan(cfg, later, from + 1) else two
    else FinishPlan(cfg, w, from + 1)
  }

  function Unsigned(r: Request, from: nat): nat
    requires from <= |r.signers|
    decreases |r.signers| - from
  {
    if from == |r.signers| then 0
    else Unsigned(r, from + 1) + if r.Acting(from) && r.signers[from].status != Signed then 1 else 0
  }

  /** Ready to be finished: nobody declined, the deadline is ahead, and everybody before `from` has signed. */
  ghost predicate ReadyAt(r: Request, now: Time, from: nat) {
    && from <= |r.signers|
    && Workflow.WorkflowInv(r) && AuditTrail.AuditInv(r)
    && (r.Active() || r.status == Completed) && !r.PastDeadline(now)
    && Workflow.HasRealSigner(r)
    && (forall i :: 0 <= i < |r.signers| && r.Acting(i) ==> r.signers[i].status != Declined)
    && (forall i :: 0 <= i < from && r.Acting(i) ==> r.signers[i].status == Signed)
  }

  ghost predicate Ready(w: World, from: nat) {
    ReadyAt(w.request, w.now, from)
  }

  lemma RunTwo(cfg: Config, w: World, a: TimedCall, b: TimedCall)
    ensures Run(cfg, w, [a, b]) == Step(cfg, Step(cfg, w, a), b)
  {
    hide Serve;
    var next := Step(cfg, w, a);
    assert [a, b][1..] == [b] && [b][1..] == [];
    assert Run(cfg, next, [b]) == Run(cfg, Step(cfg, next, b), []);
  }

  /** A signer whose turn it is gets its signature in with two calls. */
  lemma OpenAndSignSigns(r: Request, i: nat, now: Time)
    requires Workflow.WorkflowInv(r) && AuditTrail.AuditInv(r) && r.Active() && !r.PastDeadline(now)
    requires i < |r.signers| && r.Acting(i) && r.signers[i].status in {Pending, Invited, Viewed} && CanAct(r, i)
    ensures var session := PublicSession(r, i, now);
      && session.reply == Success(Opened(true))
      && SignAccepted(session.next, i, RequiredValues(r, i), now)
  {
    var s := PublicSession(r, i, now).next;
    assert MaySignFromLink(r, i);
    assert s == OpenLink(r, i, now);
    assert s.signers[i].status == Viewed && s.fields == r.fields && s.signatures == r.signatures;
    assert CanAct(s, i) by {
      assert forall j :: 0 <= j < |r.signers| && j != i ==> s.signers[j] == r.signers[j] && s.Acting(j) == r.Acting(j);
    }
    RequiredValuesResolve(r, i);
    assert ResolveFieldValues(s, i, RequiredValues(r, i).values) == ResolveFieldValues(r, i, RequiredValues(r, i).values) by {
      assert forall f :: Requested(s, i, f) == Requested(r, i, f);
    }
    assert i !in r.signatures by { assert AuditTrail.SignerAudited(r, i); }
  }

  lemma PairRuns(cfg: Config, w: World, i: nat)
    ensures Run(cfg, w, OpenAndSign(w.request, i)) ==
      World(w.now, Sign(PublicSession(w.request, i, w.now).next, i, RequiredValues(w.request, i), w.now).next, w.template)
  {
    hide PublicSession;
    hide Sign;
    RunTwo(cfg, w, TimedCall(0, OpenCall(i)), TimedCall(0, SignCall(i, RequiredValues(w.request, i))));
  }

  /** Opening a link touches one row, which it may move up to `Viewed`, and no field or signature. */
  lemma OpenedRows(r: Request, i: nat, now: Time)
    requires i < |r.signers| && r.Active() && !r.PastDeadline(now) && MaySignFromLink(r, i)
    ensures PublicSession(r, i, now).next == OpenLink(r, i, now)
    ensures var s := OpenLink(r, i, now);
      && s.status == r.status && s.mode == r.mode && s.deadline == r.deadline
      && s.fields == r.fields && s.signatures == r.signatures
      && s.signers == r.signers[i := r.signers[i].(status := Viewed)]
  {
  }

  /** Opening the link and signing, one after the other. */
  lemma PairKeeps(r: Request, i: nat, now: Time)
    requires Workflow.WorkflowInv(r) && AuditTrail.AuditInv(r) && r.Active() && !r.PastDeadline(now)
    requires i < |r.signers| && r.Acting(i) && r.signers[i].status in {Pending, Invited, Viewed} && CanAct(r, i)
    ensures var t := Sign(PublicSession(r, i, now).next, i, RequiredValues(r, i), now).next;
      && Workflow.WorkflowInv(t) && AuditTrail.AuditInv(t)
      && |t.signers| == |r.signers| && t.signers[i].status == Signed && t.deadline == r.deadline
      && (t.Active() || t.status == Completed)
      && forall k :: 0 <= k < |r.signers| ==>
        && t.signers[k].role == r.signers[k].role
        && (k != i ==> t.signers[k].status == r.signers[k].status || (r.signers[k].status == Pending && t.signers[k].status == Invited))
  {
    hide PublicSession;
    hide Sign;
    hide Workflow.WorkflowInv;
    hide AuditTrail.AuditInv;
    OpenAndSignSigns(r, i, now);
    OpenedRows(r, i, now);
    var s := OpenLink(r, i, now);
    Workflow.OpenKeeps(r, i, now);
    Workflow.SignKeeps(s, i, RequiredValues(r, i), now);
    AuditTrail.OpenKeeps(r, i, now);
    AuditTrail.SignKeeps(s, i, RequiredValues(r, i), now);
    SignedRows(s, i, RequiredValues(r, i), now);
  }

  /** What those two calls leave behind. */
  lemma PairAdvances(cfg: Config, w: World, from: nat)
    requires Ready(w, from) && from < |w.request.signers|
    requires w.request.Acting(from) && w.request.signers[from].status != Signed
    ensures var later := Run(cfg, w, OpenAndSign(w.request, from));
      && Ready(later, from + 1) && |later.request.signers| == |w.request.signers|
      && forall k :: from < k < |w.request.signers| ==>
        && later.request.Acting(k) == w.request.Acting(k)
        && (later.request.signers[k].status == Signed <==> w.request.signers[k].status == Signed)
  {
    hide PublicSession;
    hide Sign;
    hide Serve;
    hide AuditTrail.AuditInv;
    var r := w.request;
    assert !AllSigned(r) by { assert r.Acting(from); }
    assert Workflow.RowOk(r, from);
    Workflow.TurnIsPrefix(r, from);
    PairKeeps(r, from, w.now);
    PairRuns(cfg, w, from);
    var t := Run(cfg, w, OpenAndSign(r, from)).request;
    assert forall k :: 0 <= k < |r.signers| ==> t.Acting(k) == r.Acting(k);
    assert Workflow.HasRealSigner(t) by { assert t.Acting(from); }
  }

  /** Apart from the signer's own row, an accepted call turns at most one pending row into an invited one. */
  lemma SignedRows(s: Request, i: nat, input: SignInput, now: Time)
    requires SignAccepted(s, i, input, now)
    ensures var t := Sign(s, i, input, now).next;
      && |t.signers| == |s.signers| && t.signers[i].status == Signed && t.signers[i].role == s.signers[i].role
      && t.deadline == s.deadline && (t.status == s.status || t.status == Completed)
      && forall k :: 0 <= k < |s.signers| && k != i ==>
        t.signers[k] == s.signers[k] || (s.signers[k].status == Pending && t.signers[k] == s.signers[k].(status := Invited))
  {
    SignResults(s, i, input, now);
  }

  lemma NothingLeft(w: World)
    requires Ready(w, |w.request.signers|)
    ensures w.request.status == Completed
  {
  }

  lemma SkipSigned(w: World, from: nat)
    requires Ready(w, from) && from < |w.request.signers|
    requires !w.request.Acting(from) || w.request.signers[from].status == Signed
    ensures Ready(w, from + 1)
  {
  }

  lemma {:induction false} FinishPlanFinishes(cfg: Config, w: World, from: nat)
    requires from <= |w.request.signers| && Ready(w, from)
    ensures Run(cfg, w, FinishPlan(cfg, w, from)).request.status == Completed
    ensures |FinishPlan(cfg, w, from)| <= 2 * Unsigned(w.request, from)
    decreases |w.request.signers| - from
  {
    hide Step;
    hide Ready;
    var r := w.request;
    if from == |r.signers| {
      NothingLeft(w);
    } else if r.Acting(from) && r.signers[from].status != Signed {
      var two := OpenAndSign(r, from);
      var later := Run(cfg, w, two);
      PairAdvances(cfg, w, from);
      FinishPlanFinishes(cfg, later, from + 1);
      RunConcat(cfg, w, two, FinishPlan(cfg, later, from + 1));
      SameUnsigned(r, later.request, from + 1);
    } else {
      SkipSigned(w, from);
      FinishPlanFinishes(cfg, w, from + 1);
    }
  }

  lemma {:induction false} SameUnsigned(r: Request, s: Request, from: nat)
    requires from <= |r.signers| == |s.signers|
    requires forall k :: from <= k < |r.signers| ==>
      s.Acting(k) == r.Acting(k) && (s.signers[k].status == Signed <==> r.signers[k].status == Signed)
    ensures Unsigned(r, from) == Unsigned(s, from)
    decreases |r.signers| - from
  {
    if from < |r.signers| { SameUnsigned(r, s, from + 1); }
  }

  /**
   No deadlock: from every reachable active state before its deadline, with a real signer and none
   that declined, opening each unsigned signer's link and signing, in order, completes the request
   in at most two calls per unsigned signer.
   */
  lemma CanAlwaysFinish(cfg: Config, w: World)
    requires Reachable(cfg, w) && w.request.Active() && !w.request.PastDeadline(w.now)
    requires exists i :: 0 <= i < |w.request.signers| && w.request.Acting(i)
    requires forall i :: 0 <= i < |w.request.signers| && w.request.Acting(i) ==> w.request.signers[i].status != Declined
    ensures Run(cfg, w, FinishPlan(cfg, w, 0)).request.status == Completed
    ensures |FinishPlan(cfg, w, 0)| <= 2 * Unsigned(w.request, 0)
  {
    Workflow.ReachableInv(cfg, w);
    AuditTrail.ReachableInv(cfg, w);
    FinishPlanFinishes(cfg, w, 0);
  }

  // --------------------------------------------------------------- the ladder

  function Rank(status: SignerStatus): nat {
    match status
    case Pending => 3
    case Invited => 2
    case Viewed => 1
    case _ => 0
  }

  function RankSum(signers: seq<SignerRow>): nat {
    if signers == [] then 0 else RankSum(signers[..|signers| - 1]) + Rank(signers[|signers| - 1].status)
  }

  /** How many rows have another status in `after`. */
  function Changed(before: seq<SignerRow>, after: seq<SignerRow>): nat
    requires |before| == |after|
  {
    if before == [] then 0
    else
      var n := |before| - 1;
      Changed(before[..n], after[..n]) + if before[n].status != after[n].status then 1 else 0
  }

  function StatusChanges(cfg: Config, w: World, calls: seq<TimedCall>): nat
    decreases |calls|
  {
    if calls == [] then 0
    else
      var next := Step(cfg, w, calls[0]);
      StatusChanges(cfg, next, calls[1..]) +
      if |next.request.signers| == |w.request.signers| then Changed(w.request.signers, next.request.signers) else 0
  }

  lemma {:induction false} MovesDescend(before: seq<SignerRow>, after: seq<SignerRow>)
    requires |before| == |after|
    requires forall i :: 0 <= i < |before| ==> Workflow.RowMove(before[i].status, after[i].status)
    ensures Changed(before, after) + RankSum(after) <= RankSum(before)
  {
    if before != [] {
      var n := |before| - 1;
      MovesDescend(before[..n], after[..n]);
      assert Workflow.RowMove(before[n].status, after[n].status);
    }
  }

  lemma {:induction false} RankIsSmall(signers: seq<SignerRow>)
    ensures RankSum(signers) <= 3 * |signers|
  {
    if signers != [] { RankIsSmall(signers[..|signers| - 1]); }
  }

  lemma {:induction false} ChangesDescend(cfg: Config, w: World, calls: seq<TimedCall>)
    requires Workflow.WorkflowInv(w.request)
    ensures StatusChanges(cfg, w, calls) + RankSum(Run(cfg, w, calls).request.signers) <= RankSum(w.request.signers)
    decreases |calls|
  {
    hide Serve;
    if calls != [] {
      var now := w.now + calls[0].wait;
      Workflow.ServeKeeps(cfg, w.request, calls[0].call, now);
      Workflow.ServeMoves(cfg, w.request, calls[0].call, now);
      MovesDescend(w.request.signers, Step(cfg, w, calls[0]).request.signers);
      ChangesDescend(cfg, Step(cfg, w, calls[0]), calls[1..]);
    }
  }

  /** Any run, however long, changes the status of signers at most three times per signer. */
  lemma RunsChangeLittle(cfg: Config, birth: Birth, calls: seq<TimedCall>)
    requires birth.Created().Success?
    ensures StatusChanges(cfg, Start(birth), calls) <= 3 * |birth.input.signers|
  {
    Workflow.CreatedKeeps(birth);
    ChangesDescend(cfg, Start(birth), calls);
    RankIsSmall(Start(birth).request.signers);
    Workflow.SortSorts(WithDefaults(birth.input.signers));
  }

  // --------------------------------------------------------------- verdicts

  /**
   What the signing page says is what signing does: in every reachable state, a session that opens
   allows signing exactly when a signing call with the required values, made next, succeeds; and
   when the session does not open, that call is refused too.
   */
  lemma SessionVerdictIsSigningVerdict(cfg: Config, w: World, token: nat, now: Time)
    requires Reachable(cfg, w)
    ensures var session := PublicSession(w.request, token, now);
      Sign(session.next, token, RequiredValues(w.request, token), now).reply.Success?
      <==> session.reply == Success(Opened(true))
  {
    Workflow.ReachableInv(cfg, w);
    AuditTrail.ReachableInv(cfg, w);
    hide Reachable;
    hide SignAccepted;
    hide Sign;
    hide Workflow.WorkflowInv;
    hide AuditTrail.AuditInv;
    var r := w.request;
    var session := PublicSession(r, token, now);
    var input := RequiredValues(r, token);
    SignResults(session.next, token, input, now);
    if session.reply == Success(Opened(true)) {
      OpenedMeansTurn(r, token, now);
      OpenAndSignSigns(r, token, now);
    } else {
      RefusedMeansRefused(r, token, input, now);
    }
  }

  lemma OpenedMeansTurn(r: Request, token: nat, now: Time)
    requires Workflow.WorkflowInv(r) && PublicSession(r, token, now).reply == Success(Opened(true))
    ensures token < |r.signers| && r.Active() && !r.PastDeadline(now) && MaySignFromLink(r, token)
    ensures r.Acting(token) && r.signers[token].status in {Pending, Invited, Viewed} && CanAct(r, token)
  {
  }

  /** A page that does not open, or opens without letting its signer sign, is followed by a refusal. */
  lemma RefusedMeansRefused(r: Request, token: nat, input: SignInput, now: Time)
    requires PublicSession(r, token, now).reply != Success(Opened(true))
    ensures !SignAccepted(PublicSession(r, token, now).next, token, input, now)
  {
    hide ResolveFieldValues;
  }

  /** After a session is handed over, the link it gives away opens onto a session that allows signing. */
  lemma HandedOverLinkMaySign(cfg: Config, w: World, wanted: Option<nat>, now: Time, later: Time)
    requires Reachable(cfg, w)
    requires InPersonSession(w.request, wanted, now).reply.Success?
    requires !w.request.PastDeadline(later)
    ensures var handed := InPersonSession(w.request, wanted, now);
      && handed.reply.value.HandedTo?
      && PublicSession(handed.next, handed.reply.value.signer, later).reply == Success(Opened(true))
  {
    Workflow.ReachableInv(cfg, w);
    HandoverLeadsToSigning(w.request, wanted, now);
    var i := ChooseSigner(w.request, wanted).value;
    var s := RecordHandover(w.request, i, now);
    assert !s.PastDeadline(later);
  }

  lemma HandoverLeadsToSigning(r: Request, wanted: Option<nat>, now: Time)
    requires Workflow.WorkflowInv(r) && InPersonSession(r, wanted, now).reply.Success?
    ensures ChooseSigner(r, wanted).Success?
    ensures var i := ChooseSigner(r, wanted).value;
      var s := RecordHandover(r, i, now);
      && InPersonSession(r, wanted, now) == Outcome(s, Success(HandedTo(i)))
      && MaySignFromLink(s, i) && s.Active() && s.deadline == r.deadline
  {
    var i := ChooseSigner(r, wanted).value;
    assert Workflow.RowOk(r, i);
    var s := RecordHandover(r, i, now);
    assert CanAct(s, i) by {
      assert forall j :: 0 <= j < |r.signers| ==> s.signers[j].status == r.signers[j].status && s.Acting(j) == r.Acting(j);
    }
  }

  // ---------------------------------------------- a carbon copy in first place

  /** Every real signer is pending and nothing was ever queued for one. */
  ghost predicate Stalled(r: Request) {
    && (forall i :: 0 <= i < |r.signers| && r.Acting(i) ==> r.signers[i].status == Pending)
    && (forall k :: 0 <= k < |r.jobs| ==> !r.jobs[k].CompletionMail? && r.jobs[k].signer < |r.signers| && !r.Acting(r.jobs[k].signer))
    && r.signatures == []
  }

  /** Nobody opens the link of row `f`. */
  ghost predicate NeverOpens(calls: seq<TimedCall>, f: nat) {
    forall k :: 0 <= k < |calls| ==> calls[k].call != OpenCall(f)
  }

  ghost predicate FirstReal(r: Request, f: nat) {
    f < |r.signers| && r.Acting(f) && forall j :: 0 <= j < f ==> !r.Acting(j)
  }

  lemma {:induction false} NobodyEligible(r: Request, rule: ReminderRule, now: Time, n: nat)
    requires n <= |r.signers| && Stalled(r)
    ensures ReminderTargets(r, rule, now, n) == []
  {
    if n > 0 { NobodyEligible(r, rule, now, n - 1); }
  }

  ghost predicate StalledAt(r: Request, f: nat) {
    Stalled(r) && r.mode == Sequential && FirstReal(r, f)
  }

  /** Same jobs and signatures, and the same roles and statuses. */
  lemma SameRowsStall(r: Request, s: Request, f: nat)
    requires StalledAt(r, f) && s.mode == r.mode && s.jobs == r.jobs && s.signatures == r.signatures
    requires |s.signers| == |r.signers|
    requires forall i :: 0 <= i < |r.signers| ==>
      s.signers[i].role == r.signers[i].role && (r.Acting(i) ==> s.signers[i].status == r.signers[i].status)
    ensures StalledAt(s, f)
  {
    assert forall i :: 0 <= i < |r.signers| ==> s.Acting(i) == r.Acting(i);
  }

  lemma LinkCallsStall(r: Request, t: nat, f: nat, now: Time)
    requires Workflow.WorkflowInv(r) && StalledAt(r, f) && t != f
    ensures StalledAt(PublicSession(r, t, now).next, f)
  {
    if t < |r.signers| {
      Workflow.TurnIsPrefix(r, t);
      assert !CanAct(r, t);
    }
    SameRowsStall(r, PublicSession(r, t, now).next, f);
  }

  lemma SignCallsStall(r: Request, t: nat, input: SignInput, f: nat, now: Time)
    requires StalledAt(r, f)
    ensures StalledAt(Sign(r, t, input, now).next, f)
    ensures StalledAt(Decline(r, t, now).next, f)
  {
    SignResults(r, t, input, now);
    SameRowsStall(r, Sign(r, t, input, now).next, f);
    SameRowsStall(r, Decline(r, t, now).next, f);
  }

  lemma OperatorCallsStall(r: Request, wanted: Option<nat>, f: nat, now: Time)
    requires StalledAt(r, f)
    ensures StalledAt(InPersonSession(r, wanted, now).next, f)
    ensures StalledAt(Cancel(r, now).next, f)
  {
    SameRowsStall(r, InPersonSession(r, wanted, now).next, f);
    SameRowsStall(r, Cancel(r, now).next, f);
  }

  lemma StalledStays(cfg: Config, r: Request, f: nat, call: Call, now: Time)
    requires Workflow.WorkflowInv(r) && StalledAt(r, f) && call != OpenCall(f)
    ensures StalledAt(Serve(cfg, r, call, now).next, f)
  {
    match call
    case OpenCall(token) => LinkCallsStall(r, token, f, now);
    case SignCall(token, input) => SignCallsStall(r, token, input, f, now);
    case DeclineCall(token) => SignCallsStall(r, token, SignInput(true, [], NoCertificate), f, now);
    case CancelCall => OperatorCallsStall(r, None, f, now);
    case RemindCall(only) => NobodyEligible(r, ReminderRule(DAY_MS, None, only), now, |r.signers|);
    case SweepCall => NobodyEligible(r, SweepRule(cfg), now, |r.signers|);
    case HandOverCall(wanted) => OperatorCallsStall(r, wanted, f, now);
    case EditTemplate(_) =>
  }

  lemma {:induction false} StalledRun(cfg: Config, w: World, f: nat, calls: seq<TimedCall>)
    requires Workflow.WorkflowInv(w.request) && StalledAt(w.request, f)
    requires NeverOpens(calls, f)
    ensures Stalled(Run(cfg, w, calls).request)
    decreases |calls|
  {
    hide Serve;
    if calls != [] {
      var now := w.now + calls[0].wait;
      Workflow.ServeKeeps(cfg, w.request, calls[0].call, now);
      StalledStays(cfg, w.request, f, calls[0].call, now);
      StalledRun(cfg, Step(cfg, w, calls[0]), f, calls[1..]);
    }
  }

  lemma {:induction false} InvitesGoToInvited(rows: seq<SignerRow>)
    ensures forall j :: j in InviteJobs(rows) ==> j.InviteJob? && j.signer < |rows| && rows[j.signer].status == Invited
    ensures forall i :: 0 <= i < |rows| && rows[i].status == Invited ==> InviteJob(i) in InviteJobs(rows)
  {
    if rows != [] { InvitesGoToInvited(rows[..|rows| - 1]); }
  }

  /**
   A sequential request that is sent out invites somebody who can sign exactly when its first row is
   a real signer.
   */
  lemma SendingInvitesARealSignerIff(birth: Birth)
    requires birth.Created().Success? && birth.input.sendInvites && birth.Created().value.mode == Sequential
    ensures var r := birth.Created().value;
      (exists i :: 0 <= i < |r.signers| && r.Acting(i) && InviteJob(i) in r.jobs) <==> |r.signers| > 0 && r.Acting(0)
  {
    var r := birth.Created().value;
    Workflow.CreatedRows(birth);
    NewJobs(birth);
    InvitesGoToInvited(r.signers);
    hide CreateRequest;
    hide InviteJobs;
    if r.Acting(0) { assert InviteJob(0) in r.jobs; }
  }

  /**
   When the first row is a carbon copy instead, nothing but the first real signer opening its own
   link, which it was never sent, moves the request: until then every real signer stays pending,
   nobody is invited or reminded but carbon copies, and nobody signs.
   */
  lemma CarbonCopyFirstStalls(cfg: Config, birth: Birth, f: nat, calls: seq<TimedCall>)
    requires birth.Created().Success? && birth.Created().value.mode == Sequential
    requires FirstReal(birth.Created().value, f) && f > 0
    requires NeverOpens(calls, f)
    ensures var r := Run(cfg, Start(birth), calls).request;
      && (forall i :: 0 <= i < |r.signers| && r.Acting(i) ==> r.signers[i].status == Pending)
      && (forall k :: 0 <= k < |r.jobs| ==> r.jobs[k].InviteJob? || r.jobs[k].ReminderJob?)
      && (forall k :: 0 <= k < |r.jobs| ==> r.jobs[k].signer < |r.signers| && !r.Acting(r.jobs[k].signer))
      && r.signatures == []
  {
    var r := birth.Created().value;
    Workflow.CreatedKeeps(birth);
    Workflow.CreatedRows(birth);
    NewJobs(birth);
    InvitesGoToInvited(r.signers);
    hide CreateRequest;
    hide InviteJobs;
    hide Run;
    assert Stalled(r) by {
      assert forall k :: 0 <= k < |r.jobs| ==> r.jobs[k] in InviteJobs(r.signers);
    }
    StalledRun(cfg, Start(birth), f, calls);
  }

  lemma NewJobs(birth: Birth)
    requires birth.Created().Success?
    ensures var r := birth.Created().value;
      r.jobs == (if birth.input.sendInvites then InviteJobs(r.signers) else []) && r.signatures == []
  {
  }
}
