/**
 What the signing workflow keeps on every run: whose turn it is, when a request is complete, and
 which outcomes are final.
 */
module Workflow {
  import opened Prelude
  import opened SigningModel
  import opened SigningRuns

  // -------------------------------------------------------------- invariant

  ghost predicate InOrder(signers: seq<SignerRow>) {
    forall i, j :: 0 <= i < j < |signers| ==> signers[i].orderIndex < signers[j].orderIndex
  }

  /** A real signer that has left `Pending` has only signed real signers before it. */
  ghost predicate Frontier(r: Request) {
    forall i, j :: 0 <= i < j < |r.signers| && r.Acting(i) && r.Acting(j) && r.signers[j].status != Pending
      ==> r.signers[i].status == Signed
  }

  ghost predicate HasRealSigner(r: Request) {
    exists i :: 0 <= i < |r.signers| && r.Acting(i)
  }

  ghost predicate RowOk(r: Request, i: nat)
    requires i < |r.signers|
  {
    && r.signers[i].status in {Pending, Invited, Viewed, Signed, Declined}
    && (!r.Acting(i) ==> r.signers[i].status in {Pending, Invited})
    && (r.mode == Parallel ==> r.signers[i].status != Pending)
  }

  ghost predicate WorkflowInv(r: Request) {
    && |r.signers| > 0
    && InOrder(r.signers)
    && (forall i :: 0 <= i < |r.signers| ==> RowOk(r, i))
    && (r.mode == Sequential ==> Frontier(r))
    && r.status in {AwaitingSignature, InProgress, Completed, Cancelled, Expired}
    && (r.status == Completed <==> HasRealSigner(r) && AllSigned(r))
  }

  /** With rows in order, a sequential signer may act exactly when every real signer before it has signed. */
  lemma TurnIsPrefix(r: Request, i: nat)
    requires InOrder(r.signers) && i < |r.signers|
    ensures CanAct(r, i) <==>
      r.Acting(i) && (r.mode == Parallel || forall j :: 0 <= j < i && r.Acting(j) ==> r.signers[j].status == Signed)
  {
    if r.Acting(i) && r.mode == Sequential && CanAct(r, i) {
      forall j | 0 <= j < i && r.Acting(j) ensures r.signers[j].status == Signed {
        assert r.signers[j].orderIndex < r.signers[i].orderIndex;
      }
    }
  }

  // ------------------------------------------------------------- each step

  lemma ExpireKeeps(r: Request, now: Time)
    requires WorkflowInv(r) && r.Active()
    ensures WorkflowInv(MarkExpired(r, now))
  {
    var s := MarkExpired(r, now);
    assert s.signers == r.signers;
    assert forall i :: 0 <= i < |r.signers| ==> s.Acting(i) == r.Acting(i) && (RowOk(r, i) ==> RowOk(s, i));
  }

  lemma OpenKeeps(r: Request, i: nat, now: Time)
    requires WorkflowInv(r) && r.Active() && i < |r.signers| && MaySignFromLink(r, i)
    ensures WorkflowInv(OpenLink(r, i, now))
  {
    var s := OpenLink(r, i, now);
    TurnIsPrefix(r, i);
    assert RowOk(r, i);
    assert forall k :: 0 <= k < |r.signers| ==> s.Acting(k) == r.Acting(k) && (RowOk(r, k) ==> RowOk(s, k));
    assert !AllSigned(s) by { assert s.Acting(i) && s.signers[i].status == Viewed; }
  }

  /** Everything in the invariant but the exactness of completion. */
  ghost predicate RowsInv(r: Request) {
    && |r.signers| > 0
    && InOrder(r.signers)
    && (forall i :: 0 <= i < |r.signers| ==> RowOk(r, i))
    && (r.mode == Sequential ==> Frontier(r))
  }

  /** Row `i`, whose turn it is, is marked signed; the other rows are as they were. */
  ghost predicate OnlySigned(r: Request, i: nat, c: Request) {
    && i < |r.signers| && SignCheck(r, i) == None
    && c.mode == r.mode && |c.signers| == |r.signers|
    && c.signers[i] == r.signers[i].(status := Signed, auth := c.signers[i].auth)
    && forall k :: 0 <= k < |r.signers| && k != i ==> c.signers[k] == r.signers[k]
  }

  lemma CollectedInv(r: Request, i: nat, c: Request)
    requires WorkflowInv(r) && OnlySigned(r, i, c)
    ensures RowsInv(c) && HasRealSigner(c)
  {
    TurnIsPrefix(r, i);
    hide CanAct;
    assert forall k :: 0 <= k < |r.signers| ==> c.Acting(k) == r.Acting(k);
    assert forall k :: 0 <= k < |r.signers| ==> RowOk(r, k) ==> RowOk(c, k);
    assert c.Acting(i);
  }

  /** After row `i` is marked signed, everybody before the next pending signer has signed. */
  lemma CollectedRows(r: Request, i: nat, c: Request)
    requires WorkflowInv(r) && OnlySigned(r, i, c)
    ensures RowsInv(c) && HasRealSigner(c)
    ensures c.mode == Sequential ==>
      forall a :: 0 <= a < FirstPending(c, 0) && c.Acting(a) ==> c.signers[a].status == Signed
  {
    CollectedInv(r, i, c);
    TurnIsPrefix(r, i);
    hide CanAct;
    hide HasRealSigner;
    if c.mode == Sequential {
      forall a | 0 <= a < FirstPending(c, 0) && c.Acting(a) ensures c.signers[a].status == Signed {
        assert a <= i;
      }
    }
  }

  lemma InviteKeeps(c: Request, next: nat)
    requires RowsInv(c) && next < |c.signers| && c.Acting(next) && c.signers[next].status == Pending
    requires c.mode == Sequential && c.Active()
    requires forall a :: 0 <= a < next && c.Acting(a) ==> c.signers[a].status == Signed
    ensures WorkflowInv(SetStatus(c, next, Invited))
  {
    var s := SetStatus(c, next, Invited);
    assert forall k :: 0 <= k < |c.signers| ==> s.Acting(k) == c.Acting(k) && (RowOk(c, k) ==> RowOk(s, k));
    assert s.Acting(next) && s.signers[next].status == Invited;
  }

  lemma CompleteKeeps(c: Request, now: Time)
    requires RowsInv(c) && HasRealSigner(c) && AllSigned(c)
    ensures WorkflowInv(Complete(c, now))
  {
    var s := Complete(c, now);
    assert forall k :: 0 <= k < |c.signers| ==> s.Acting(k) == c.Acting(k) && (RowOk(c, k) ==> RowOk(s, k));
    var someone :| 0 <= someone < |c.signers| && c.Acting(someone);
    assert s.Acting(someone);
  }

  lemma AdvanceKeeps(c: Request, now: Time)
    requires RowsInv(c) && HasRealSigner(c) && c.Active()
    requires c.mode == Sequential ==>
      forall a :: 0 <= a < FirstPending(c, 0) && c.Acting(a) ==> c.signers[a].status == Signed
    ensures WorkflowInv(AdvanceWorkflow(c, now))
  {
    var s := AdvanceWorkflow(c, now);
    var next := FirstPending(c, 0);
    if AllSigned(c) {
      CompleteKeeps(c, now);
    } else if c.mode == Sequential && next < |c.signers| {
      InviteKeeps(c, next);
      SameWorkflowKeeps(SetStatus(c, next, Invited), s);
    }
  }

  lemma CollectKeeps(r: Request, i: nat, values: map<nat, Value>, certificate: CertificateUse, now: Time)
    requires WorkflowInv(r) && r.Active() && i < |r.signers| && SignCheck(r, i) == None
    ensures WorkflowInv(AdvanceWorkflow(Collect(r, i, values, certificate, now), now))
  {
    var c := Collect(r, i, values, certificate, now);
    CollectedRows(r, i, c);
    AdvanceKeeps(c, now);
  }

  lemma DeclineKeeps(r: Request, i: nat, now: Time)
    requires WorkflowInv(r) && r.Active() && i < |r.signers| && r.Open(i) && CanAct(r, i)
    ensures WorkflowInv(RecordDecline(r, i, now))
  {
    TurnIsPrefix(r, i);
    var s := RecordDecline(r, i, now);
    assert forall k :: 0 <= k < |r.signers| ==> s.Acting(k) == r.Acting(k) && (RowOk(r, k) ==> RowOk(s, k));
    assert !AllSigned(s) by { assert s.Acting(i) && s.signers[i].status == Declined; }
  }

  /** Two requests whose rows agree on role, order and status have the same workflow state. */
  ghost predicate SameWorkflow(r: Request, s: Request) {
    && s.mode == r.mode && s.status == r.status
    && |s.signers| == |r.signers|
    && forall i :: 0 <= i < |r.signers| ==>
      && s.signers[i].role == r.signers[i].role
      && s.signers[i].orderIndex == r.signers[i].orderIndex
      && s.signers[i].status == r.signers[i].status
  }

  lemma SameWorkflowKeeps(r: Request, s: Request)
    requires WorkflowInv(r) && SameWorkflow(r, s)
    ensures WorkflowInv(s)
  {
    assert forall i :: 0 <= i < |r.signers| ==> s.Acting(i) == r.Acting(i) && (RowOk(r, i) ==> RowOk(s, i));
    assert HasRealSigner(r) <==> HasRealSigner(s) by {
      if HasRealSigner(r) { var i :| 0 <= i < |r.signers| && r.Acting(i); assert s.Acting(i); }
      if HasRealSigner(s) { var i :| 0 <= i < |s.signers| && s.Acting(i); assert r.Acting(i); }
    }
    assert AllSigned(r) <==> AllSigned(s);
  }

  lemma {:induction false} DispatchSameWorkflow(r: Request, targets: seq<nat>, automatic: bool, now: Time)
    requires forall k :: 0 <= k < |targets| ==> targets[k] < |r.signers|
    ensures SameWorkflow(r, DispatchReminders(r, targets, automatic, now))
  {
    if targets != [] {
      DispatchSameWorkflow(r, targets[..|targets| - 1], automatic, now);
    }
  }

  lemma SendSameWorkflow(r: Request, rule: ReminderRule, automatic: bool, now: Time)
    ensures SameWorkflow(r, SendReminders(r, rule, automatic, now))
  {
    TargetsInRange(r, rule, now, |r.signers|);
    DispatchSameWorkflow(r, ReminderTargets(r, rule, now, |r.signers|), automatic, now);
  }

  lemma SignKeeps(r: Request, token: nat, input: SignInput, now: Time)
    requires WorkflowInv(r)
    ensures WorkflowInv(Sign(r, token, input, now).next)
  {
    hide WorkflowInv;
    if token < |r.signers| && r.Active() {
      ExpireKeeps(r, now);
      var values := ResolveFieldValues(r, token, input.values);
      if SignCheck(r, token) == None && values.Success? {
        CollectKeeps(r, token, values.value, input.certificate, now);
      }
    }
  }

  lemma LinkCallsKeep(r: Request, token: nat, now: Time)
    requires WorkflowInv(r)
    ensures WorkflowInv(PublicSession(r, token, now).next)
    ensures WorkflowInv(Decline(r, token, now).next)
  {
    hide WorkflowInv;
    if token < |r.signers| && r.Active() {
      ExpireKeeps(r, now);
      if MaySignFromLink(r, token) { OpenKeeps(r, token, now); }
      if r.Open(token) && CanAct(r, token) { DeclineKeeps(r, token, now); }
    }
  }

  lemma HandOverKeeps(r: Request, wanted: Option<nat>, now: Time)
    requires WorkflowInv(r)
    ensures WorkflowInv(InPersonSession(r, wanted, now).next)
  {
    if r.Active() { ExpireKeeps(r, now); }
    var chosen := ChooseSigner(r, wanted);
    if chosen.Success? {
      SameWorkflowKeeps(r, RecordHandover(r, chosen.value, now));
    }
  }

  lemma CancelKeeps(r: Request, now: Time)
    requires WorkflowInv(r)
    ensures WorkflowInv(Cancel(r, now).next)
  {
    var s := Cancel(r, now).next;
    assert forall i :: 0 <= i < |r.signers| ==> s.Acting(i) == r.Acting(i) && (RowOk(r, i) ==> RowOk(s, i));
  }

  lemma SendKeeps(r: Request, rule: ReminderRule, automatic: bool, now: Time)
    requires WorkflowInv(r)
    ensures WorkflowInv(SendReminders(r, rule, automatic, now))
  {
    SendSameWorkflow(r, rule, automatic, now);
    SameWorkflowKeeps(r, SendReminders(r, rule, automatic, now));
  }

  lemma ServeKeeps(cfg: Config, r: Request, call: Call, now: Time)
    requires WorkflowInv(r)
    ensures WorkflowInv(Serve(cfg, r, call, now).next)
  {
    match call
    case OpenCall(token) => LinkCallsKeep(r, token, now);
    case SignCall(token, input) => SignKeeps(r, token, input, now);
    case DeclineCall(token) => LinkCallsKeep(r, token, now);
    case CancelCall => CancelKeeps(r, now);
    case RemindCall(only) => SendKeeps(r, ReminderRule(DAY_MS, None, only), false, now);
    case SweepCall => SendKeeps(r, SweepRule(cfg), true, now);
    case HandOverCall(wanted) => HandOverKeeps(r, wanted, now);
    case EditTemplate(_) =>
  }

  // ----------------------------------------------------------------- start

  ghost predicate Ascending(s: seq<OrderedSigner>) {
    forall i, j :: 0 <= i < j < |s| ==> s[i].orderIndex <= s[j].orderIndex
  }

  lemma {:induction false} InsertRearranges(s: OrderedSigner, sorted: seq<OrderedSigner>)
    ensures multiset(InsertByOrder(s, sorted)) == multiset(sorted) + multiset{s}
    ensures |InsertByOrder(s, sorted)| == |sorted| + 1
  {
    if sorted != [] {
      var n := |sorted| - 1;
      assert sorted == sorted[..n] + [sorted[n]];
      InsertRearranges(s, sorted[..n]);
    }
  }

  lemma AscendingPush(sorted: seq<OrderedSigner>, last: OrderedSigner)
    requires Ascending(sorted) && (sorted != [] ==> sorted[|sorted| - 1].orderIndex <= last.orderIndex)
    ensures Ascending(sorted + [last])
  {
    if sorted != [] {
      assert forall i :: 0 <= i < |sorted| ==> sorted[i].orderIndex <= sorted[|sorted| - 1].orderIndex;
    }
  }

  lemma {:induction false} InsertKeepsSorted(s: OrderedSigner, sorted: seq<OrderedSigner>)
    requires Ascending(sorted)
    ensures Ascending(InsertByOrder(s, sorted))
    ensures |InsertByOrder(s, sorted)| == |sorted| + 1
    ensures InsertByOrder(s, sorted)[|sorted|] == s
      || (sorted != [] && InsertByOrder(s, sorted)[|sorted|] == sorted[|sorted| - 1])
  {
    if sorted == [] || sorted[|sorted| - 1].orderIndex <= s.orderIndex {
      AscendingPush(sorted, s);
      assert sorted == [] ==> sorted + [s] == [s];
    } else {
      var n := |sorted| - 1;
      assert Ascending(sorted[..n]);
      assert n > 0 ==> sorted[n - 1].orderIndex <= sorted[n].orderIndex;
      hide Ascending;
      InsertKeepsSorted(s, sorted[..n]);
      AscendingPush(InsertByOrder(s, sorted[..n]), sorted[n]);
    }
  }

  /** The sort rearranges the given signers into ascending order. */
  lemma {:induction false} SortSorts(signers: seq<OrderedSigner>)
    ensures multiset(SortByOrder(signers)) == multiset(signers)
    ensures |SortByOrder(signers)| == |signers|
    ensures Ascending(SortByOrder(signers))
  {
    if signers != [] {
      var n := |signers| - 1;
      assert signers == signers[..n] + [signers[n]];
      SortSorts(signers[..n]);
      InsertRearranges(signers[n], SortByOrder(signers[..n]));
      InsertKeepsSorted(signers[n], SortByOrder(signers[..n]));
    }
  }

  /** The rows a new request starts with. */
  lemma CreatedRows(birth: Birth)
    requires birth.Created().Success?
    ensures var r := birth.Created().value;
      && r.status == AwaitingSignature
      && |r.signers| == |birth.input.signers| > 0
      && InOrder(r.signers)
      && forall i :: 0 <= i < |r.signers| ==> r.signers[i].status == (if r.mode == Sequential && i > 0 then Pending else Invited)
  {
    var r := birth.Created().value;
    var ordered := SortByOrder(WithDefaults(birth.input.signers));
    SortSorts(WithDefaults(birth.input.signers));
    hide SortByOrder;
    assert forall i :: 0 <= i < |ordered| ==> r.signers[i].orderIndex == ordered[i].orderIndex;
  }

  lemma CreatedKeeps(birth: Birth)
    requires birth.Created().Success?
    ensures WorkflowInv(birth.Created().value)
  {
    CreatedRows(birth);
    hide CreateRequest;
    var r := birth.Created().value;
    assert forall i :: 0 <= i < |r.signers| ==> RowOk(r, i);
  }

  lemma {:induction false} RunKeeps(cfg: Config, w: World, calls: seq<TimedCall>)
    requires WorkflowInv(w.request)
    ensures WorkflowInv(Run(cfg, w, calls).request)
    decreases |calls|
  {
    hide Serve;
    if calls != [] {
      ServeKeeps(cfg, w.request, calls[0].call, w.now + calls[0].wait);
      RunKeeps(cfg, Step(cfg, w, calls[0]), calls[1..]);
    }
  }

  lemma ReachableInv(cfg: Config, w: World)
    requires Reachable(cfg, w)
    ensures WorkflowInv(w.request)
  {
    var birth, calls :| ReachedBy(cfg, w, birth, calls);
    CreatedKeeps(birth);
    RunKeeps(cfg, Start(birth), calls);
  }

  // ------------------------------------------------------------ main results

  /**
   In every reachable state of a sequential request the real signers read: signed ones first, then
   at most one that is open or has declined, then only pending ones.
   */
  lemma SequentialFrontier(cfg: Config, w: World, i: nat, j: nat)
    requires Reachable(cfg, w) && w.request.mode == Sequential
    requires i < j < |w.request.signers| && w.request.Acting(i) && w.request.Acting(j)
    ensures w.request.signers[j].status != Pending ==> w.request.signers[i].status == Signed
    ensures w.request.signers[i].status != Signed ==> w.request.signers[j].status == Pending
  {
    ReachableInv(cfg, w);
  }

  lemma {:induction false} NobodyWaitsBehindSigned(r: Request, n: nat)
    requires n <= |r.signers|
    requires forall j :: 0 <= j < n && r.Acting(j) ==> r.signers[j].status == Signed
    ensures Waiting(r, n) == []
  {
    if n > 0 { NobodyWaitsBehindSigned(r, n - 1); }
  }

  lemma {:induction false} AtMostOneWaits(r: Request, n: nat)
    requires Frontier(r) && n <= |r.signers|
    ensures |Waiting(r, n)| <= 1
  {
    if n > 0 {
      AtMostOneWaits(r, n - 1);
      if r.Acting(n - 1) && r.Open(n - 1) { NobodyWaitsBehindSigned(r, n - 1); }
    }
  }

  lemma HandoverAsks(r: Request, wanted: Option<nat>, now: Time)
    ensures InPersonSession(r, wanted, now).reply == Failure(SignerIdRequired) ==> |Waiting(r, |r.signers|)| > 1
  {
    hide CanAct;
    hide Waiting;
  }

  /** So at most one real signer is waiting, and handing over without naming a signer is never ambiguous. */
  lemma SequentialHandoverIsNeverAmbiguous(cfg: Config, w: World, wanted: Option<nat>, now: Time)
    requires Reachable(cfg, w) && w.request.mode == Sequential
    ensures |Waiting(w.request, |w.request.signers|)| <= 1
    ensures InPersonSession(w.request, wanted, now).reply != Failure(SignerIdRequired)
  {
    hide Reachable;
    hide Waiting;
    hide InPersonSession;
    ReachableInv(cfg, w);
    AtMostOneWaits(w.request, |w.request.signers|);
    HandoverAsks(w.request, wanted, now);
  }

  /** A request is complete exactly when it has a real signer and every real signer has signed. */
  lemma CompletionIsExact(cfg: Config, w: World)
    requires Reachable(cfg, w)
    ensures w.request.status == Completed <==>
      (exists i :: 0 <= i < |w.request.signers| && w.request.Acting(i))
      && (forall i :: 0 <= i < |w.request.signers| && w.request.Acting(i) ==> w.request.signers[i].status == Signed)
  {
    ReachableInv(cfg, w);
  }

  ghost predicate StatusMove(before: RequestStatus, after: RequestStatus) {
    match before
    case AwaitingSignature => after in {AwaitingSignature, InProgress, Completed, Cancelled, Expired}
    case InProgress => after in {InProgress, Completed, Cancelled, Expired}
    case Expired => after in {Expired, Cancelled}
    case _ => after == before
  }

  ghost predicate RowMove(before: SignerStatus, after: SignerStatus) {
    match before
    case Pending => after in {Pending, Invited, Viewed}
    case Invited => after in {Invited, Viewed, Signed, Declined}
    case Viewed => after in {Viewed, Signed, Declined}
    case _ => after == before
  }

  /** The request and each row move along these edges only; role, order, mode, deadline and email never change. */
  ghost predicate Moves(r: Request, s: Request) {
    && StatusMove(r.status, s.status)
    && s.mode == r.mode && s.deadline == r.deadline && |s.signers| == |r.signers|
    && forall i :: 0 <= i < |r.signers| ==>
      && RowMove(r.signers[i].status, s.signers[i].status)
      && s.signers[i].role == r.signers[i].role
      && s.signers[i].orderIndex == r.signers[i].orderIndex
      && s.signers[i].email == r.signers[i].email
  }

  lemma ServeMoves(cfg: Config, r: Request, call: Call, now: Time)
    requires WorkflowInv(r)
    ensures Moves(r, Serve(cfg, r, call, now).next)
  {
    hide WorkflowInv;
    hide Moves;
    hide PublicSession;
    hide Sign;
    hide Decline;
    hide Cancel;
    hide InPersonSession;
    hide SendReminders;
    match call
    case OpenCall(token) => OpenMoves(r, token, now);
    case SignCall(token, input) => SignMoves(r, token, input, now);
    case DeclineCall(token) => DeclineMoves(r, token, now);
    case CancelCall => CancelMoves(r, now);
    case RemindCall(only) => SendMoves(r, ReminderRule(DAY_MS, None, only), false, now); Unmoved(r);
    case SweepCall => SendMoves(r, SweepRule(cfg), true, now); Unmoved(r);
    case HandOverCall(wanted) => HandOverMoves(r, wanted, now);
    case EditTemplate(_) => Unmoved(r);
  }

  lemma Unmoved(r: Request)
    ensures Moves(r, r)
  {
  }

  lemma CancelMoves(r: Request, now: Time)
    requires WorkflowInv(r)
    ensures Moves(r, Cancel(r, now).next)
  {
  }

  lemma SignMoves(r: Request, t: nat, input: SignInput, now: Time)
    ensures Moves(r, Sign(r, t, input, now).next)
  {
    SignResults(r, t, input, now);
    hide Sign;
    hide ResolveFieldValues;
    hide CanAct;
    hide AdvanceWorkflow;
    if SignAccepted(r, t, input, now) {
      CollectMoves(r, t, ResolveFieldValues(r, t, input.values).value, input.certificate, now);
    }
  }

  lemma OpenMoves(r: Request, t: nat, now: Time)
    ensures Moves(r, PublicSession(r, t, now).next)
  {
  }

  lemma DeclineMoves(r: Request, t: nat, now: Time)
    ensures Moves(r, Decline(r, t, now).next)
  {
  }

  lemma HandOverMoves(r: Request, wanted: Option<nat>, now: Time)
    ensures Moves(r, InPersonSession(r, wanted, now).next)
  {
  }

  lemma CollectMoves(r: Request, i: nat, values: map<nat, Value>, certificate: CertificateUse, now: Time)
    requires i < |r.signers| && r.Open(i) && r.Active()
    ensures Moves(r, AdvanceWorkflow(Collect(r, i, values, certificate, now), now))
  {
    var c := Collect(r, i, values, certificate, now);
    assert forall k :: 0 <= k < |r.signers| && k != i ==> c.signers[k] == r.signers[k];
  }

  lemma {:induction false} DispatchKeepsEmails(r: Request, targets: seq<nat>, automatic: bool, now: Time)
    requires forall k :: 0 <= k < |targets| ==> targets[k] < |r.signers|
    ensures var s := DispatchReminders(r, targets, automatic, now);
      s.deadline == r.deadline && forall i :: 0 <= i < |r.signers| ==> s.signers[i].email == r.signers[i].email
  {
    if targets != [] {
      DispatchKeepsEmails(r, targets[..|targets| - 1], automatic, now);
    }
  }

  lemma SendMoves(r: Request, rule: ReminderRule, automatic: bool, now: Time)
    ensures Moves(r, SendReminders(r, rule, automatic, now))
  {
    TargetsInRange(r, rule, now, |r.signers|);
    SendSameWorkflow(r, rule, automatic, now);
    DispatchKeepsEmails(r, ReminderTargets(r, rule, now, |r.signers|), automatic, now);
  }

  /**
   Outcomes are final over every continuation: a completed or cancelled request stays so, an
   expired one can only be cancelled, and a signer that signed or declined stays signed or declined.
   */
  lemma {:induction false} OutcomesAreFinal(cfg: Config, w: World, calls: seq<TimedCall>)
    requires WorkflowInv(w.request)
    ensures var last := Run(cfg, w, calls).request;
      && |last.signers| == |w.request.signers| && last.mode == w.request.mode
      && (w.request.status in {Completed, Cancelled} ==> last.status == w.request.status)
      && (w.request.status == Expired ==> last.status in {Expired, Cancelled})
      && forall i :: 0 <= i < |w.request.signers| ==>
        && last.signers[i].role == w.request.signers[i].role
        && (w.request.signers[i].status in {Signed, Declined} ==> last.signers[i].status == w.request.signers[i].status)
    decreases |calls|
  {
    hide Serve;
    if calls != [] {
      ServeKeeps(cfg, w.request, calls[0].call, w.now + calls[0].wait);
      ServeMoves(cfg, w.request, calls[0].call, w.now + calls[0].wait);
      OutcomesAreFinal(cfg, Step(cfg, w, calls[0]), calls[1..]);
    }
  }

  /**
   Once a real signer has declined, no continuation completes the request, and in sequential mode no
   signer after it ever leaves `Pending`, so none of them ever signs.
   */
  lemma DeclineIsDecisive(cfg: Config, w: World, calls: seq<TimedCall>, d: nat)
    requires Reachable(cfg, w)
    requires d < |w.request.signers| && w.request.Acting(d) && w.request.signers[d].status == Declined
    ensures var last := Run(cfg, w, calls).request;
      && last.status != Completed
      && |last.signers| == |w.request.signers|
      && (last.mode == Sequential ==>
          forall j :: d < j < |last.signers| && last.Acting(j) ==> last.signers[j].status == Pending)
  {
    ReachableInv(cfg, w);
    OutcomesAreFinal(cfg, w, calls);
    ReachableContinues(cfg, w, calls);
    ReachableInv(cfg, Run(cfg, w, calls));
    var last := Run(cfg, w, calls).request;
    assert last.Acting(d) && last.signers[d].status == Declined;
  }
}
