/**
 What each call on a request does, said of the rows, the log and the jobs alone: who is let through,
 who is refused and why, and everything that is different afterwards.
 */
module CallEffects {
  import opened Prelude
  import opened SigningModel
  import opened SigningRuns
  import Workflow
  import AuditTrail

  // ------------------------------------------------------------ plain words

  predicate Running(r: Request) {
    r.status == AwaitingSignature || r.status == InProgress
  }

  predicate Overdue(r: Request, now: Time) {
    r.deadline.Some? && r.deadline.value < now
  }

  predicate Real(r: Request, i: nat)
    requires i < |r.signers|
  {
    r.signers[i].role == Signer || r.signers[i].role == Approver
  }

  /** Invited, or has opened the link. */
  predicate IsUp(r: Request, i: nat)
    requires i < |r.signers|
  {
    r.signers[i].status == Invited || r.signers[i].status == Viewed
  }

  /** In sequential mode every real signer in an earlier row has signed. */
  ghost predicate EarlierSigned(r: Request, i: nat)
    requires i < |r.signers|
  {
    r.mode == Sequential ==> forall j :: 0 <= j < i && Real(r, j) ==> r.signers[j].status == Signed
  }

  /** The webhooks sent out aside, which follow the log. */
  predicate SameButWebhooks(s: Request, t: Request) {
    s.(webhooks := t.webhooks) == t
  }

  lemma TurnInWords(r: Request, i: nat)
    requires Workflow.WorkflowInv(r) && i < |r.signers|
    ensures CanAct(r, i) <==> Real(r, i) && EarlierSigned(r, i)
  {
    Workflow.TurnIsPrefix(r, i);
    assert forall j :: 0 <= j < |r.signers| ==> Real(r, j) == r.Acting(j);
  }

  /** The request expires: its status says so and one entry records it. */
  predicate ExpiredTo(r: Request, s: Request, now: Time) {
    SameButWebhooks(s, r.(status := Expired, events := r.events + [Event(ExpiredEvent, None, now, PLAIN)], webhooks := s.webhooks))
  }

  // --------------------------------------------------------------- opening

  /** The link of row `i` is opened: a real signer whose turn it is has viewed it from now on, and that is recorded once. */
  lemma Opening(r: Request, i: nat, now: Time)
    requires Workflow.WorkflowInv(r)
    ensures var o := PublicSession(r, i, now);
      if i >= |r.signers| || !Running(r) || r.signers[i].status == Declined then
        o == Outcome(r, Failure(SessionNotFound))
      else if Overdue(r, now) then
        o.reply == Failure(SessionExpired) && ExpiredTo(r, o.next, now)
      else if !Real(r, i) || r.signers[i].status == Signed || !EarlierSigned(r, i) then
        o == Outcome(r, Success(Opened(false)))
      else
        && o.reply == Success(Opened(true))
        && SameButWebhooks(o.next, r.(
          signers := r.signers[i := r.signers[i].(status := Viewed)],
          events := r.events + (if r.signers[i].status == Viewed then [] else [Event(ViewedEvent, Some(i), now, PLAIN)]),
          webhooks := o.next.webhooks))
  {
    if i < |r.signers| {
      TurnInWords(r, i);
      assert Workflow.RowOk(r, i);
      hide CanAct;
      assert r.signers[i].status == Viewed ==> r.signers[i := r.signers[i].(status := Viewed)] == r.signers;
      assert r.events + [] == r.events;
    }
  }

  // --------------------------------------------------------------- signing

  /** The last value submitted for a field, if any was. */
  function LastFor(input: seq<(nat, Value)>, f: nat): Option<Value> {
    if input == [] then None
    else if input[|input| - 1].0 == f then Some(input[|input| - 1].1)
    else LastFor(input[..|input| - 1], f)
  }

  predicate OwnField(r: Request, i: nat, f: nat) {
    f < |r.fields| && r.fields[f].owner == Some(i)
  }

  /** Nobody else's field is filled in, and no required one is left empty. A signer without fields may submit anything. */
  ghost predicate FieldsInOrder(r: Request, i: nat, input: seq<(nat, Value)>) {
    (exists f: nat :: OwnField(r, i, f)) ==>
      && (forall k :: 0 <= k < |input| ==> OwnField(r, i, input[k].0))
      && (forall f: nat :: OwnField(r, i, f) && r.fields[f].required ==>
            LastFor(input, f).Some? && !IsEmpty(LastFor(input, f).value))
  }

  lemma {:induction false} SubmittedIsLast(input: seq<(nat, Value)>, f: nat)
    ensures f in Submitted(input) <==> LastFor(input, f).Some?
    ensures f in Submitted(input) ==> Submitted(input)[f] == LastFor(input, f).value
    ensures LastFor(input, f).Some? <==> exists k :: 0 <= k < |input| && input[k].0 == f
  {
    if input != [] {
      var n := |input| - 1;
      SubmittedIsLast(input[..n], f);
      assert forall k :: 0 <= k < n ==> input[..n][k] == input[k];
    }
  }

  lemma FieldsInWords(r: Request, i: nat, input: seq<(nat, Value)>)
    ensures ResolveFieldValues(r, i, input).Success? <==> FieldsInOrder(r, i, input)
  {
    forall f: nat
      ensures f in Submitted(input) <==> LastFor(input, f).Some?
      ensures f in Submitted(input) ==> Submitted(input)[f] == LastFor(input, f).value
      ensures LastFor(input, f).Some? <==> exists k :: 0 <= k < |input| && input[k].0 == f
      ensures OwnField(r, i, f) == Requested(r, i, f)
    {
      SubmittedIsLast(input, f);
    }
    if FieldsInOrder(r, i, input) {
    } else {
      var f: nat :| OwnField(r, i, f);
      if k :| 0 <= k < |input| && !OwnField(r, i, input[k].0) {
        assert input[k].0 in Submitted(input);
      }
    }
  }

  /** A signature is accepted exactly on these grounds. */
  ghost predicate MaySign(r: Request, i: nat, input: SignInput, now: Time) {
    && i < |r.signers| && Running(r) && !Overdue(r, now)
    && Real(r, i) && IsUp(r, i) && EarlierSigned(r, i)
    && input.hashMatches && FieldsInOrder(r, i, input.values) && input.certificate != Refused
  }

  lemma SignsIff(r: Request, i: nat, input: SignInput, now: Time)
    requires Workflow.WorkflowInv(r) && AuditTrail.AuditInv(r)
    ensures Sign(r, i, input, now).reply.Success? <==> MaySign(r, i, input, now)
    ensures Sign(r, i, input, now).reply.Success? <==> SignAccepted(r, i, input, now)
  {
    SignResults(r, i, input, now);
    FieldsInWords(r, i, input.values);
    if i < |r.signers| {
      TurnInWords(r, i);
      assert AuditTrail.SignerAudited(r, i);
      assert i in r.signatures <==> multiset(r.signatures)[i] > 0;
    }
    hide Sign;
    hide CanAct;
    hide ResolveFieldValues;
    hide FieldsInOrder;
    hide EarlierSigned;
  }

  /** Why a signature is refused: the first of these that applies. */
  ghost function WhyNotSigned(r: Request, i: nat, input: SignInput, now: Time): Refusal {
    if i >= |r.signers| then SessionNotFound
    else if !Running(r) then NotActive
    else if Overdue(r, now) then RequestExpiredNow
    else if !Real(r, i) then CarbonCopyCannotAct
    else if r.signers[i].status == Signed then AlreadySigned
    else if r.signers[i].status == Declined then AlreadyDeclined
    else if !IsUp(r, i) || !EarlierSigned(r, i) then NotYourTurn
    else if !input.hashMatches then HashMismatch
    else if exists k :: 0 <= k < |input.values| && !OwnField(r, i, input.values[k].0) && HasFields(r, i) then UnknownField
    else if !FieldsInOrder(r, i, input.values) then MissingField
    else CertificateRefused
  }

  ghost predicate HasFields(r: Request, i: nat) {
    exists f: nat :: OwnField(r, i, f)
  }

  lemma UnknownInWords(r: Request, i: nat, input: seq<(nat, Value)>)
    ensures ResolveFieldValues(r, i, input) == Failure(UnknownField)
      <==> exists k :: 0 <= k < |input| && !OwnField(r, i, input[k].0) && HasFields(r, i)
    ensures ResolveFieldValues(r, i, input).Success? || ResolveFieldValues(r, i, input).error in {UnknownField, MissingField}
  {
    forall f: nat
      ensures f in Submitted(input) <==> LastFor(input, f).Some?
      ensures LastFor(input, f).Some? <==> exists k :: 0 <= k < |input| && input[k].0 == f
      ensures OwnField(r, i, f) == Requested(r, i, f)
    {
      SubmittedIsLast(input, f);
    }
    if k :| 0 <= k < |input| && !OwnField(r, i, input[k].0) && HasFields(r, i) {
      assert input[k].0 in Submitted(input);
    }
  }

  /** A refused signature says why, and leaves the request alone, or expired when it came too late. */
  lemma SigningRefused(r: Request, i: nat, input: SignInput, now: Time)
    requires Workflow.WorkflowInv(r) && AuditTrail.AuditInv(r) && !MaySign(r, i, input, now)
    ensures var o := Sign(r, i, input, now);
      && o.reply == Failure(WhyNotSigned(r, i, input, now))
      && if o.reply.error == RequestExpiredNow then ExpiredTo(r, o.next, now) else o.next == r
  {
    SignsIff(r, i, input, now);
    SignResults(r, i, input, now);
    FieldsInWords(r, i, input.values);
    UnknownInWords(r, i, input.values);
    if i < |r.signers| {
      TurnInWords(r, i);
      assert Workflow.RowOk(r, i);
    }
    hide CanAct;
    hide ResolveFieldValues;
    hide FieldsInOrder;
    hide EarlierSigned;
    hide HasFields;
  }

  /** Whoever signs, the signature completes the request exactly when every other real signer has signed. */
  ghost predicate OthersSigned(r: Request, i: nat) {
    forall j :: 0 <= j < |r.signers| && j != i && Real(r, j) ==> r.signers[j].status == Signed
  }

  /** The first row of a real signer that is still pending, if there is one. */
  ghost predicate NextInLine(r: Request, j: nat) {
    && j < |r.signers| && Real(r, j) && r.signers[j].status == Pending
    && forall k :: 0 <= k < j && Real(r, k) ==> r.signers[k].status != Pending
  }

  /** A field of the signer takes the last value submitted for it; `Undefined` leaves the stored one. */
  predicate FieldTaken(before: RequestField, after: RequestField, submitted: Option<Value>, now: Time) {
    match submitted
    case None => after == before
    case Some(v) => after == before.(value := if v == Undefined then before.value else v, filledAt := Some(now))
  }

  /** What a signature leaves behind, whether or not it hands the turn on or completes the request. */
  ghost predicate Collected(r: Request, i: nat, input: SignInput, now: Time, s: Request) {
    && i < |r.signers| == |s.signers|
    && s.signers[i] == r.signers[i].(status := Signed, auth := if input.certificate == Issued then Certificate else r.signers[i].auth)
    && s.signatures == r.signatures + [i]
    && s.mode == r.mode && s.deadline == r.deadline && s.lost == r.lost
    && |s.fields| == |r.fields|
    && forall f :: 0 <= f < |r.fields| ==>
         FieldTaken(r.fields[f], s.fields[f], if OwnField(r, i, f) then LastFor(input.values, f) else None, now)
  }

  function SignedEntry(r: Request, i: nat, now: Time): Event
    requires i < |r.signers|
  {
    Event(SignedEvent, Some(i), now, PLAIN.(inPerson := r.signers[i].auth == InPerson))
  }

  /**
   The last signature completes the request. Any other one in a sequential request invites exactly the
   first pending real signer, if there is one, and queues exactly one invitation. Nobody else's row
   changes.
   */
  ghost predicate HandedOn(r: Request, i: nat, now: Time, s: Request)
    requires i < |r.signers| == |s.signers|
  {
    if OthersSigned(r, i) then
      && s.status == Completed
      && s.events == r.events + [SignedEntry(r, i, now), Event(SignedEvent, None, now, PLAIN.(completed := true))]
      && s.jobs == r.jobs + [CompletionMail]
      && (forall k :: 0 <= k < |r.signers| && k != i ==> s.signers[k] == r.signers[k])
    else
      && s.status == r.status && s.events == r.events + [SignedEntry(r, i, now)]
      && (forall k :: 0 <= k < |r.signers| && k != i && !(r.mode == Sequential && NextInLine(r, k)) ==> s.signers[k] == r.signers[k])
      && (forall j: nat :: r.mode == Sequential && NextInLine(r, j) ==>
            s.signers[j] == r.signers[j].(status := Invited) && s.jobs == r.jobs + [InviteJob(j)])
      && ((r.mode == Parallel || forall j: nat :: !NextInLine(r, j)) ==> s.jobs == r.jobs)
  }

  lemma CollectInWords(r: Request, i: nat, input: SignInput, now: Time)
    requires i < |r.signers| && ResolveFieldValues(r, i, input.values).Success? && FieldsInOrder(r, i, input.values)
    ensures Collected(r, i, input, now, Collect(r, i, ResolveFieldValues(r, i, input.values).value, input.certificate, now))
  {
    var values := ResolveFieldValues(r, i, input.values).value;
    var c := Collect(r, i, values, input.certificate, now);
    forall f | 0 <= f < |r.fields|
      ensures FieldTaken(r.fields[f], c.fields[f], if OwnField(r, i, f) then LastFor(input.values, f) else None, now)
    {
      SubmittedIsLast(input.values, f);
      assert OwnField(r, i, f) == Requested(r, i, f);
      if OwnField(r, i, f) {
        assert values == Submitted(input.values);
      } else if exists g: nat :: OwnField(r, i, g) {
        assert LastFor(input.values, f).None?;
      }
    }
  }

  /** Who is next after row `i`, which was not pending, has signed: the same as before. */
  lemma NextAfter(r: Request, i: nat, c: Request)
    requires i < |r.signers| == |c.signers| && r.signers[i].status != Pending && c.signers[i].status == Signed
    requires c.signers[i].role == r.signers[i].role
    requires forall k :: 0 <= k < |r.signers| && k != i ==> c.signers[k] == r.signers[k]
    ensures Real(r, i) ==> (AllSigned(c) <==> OthersSigned(r, i))
    ensures forall j: nat :: NextInLine(r, j) <==> j == FirstPending(c, 0) && j < |c.signers|
  {
    assert forall k :: 0 <= k < |r.signers| ==> Real(r, k) == c.Acting(k);
  }

  lemma Signing(r: Request, i: nat, input: SignInput, now: Time)
    requires Workflow.WorkflowInv(r) && AuditTrail.AuditInv(r) && MaySign(r, i, input, now)
    ensures var s := Sign(r, i, input, now).next;
      Collected(r, i, input, now, s) && HandedOn(r, i, now, s)
  {
    SignsIff(r, i, input, now);
    SignResults(r, i, input, now);
    FieldsInWords(r, i, input.values);
    hide Sign;
    hide SignAccepted;
    hide FieldsInOrder;
    CollectInWords(r, i, input, now);
    var c := Collect(r, i, ResolveFieldValues(r, i, input.values).value, input.certificate, now);
    NextAfter(r, i, c);
    NoMailYet(r);
    HandingOn(r, i, input, now, c);
  }

  lemma NoMailYet(r: Request)
    requires AuditTrail.AuditInv(r) && Running(r)
    ensures CompletionMail !in r.jobs
  {
    assert multiset(r.jobs)[CompletionMail] == 0;
  }

  lemma HandingOn(r: Request, i: nat, input: SignInput, now: Time, c: Request)
    requires i < |r.signers| == |c.signers| && Real(r, i) && CompletionMail !in r.jobs && Collected(r, i, input, now, c)
    requires c.status == r.status && c.events == r.events + [SignedEntry(r, i, now)] && c.jobs == r.jobs
    requires forall k :: 0 <= k < |r.signers| && k != i ==> c.signers[k] == r.signers[k]
    requires AllSigned(c) <==> OthersSigned(r, i)
    requires forall j: nat :: NextInLine(r, j) <==> j == FirstPending(c, 0) && j < |c.signers|
    requires r.signers[i].status != Pending
    ensures var s := AdvanceWorkflow(c, now); Collected(r, i, input, now, s) && HandedOn(r, i, now, s)
  {
    hide AllSigned;
    hide OthersSigned;
    hide FieldTaken;
    hide NextInLine;
    var s := AdvanceWorkflow(c, now);
    var entry := Event(SignedEvent, None, now, PLAIN.(completed := true));
    assert r.events + [SignedEntry(r, i, now)] + [entry] == r.events + [SignedEntry(r, i, now), entry];
    var next := FirstPending(c, 0);
    assert next != i && (next < |c.signers| <==> NextInLine(r, next));
    if !AllSigned(c) {
      if r.mode == Sequential && next < |c.signers| {
        forall j: nat | NextInLine(r, j) ensures j == next {}
      } else {
        assert s == c;
        forall j: nat | r.mode == Sequential ensures !NextInLine(r, j) {}
      }
    }
  }

  /** Row `i` is signed, row `next` invited and mailed, and no other row has changed. */
  ghost predicate HandsOnTo(r: Request, i: nat, next: nat, s: Request) {
    && i < |r.signers| == |s.signers| && next < |r.signers| && s.signers[i].status == Signed
    && s.signers[next] == r.signers[next].(status := Invited)
    && s.jobs == r.jobs + [InviteJob(next)]
    && forall k :: 0 <= k < |r.signers| && k != i && k != next ==> s.signers[k] == r.signers[k]
  }

  /**
   A signature hands the turn on: on every run, an accepted signature in a sequential request with a
   pending real signer left invites exactly the first of them, with one invitation queued, and changes
   no other row but the signer's own.
   */
  lemma SigningHandsOn(cfg: Config, w: World, i: nat, input: SignInput, now: Time, next: nat)
    requires Reachable(cfg, w) && w.request.mode == Sequential && NextInLine(w.request, next)
    ensures var o := Sign(w.request, i, input, now);
      o.reply.Success? ==> HandsOnTo(w.request, i, next, o.next)
  {
    Workflow.ReachableInv(cfg, w);
    AuditTrail.ReachableInv(cfg, w);
    var r := w.request;
    SignsIff(r, i, input, now);
    if MaySign(r, i, input, now) {
      Signing(r, i, input, now);
      hide Sign;
      assert !OthersSigned(r, i) by { assert r.signers[next].status != Signed && next != i; }
      forall k: nat | NextInLine(r, k) ensures k == next {}
    }
  }

  // ----------------------------------------------------- declining, cancelling

  lemma Declining(r: Request, i: nat, now: Time)
    requires Workflow.WorkflowInv(r)
    ensures var o := Decline(r, i, now);
      if i >= |r.signers| then o == Outcome(r, Failure(SessionNotFound))
      else if !Running(r) then o == Outcome(r, Failure(NotActive))
      else if Overdue(r, now) then o.reply == Failure(RequestExpiredNow) && ExpiredTo(r, o.next, now)
      else if !Real(r, i) then o == Outcome(r, Failure(CarbonCopyCannotAct))
      else if r.signers[i].status == Signed then o == Outcome(r, Failure(AlreadySigned))
      else if r.signers[i].status == Declined then o == Outcome(r, Failure(AlreadyDeclined))
      else if r.signers[i].status == Pending then o == Outcome(r, Failure(NotReady))
      else if !EarlierSigned(r, i) then o == Outcome(r, Failure(NotYourTurn))
      else
        && o.reply == Success(Accepted)
        && SameButWebhooks(o.next, r.(
          status := if r.mode == Sequential then InProgress else r.status,
          signers := r.signers[i := r.signers[i].(status := Declined)],
          events := r.events + [Event(DeclinedEvent, Some(i), now, PLAIN)],
          webhooks := o.next.webhooks))
  {
    if i < |r.signers| {
      TurnInWords(r, i);
      assert Workflow.RowOk(r, i);
    }
    hide CanAct;
  }

  lemma Cancelling(r: Request, now: Time)
    ensures var o := Cancel(r, now);
      if r.status == Completed then o == Outcome(r, Failure(CannotCancelCompleted))
      else
        && o.reply == Success(Accepted)
        && SameButWebhooks(o.next, r.(
          status := Cancelled, events := r.events + [Event(CancelledEvent, None, now, PLAIN)], webhooks := o.next.webhooks))
  {
  }

  // ------------------------------------------------------------ handing over

  ghost predicate OnlyOneUp(r: Request, i: nat) {
    && i < |r.signers| && Real(r, i) && IsUp(r, i)
    && forall j :: 0 <= j < |r.signers| && j != i ==> !(Real(r, j) && IsUp(r, j))
  }

  /** The signer meant: the one named, if it is a real signer, or the only one who is up. */
  ghost predicate Meant(r: Request, wanted: Option<nat>, i: nat) {
    match wanted
    case Some(named) => i == named && i < |r.signers| && Real(r, i)
    case None => OnlyOneUp(r, i)
  }

  lemma {:induction false} OneWaiting(r: Request, i: nat, n: nat)
    requires n <= |r.signers|
    ensures Waiting(r, n) == [i] <==> i < n && Real(r, i) && IsUp(r, i) && forall j :: 0 <= j < n && j != i ==> !(Real(r, j) && IsUp(r, j))
    ensures Waiting(r, n) == [] <==> forall j :: 0 <= j < n ==> !(Real(r, j) && IsUp(r, j))
  {
    if n > 0 {
      OneWaiting(r, i, n - 1);
      if Real(r, n - 1) && IsUp(r, n - 1) {
        var before := Waiting(r, n - 1);
        assert before != [] ==> |before + [n - 1]| > 1;
        assert before == [] ==> before + [n - 1] == [n - 1];
      }
    }
  }

  /** Why nobody is meant: the one named is not a real signer here, nobody is up, or several are. */
  ghost function WhyNobody(r: Request, wanted: Option<nat>): Refusal {
    if wanted.Some? then SignerNotOnRequest
    else if forall j :: 0 <= j < |r.signers| ==> !(Real(r, j) && IsUp(r, j)) then NobodyWaiting
    else SignerIdRequired
  }

  lemma ChosenIsMeant(r: Request, wanted: Option<nat>, i: nat)
    ensures ChooseSigner(r, wanted) == Success(i) <==> Meant(r, wanted, i)
    ensures ChooseSigner(r, wanted).Failure? ==> ChooseSigner(r, wanted).error == WhyNobody(r, wanted)
  {
    OneWaiting(r, i, |r.signers|);
    if wanted.None? && |Waiting(r, |r.signers|)| == 1 {
      assert Waiting(r, |r.signers|) == [Waiting(r, |r.signers|)[0]];
    }
  }

  /**
   On every run, a handover in time is to the signer meant and to nobody else: that row alone is marked,
   and one entry names it. It is refused, and nothing changes, if nobody is meant, or if the one meant
   has signed, has declined, is still pending in sequential mode (unless an approver), or has earlier
   real signers unsigned.
   */
  lemma HandoverIsToTheSignerMeant(cfg: Config, w: World, wanted: Option<nat>, now: Time, i: nat)
    requires Reachable(cfg, w) && Running(w.request) && !Overdue(w.request, now) && Meant(w.request, wanted, i)
    ensures var r := w.request;
      var o := InPersonSession(r, wanted, now);
      if r.signers[i].status == Signed then o == Outcome(r, Failure(AlreadySigned))
      else if r.signers[i].status == Declined then o == Outcome(r, Failure(AlreadyDeclined))
      else if !EarlierSigned(r, i) || (r.mode == Sequential && r.signers[i].status == Pending && r.signers[i].role == Signer) then
        o == Outcome(r, Failure(NotYourTurn))
      else
        && o.reply == Success(HandedTo(i))
        && SameButWebhooks(o.next, r.(
          signers := r.signers[i := r.signers[i].(auth := InPerson)],
          events := r.events + [Event(HandedOverEvent, Some(i), now, PLAIN.(inPerson := true))],
          webhooks := o.next.webhooks))
  {
    Workflow.ReachableInv(cfg, w);
    ChosenIsMeant(w.request, wanted, i);
    TurnInWords(w.request, i);
    assert Workflow.RowOk(w.request, i);
    hide ChooseSigner;
    hide Waiting;
    hide CanAct;
  }

  /** When nobody is meant, nothing changes and the refusal says why. */
  lemma HandoverToNobody(r: Request, wanted: Option<nat>, now: Time)
    requires Running(r) && !Overdue(r, now) && forall i: nat :: !Meant(r, wanted, i)
    ensures InPersonSession(r, wanted, now) == Outcome(r, Failure(WhyNobody(r, wanted)))
  {
    var chosen := ChooseSigner(r, wanted);
    ChosenIsMeant(r, wanted, if chosen.Success? then chosen.value else 0);
    assert chosen.Failure?;
    hide ChooseSigner;
    hide Waiting;
    hide CanAct;
  }

  /** Too late, or no longer running: the request expires, or nothing happens. */
  lemma HandoverTooLate(r: Request, wanted: Option<nat>, now: Time)
    ensures var o := InPersonSession(r, wanted, now);
      && (!Running(r) ==> o == Outcome(r, Failure(NotActive)))
      && (Running(r) && Overdue(r, now) ==> o.reply == Failure(RequestExpiredNow) && ExpiredTo(r, o.next, now))
  {
    hide ChooseSigner;
    hide CanAct;
  }
}
