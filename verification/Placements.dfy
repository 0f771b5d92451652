/**
 Placed fields: which signer a template placement is bound to, when a signed signer's required
 fields are filled, and that nothing changes them afterwards.
 */
module Placements {
  import opened Prelude
  import opened SigningModel
  import opened SigningRuns
  import Workflow
  import AuditTrail

  // ----------------------------------------------------------------- binding

  /** The lookup finds the one row with that order index, if there is one. */
  lemma {:induction false} LookupFinds(rows: seq<SignerRow>, order: nat)
    requires Workflow.InOrder(rows)
    ensures SignerByOrder(rows, order).Some? ==>
      SignerByOrder(rows, order).value < |rows| && rows[SignerByOrder(rows, order).value].orderIndex == order
    ensures forall k: nat :: k < |rows| && rows[k].orderIndex == order ==> SignerByOrder(rows, order) == Some(k)
  {
    if rows != [] {
      LookupFinds(rows[..|rows| - 1], order);
    }
  }

  ghost predicate EveryOrderBinds(rows: seq<SignerRow>) {
    forall order: nat :: order < |rows| ==> SignerByOrder(rows, order).Some?
  }

  ghost predicate OrdersBelowCount(rows: seq<SignerRow>) {
    forall k :: 0 <= k < |rows| ==> rows[k].orderIndex < |rows|
  }

  lemma {:induction false} OrderAtLeastPosition(rows: seq<SignerRow>, k: nat)
    requires Workflow.InOrder(rows) && k < |rows|
    ensures rows[k].orderIndex >= k
    ensures forall j :: k <= j < |rows| ==> rows[j].orderIndex >= rows[k].orderIndex + j - k
    decreases |rows| - k
  {
    if k > 0 { OrderPrefix(rows, k); }
    if k + 1 < |rows| { OrderAtLeastPosition(rows, k + 1); }
  }

  lemma {:induction false} OrderPrefix(rows: seq<SignerRow>, k: nat)
    requires Workflow.InOrder(rows) && k < |rows|
    ensures rows[k].orderIndex >= k
  {
    if k > 0 { OrderPrefix(rows, k - 1); }
  }

  lemma {:induction false} FoundOrdersArePositions(rows: seq<SignerRow>, k: nat)
    requires Workflow.InOrder(rows) && EveryOrderBinds(rows) && k < |rows|
    ensures forall j :: 0 <= j <= k ==> rows[j].orderIndex == j
  {
    if k > 0 { FoundOrdersArePositions(rows, k - 1); }
    OrderPrefix(rows, k);
    LookupFinds(rows, k);
    var m := SignerByOrder(rows, k).value;
    assert rows[m].orderIndex == k;
  }

  /**
   Pigeonhole: order indexes being distinct, every index a template may name is bound to a row
   exactly when all of them are below the number of signers, and then row `k` has index `k`.
   */
  lemma BindingIsTotalIff(rows: seq<SignerRow>)
    requires Workflow.InOrder(rows)
    ensures EveryOrderBinds(rows) <==> OrdersBelowCount(rows)
    ensures OrdersBelowCount(rows) ==>
      forall order: nat :: order < |rows| ==> rows[order].orderIndex == order && SignerByOrder(rows, order) == Some(order)
  {
    if OrdersBelowCount(rows) {
      forall order: nat | order < |rows| ensures rows[order].orderIndex == order && SignerByOrder(rows, order) == Some(order) {
        OrderPrefix(rows, order);
        OrderAtLeastPosition(rows, order);
        assert rows[|rows| - 1].orderIndex < |rows|;
        LookupFinds(rows, order);
      }
    }
    if EveryOrderBinds(rows) && rows != [] {
      FoundOrdersArePositions(rows, |rows| - 1);
    }
  }

  /**
   When a request is created, each template placement is bound to the one signer whose order index it
   names, or to nobody if no signer has that index.
   */
  lemma CreationBinds(birth: Birth, f: nat)
    requires birth.Created().Success? && f < |birth.template|
    ensures var r := birth.Created().value;
      && |r.fields| == |birth.template|
      && r.fields[f].required == birth.template[f].required
      && (forall i: nat :: i < |r.signers| ==>
          (r.fields[f].owner == Some(i) <==> r.signers[i].orderIndex == birth.template[f].assigneeOrder))
      && (r.fields[f].owner.Some? ==> r.fields[f].owner.value < |r.signers|)
      && (Workflow.InOrder(r.signers) && OrdersBelowCount(r.signers) ==> r.fields[f].owner == Some(birth.template[f].assigneeOrder))
  {
    var r := birth.Created().value;
    Workflow.CreatedKeeps(birth);
    assert birth.template[f].assigneeOrder < |r.signers| by {
      Workflow.SortSorts(WithDefaults(birth.input.signers));
    }
    LookupFinds(r.signers, birth.template[f].assigneeOrder);
    BindingIsTotalIff(r.signers);
  }

  // ------------------------------------------------------------ filling

  ghost predicate FieldOk(r: Request, f: nat)
    requires f < |r.fields|
  {
    var field := r.fields[f];
    && (field.owner.Some? ==> field.owner.value < |r.signers|)
    && (if field.owner.Some? && r.signers[field.owner.value].status == Signed
        then field.required ==> !IsEmpty(field.value)
        else field.value == Undefined && field.filledAt == None)
  }

  ghost predicate FieldsOk(r: Request) {
    forall f :: 0 <= f < |r.fields| ==> FieldOk(r, f)
  }

  /** Same fields, and the same signers have signed. */
  ghost predicate SameFields(r: Request, s: Request) {
    && s.fields == r.fields && |s.signers| == |r.signers|
    && forall i :: 0 <= i < |r.signers| ==> (s.signers[i].status == Signed <==> r.signers[i].status == Signed)
  }

  lemma SameFieldsKeep(r: Request, s: Request)
    requires FieldsOk(r) && SameFields(r, s)
    ensures FieldsOk(s)
  {
    assert forall f :: 0 <= f < |r.fields| ==> FieldOk(r, f) ==> FieldOk(s, f);
  }

  lemma {:induction false} DispatchSameFields(r: Request, targets: seq<nat>, automatic: bool, now: Time)
    requires forall k :: 0 <= k < |targets| ==> targets[k] < |r.signers|
    ensures DispatchReminders(r, targets, automatic, now).fields == r.fields
  {
    if targets != [] { DispatchSameFields(r, targets[..|targets| - 1], automatic, now); }
  }

  lemma SendSameFields(r: Request, rule: ReminderRule, automatic: bool, now: Time)
    ensures SameFields(r, SendReminders(r, rule, automatic, now))
  {
    TargetsInRange(r, rule, now, |r.signers|);
    Workflow.SendSameWorkflow(r, rule, automatic, now);
    DispatchSameFields(r, ReminderTargets(r, rule, now, |r.signers|), automatic, now);
  }

  /** What collecting a signature does to each field: only the signer's own fields change. */
  lemma CollectedFields(r: Request, i: nat, input: SignInput, now: Time)
    requires SignAccepted(r, i, input, now)
    ensures var s := Sign(r, i, input, now).next;
      && |s.fields| == |r.fields| && |s.signers| == |r.signers|
      && s.signers[i].status == Signed
      && (forall k :: 0 <= k < |r.signers| && k != i ==> (s.signers[k].status == Signed <==> r.signers[k].status == Signed))
      && forall f :: 0 <= f < |r.fields| ==>
        && s.fields[f].owner == r.fields[f].owner && s.fields[f].required == r.fields[f].required
        && (!Requested(r, i, f) ==> s.fields[f] == r.fields[f])
        && (Requested(r, i, f) && r.fields[f].required ==> !IsEmpty(s.fields[f].value))
  {
    SignResults(r, i, input, now);
    var values := ResolveFieldValues(r, i, input.values).value;
    var c := Collect(r, i, values, input.certificate, now);
    var submitted := Submitted(input.values);
    assert c.fields == CaptureFieldValues(r.fields, values, now);
    forall f | 0 <= f < |r.fields|
      ensures !Requested(r, i, f) ==> c.fields[f] == r.fields[f]
      ensures Requested(r, i, f) && r.fields[f].required ==> !IsEmpty(c.fields[f].value)
    {
      if Requested(r, i, f) {
        assert values == submitted;
        assert r.fields[f].required ==> !IsEmpty(ValueOf(submitted, f));
      } else {
        assert f !in values;
      }
    }
    assert AdvanceWorkflow(c, now).fields == c.fields;
  }

  lemma SignKeepsFields(r: Request, i: nat, input: SignInput, now: Time)
    requires FieldsOk(r)
    ensures FieldsOk(Sign(r, i, input, now).next)
  {
    var s := Sign(r, i, input, now).next;
    SignResults(r, i, input, now);
    if SignAccepted(r, i, input, now) {
      CollectedFields(r, i, input, now);
      forall f | 0 <= f < |s.fields| ensures FieldOk(s, f) {
        assert FieldOk(r, f);
      }
    } else {
      SameFieldsKeep(r, s);
    }
  }

  lemma LinkCallsSameFields(r: Request, t: nat, now: Time)
    ensures SameFields(r, PublicSession(r, t, now).next)
    ensures SameFields(r, Decline(r, t, now).next)
  {
  }

  lemma OperatorCallsSameFields(r: Request, wanted: Option<nat>, now: Time)
    ensures SameFields(r, InPersonSession(r, wanted, now).next)
    ensures SameFields(r, Cancel(r, now).next)
  {
  }

  /** Only a signing call touches fields. */
  lemma OtherCallsSameFields(cfg: Config, r: Request, call: Call, now: Time)
    requires !call.SignCall?
    ensures SameFields(r, Serve(cfg, r, call, now).next)
  {
    match call
    case OpenCall(token) => LinkCallsSameFields(r, token, now);
    case DeclineCall(token) => LinkCallsSameFields(r, token, now);
    case CancelCall => OperatorCallsSameFields(r, None, now);
    case RemindCall(only) => SendSameFields(r, ReminderRule(DAY_MS, None, only), false, now);
    case SweepCall => SendSameFields(r, SweepRule(cfg), true, now);
    case HandOverCall(wanted) => OperatorCallsSameFields(r, wanted, now);
    case EditTemplate(_) =>
  }

  lemma ServeKeepsFields(cfg: Config, r: Request, call: Call, now: Time)
    requires FieldsOk(r)
    ensures FieldsOk(Serve(cfg, r, call, now).next)
  {
    if call.SignCall? {
      SignKeepsFields(r, call.token, call.input, now);
    } else {
      OtherCallsSameFields(cfg, r, call, now);
      SameFieldsKeep(r, Serve(cfg, r, call, now).next);
    }
  }

  lemma {:induction false} RunKeepsFields(cfg: Config, w: World, calls: seq<TimedCall>)
    requires FieldsOk(w.request)
    ensures FieldsOk(Run(cfg, w, calls).request)
    decreases |calls|
  {
    hide Serve;
    if calls != [] {
      ServeKeepsFields(cfg, w.request, calls[0].call, w.now + calls[0].wait);
      RunKeepsFields(cfg, Step(cfg, w, calls[0]), calls[1..]);
    }
  }

  lemma CreatedFields(birth: Birth)
    requires birth.Created().Success?
    ensures FieldsOk(birth.Created().value)
  {
    var r := birth.Created().value;
    AuditTrail.CreatedFresh(birth);
    forall f | 0 <= f < |r.fields| ensures FieldOk(r, f) {
      assert |r.fields| == |birth.template|;
      CreationBinds(birth, f);
    }
  }

  lemma ReachableFields(cfg: Config, w: World)
    requires Reachable(cfg, w)
    ensures FieldsOk(w.request)
  {
    var birth, calls :| ReachedBy(cfg, w, birth, calls);
    CreatedFields(birth);
    RunKeepsFields(cfg, Start(birth), calls);
  }

  // ------------------------------------------------------------ main results

  /** On every run, each required field of a signed signer holds a value that is not empty. */
  lemma SignedMeansFilled(cfg: Config, w: World, f: nat, i: nat)
    requires Reachable(cfg, w) && f < |w.request.fields| && i < |w.request.signers|
    requires w.request.fields[f].owner == Some(i) && w.request.fields[f].required
    requires w.request.signers[i].status == Signed
    ensures !IsEmpty(w.request.fields[f].value)
  {
    ReachableFields(cfg, w);
    assert FieldOk(w.request, f);
  }

  /** A completed request has a required field filled exactly when the field is bound to a real signer. */
  lemma CompletedFilledIff(cfg: Config, w: World, f: nat)
    requires Reachable(cfg, w) && w.request.status == Completed
    requires f < |w.request.fields| && w.request.fields[f].required
    ensures !IsEmpty(w.request.fields[f].value) <==>
      w.request.fields[f].owner.Some? && w.request.fields[f].owner.value < |w.request.signers|
      && w.request.signers[w.request.fields[f].owner.value].role != CarbonCopy
  {
    ReachableFields(cfg, w);
    Workflow.ReachableInv(cfg, w);
    assert FieldOk(w.request, f);
    if w.request.fields[f].owner.Some? {
      assert Workflow.RowOk(w.request, w.request.fields[f].owner.value);
    }
  }

  /** One signer, with order index 5, and one required placement for the signer with index 0. */
  function UnboundBirth(): Birth {
    Birth(NewRequest(true, false, None, None, [NewSigner("a@example.org", None, Some(5))], false, true),
          [TemplateField("initials", false, true, 0)], 0, {}, false)
  }

  const BLANK_SIGNATURE := SignInput(true, [], NoCertificate)

  lemma UnboundRows()
    ensures UnboundBirth().Created().Success?
    ensures var r := UnboundBirth().Created().value;
      && r.Active() && r.deadline == None && r.mode == Sequential && r.signatures == []
      && r.signers == [SignerRow("a@example.org", Signer, 5, Invited, 0, Unstated)]
      && r.fields == [RequestField(None, "initials", true, Undefined, None)]
  {
    var birth := UnboundBirth();
    var ordered := [OrderedSigner("a@example.org", Signer, 5)];
    assert WithDefaults(birth.input.signers) == ordered;
    assert SortByOrder(ordered) == ordered by {
      assert ordered[..0] == [] && InsertByOrder(ordered[0], []) == ordered;
    }
    var rows := InitialRows(Sequential, ordered);
    assert SignerByOrder(rows, 0) == None by { assert rows[..0] == []; }
    var placements := PlacementsForRequest(birth.template, rows);
    assert placements == [RequestField(None, "initials", true, Undefined, None)];
    assert rows == [SignerRow("a@example.org", Signer, 5, Invited, 0, Unstated)];
  }

  /**
   The range check alone does not bind placements: such a request is accepted, nobody is asked for
   the field, and a blank signature completes the request with the required field still empty.
   */
  lemma UnboundPlacementCompletesEmpty(cfg: Config)
    ensures UnboundBirth().Created().Success?
    ensures var last := Run(cfg, Start(UnboundBirth()), [TimedCall(0, SignCall(0, BLANK_SIGNATURE))]).request;
      && last.status == Completed
      && |last.fields| == 1 && last.fields[0].required && last.fields[0].owner == None && IsEmpty(last.fields[0].value)
  {
    UnboundRows();
    var w := Start(UnboundBirth());
    var r := w.request;
    var calls := [TimedCall(0, SignCall(0, BLANK_SIGNATURE))];
    assert !Requested(r, 0, 0);
    assert ResolveFieldValues(r, 0, []) == Success(map[]);
    assert SignCheck(r, 0) == None;
    SignResults(r, 0, BLANK_SIGNATURE, w.now);
    var c := Collect(r, 0, map[], NoCertificate, w.now);
    assert AllSigned(c);
    assert c.fields == r.fields;
    assert calls[1..] == [];
    assert Run(cfg, w, calls) == Step(cfg, w, calls[0]);
  }

  /** `s` differs from `r` in field `f` at most if its signer had not signed yet. */
  ghost predicate Frozen(r: Request, s: Request, f: nat)
    requires f < |r.fields|
  {
    && |s.fields| == |r.fields| && |s.signers| == |r.signers|
    && s.fields[f].owner == r.fields[f].owner
    && s.fields[f].required == r.fields[f].required
    && (r.fields[f].owner.Some? && r.fields[f].owner.value < |r.signers| && r.signers[r.fields[f].owner.value].status == Signed
        ==> s.fields[f] == r.fields[f] && s.signers[r.fields[f].owner.value].status == Signed)
  }

  lemma ServeFreezes(cfg: Config, r: Request, call: Call, now: Time, f: nat)
    requires f < |r.fields|
    ensures Frozen(r, Serve(cfg, r, call, now).next, f)
  {
    if call.SignCall? {
      SignResults(r, call.token, call.input, now);
      if SignAccepted(r, call.token, call.input, now) {
        CollectedFields(r, call.token, call.input, now);
      }
    } else {
      OtherCallsSameFields(cfg, r, call, now);
    }
  }

  /**
   Evidence is frozen: once a signer has signed, none of its fields changes in any continuation,
   whoever calls; and no field ever changes hands or stops being required. Edits of the template are
   among the calls, but they cannot matter: placements are copied at creation, and no later call reads
   the template.
   */
  lemma {:induction false} SignedFieldsAreFrozen(cfg: Config, w: World, calls: seq<TimedCall>, f: nat)
    requires Workflow.WorkflowInv(w.request) && f < |w.request.fields|
    ensures Frozen(w.request, Run(cfg, w, calls).request, f)
    decreases |calls|
  {
    hide Serve;
    if calls != [] {
      var now := w.now + calls[0].wait;
      Workflow.ServeKeeps(cfg, w.request, calls[0].call, now);
      ServeFreezes(cfg, w.request, calls[0].call, now, f);
      SignedFieldsAreFrozen(cfg, Step(cfg, w, calls[0]), calls[1..], f);
    }
  }
}
