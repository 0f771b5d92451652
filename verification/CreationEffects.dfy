/** A request that is created is the one that was asked for: said of what was given and what is stored. */
module CreationEffects {
  import opened Prelude
  import opened SigningModel
  import opened SigningRuns
  import Workflow
  import AuditTrail
  import CallEffects

  function RoleGiven(s: NewSigner): Role {
    match s.role
    case Some(role) => role
    case None => Signer
  }

  function OrderGiven(given: seq<NewSigner>, g: nat): nat
    requires g < |given|
  {
    match given[g].orderIndex
    case Some(order) => order
    case None => g
  }

  /** The row holds the `g`-th signer given, with its role and order index or the defaults. */
  predicate Stores(given: seq<NewSigner>, g: nat, row: SignerRow) {
    g < |given| && row.email == given[g].email && row.role == RoleGiven(given[g]) && row.orderIndex == OrderGiven(given, g)
  }

  // ------------------------------------------------- rows and given signers

  lemma DefaultsInWords(given: seq<NewSigner>, g: nat)
    requires g < |given|
    ensures WithDefaults(given)[g] == OrderedSigner(given[g].email, RoleGiven(given[g]), OrderGiven(given, g))
  {
  }

  lemma SameElements<T(!new)>(a: seq<T>, b: seq<T>, k: nat)
    requires multiset(a) == multiset(b) && k < |a|
    ensures exists g :: 0 <= g < |b| && b[g] == a[k]
  {
    assert a[k] in multiset(a);
    assert a[k] in b;
  }

  lemma {:induction false} TwiceIn<T(!new)>(s: seq<T>, g: nat, h: nat)
    requires g < h < |s| && s[g] == s[h]
    ensures multiset(s)[s[g]] >= 2
  {
    assert s == s[..h] + [s[h]] + s[h + 1..];
    assert s[g] in s[..h] by { assert s[..h][g] == s[g]; }
  }

  lemma {:induction false} OnceIfDistinct(s: seq<OrderedSigner>, x: OrderedSigner)
    requires DistinctOrder(s)
    ensures multiset(s)[x] <= 1
  {
    if s != [] {
      var n := |s| - 1;
      assert s == s[..n] + [s[n]];
      OnceIfDistinct(s[..n], x);
      if x == s[n] { assert x !in s[..n]; }
    }
  }

  /** A rearrangement has different order indexes exactly when the original has; likewise for emails. */
  lemma DistinctStays(a: seq<OrderedSigner>, b: seq<OrderedSigner>)
    requires multiset(a) == multiset(b) && DistinctOrder(a)
    ensures DistinctOrder(b)
  {
    forall g, h | 0 <= g < h < |b| ensures b[g].orderIndex != b[h].orderIndex {
      SameElements(b, a, g);
      SameElements(b, a, h);
      var k :| 0 <= k < |a| && a[k] == b[g];
      var l :| 0 <= l < |a| && a[l] == b[h];
      if k == l {
        TwiceIn(b, g, h);
        OnceIfDistinct(a, b[g]);
      }
    }
  }

  lemma {:induction false} OnceIfOtherEmails(s: seq<OrderedSigner>, x: OrderedSigner)
    requires DistinctEmails(s)
    ensures multiset(s)[x] <= 1
  {
    if s != [] {
      var n := |s| - 1;
      assert s == s[..n] + [s[n]];
      OnceIfOtherEmails(s[..n], x);
      if x == s[n] { assert x !in s[..n]; }
    }
  }

  lemma OtherEmailsStay(a: seq<OrderedSigner>, b: seq<OrderedSigner>)
    requires multiset(a) == multiset(b) && DistinctEmails(a)
    ensures DistinctEmails(b)
  {
    forall g, h | 0 <= g < h < |b| ensures b[g].email != b[h].email {
      SameElements(b, a, g);
      SameElements(b, a, h);
      var k :| 0 <= k < |a| && a[k] == b[g];
      var l :| 0 <= l < |a| && a[l] == b[h];
      if k == l {
        TwiceIn(b, g, h);
        OnceIfOtherEmails(a, b[g]);
      }
    }
  }

  // -------------------------------------------------------------- the request

  ghost predicate HoldsOne(given: seq<NewSigner>, row: SignerRow) {
    exists g: nat :: Stores(given, g, row)
  }

  ghost predicate HasRow(given: seq<NewSigner>, g: nat, rows: seq<SignerRow>) {
    exists k :: 0 <= k < |rows| && Stores(given, g, rows[k])
  }

  /** Rows and given signers match one to one. */
  ghost predicate StoresAll(given: seq<NewSigner>, rows: seq<SignerRow>) {
    && |rows| == |given|
    && (forall k :: 0 <= k < |rows| ==> HoldsOne(given, rows[k]))
    && (forall g: nat :: g < |given| ==> HasRow(given, g, rows))
    && (forall k, g: nat, h: nat :: 0 <= k < |rows| && Stores(given, g, rows[k]) && Stores(given, h, rows[k]) ==> g == h)
    && (forall k, l, g: nat :: 0 <= k < l < |rows| ==> !(Stores(given, g, rows[k]) && Stores(given, g, rows[l])))
  }

  lemma RowsStoreAll(given: seq<NewSigner>, mode: Mode)
    requires DistinctOrder(SortByOrder(WithDefaults(given)))
    ensures StoresAll(given, InitialRows(mode, SortByOrder(WithDefaults(given))))
  {
    var all := WithDefaults(given);
    var ordered := SortByOrder(all);
    var rows := InitialRows(mode, ordered);
    Workflow.SortSorts(all);
    DistinctStays(ordered, all);
    hide SortByOrder;
    forall k | 0 <= k < |rows| ensures HoldsOne(given, rows[k]) {
      SameElements(ordered, all, k);
      var g: nat :| g < |all| && all[g] == ordered[k];
      DefaultsInWords(given, g);
      assert Stores(given, g, rows[k]);
    }
    forall g: nat | g < |given| ensures HasRow(given, g, rows) {
      SameElements(all, ordered, g);
      var k: nat :| k < |ordered| && ordered[k] == all[g];
      DefaultsInWords(given, g);
      assert Stores(given, g, rows[k]);
    }
    forall k, g: nat, h: nat | 0 <= k < |rows| && Stores(given, g, rows[k]) && Stores(given, h, rows[k]) ensures g == h {
      DefaultsInWords(given, g);
      DefaultsInWords(given, h);
    }
    forall k, l, g: nat | 0 <= k < l < |rows| ensures !(Stores(given, g, rows[k]) && Stores(given, g, rows[l])) {
      assert ordered[k].orderIndex != ordered[l].orderIndex;
    }
  }

  /**
   The request stored is the one asked for: its deadline and mode are those given, each given signer has
   exactly one row with its email, role and order index (or the defaults), the fields are those of the
   template, and nothing is signed or recorded but the creation.
   */
  lemma CreatedAsAsked(birth: Birth)
    requires birth.Created().Success?
    ensures var r := birth.Created().value;
      && r.deadline == birth.input.deadline
      && r.mode == (match birth.input.mode case Some(mode) => mode case None => Sequential)
      && r.status == AwaitingSignature && r.signatures == [] && r.lost == birth.lost
      && r.events == [Event(CreatedEvent, None, birth.now, PLAIN)]
      && StoresAll(birth.input.signers, r.signers)
      && |r.fields| == |birth.template|
      && forall f :: 0 <= f < |r.fields| ==>
           r.fields[f].name == birth.template[f].name && r.fields[f].required == birth.template[f].required
           && r.fields[f].value == Undefined && r.fields[f].filledAt == None
  {
    RowsStoreAll(birth.input.signers, birth.Created().value.mode);
    hide SortByOrder;
    hide StoresAll;
    hide InitialRows;
    hide InviteJobs;
  }

  /** The rows that are invited, in order. */
  function InvitedAmong(rows: seq<SignerRow>): seq<Job> {
    if rows == [] then []
    else
      var n := |rows| - 1;
      InvitedAmong(rows[..n]) + if rows[n].status == Invited then [InviteJob(n)] else []
  }

  lemma {:induction false} InvitesInWords(rows: seq<SignerRow>)
    ensures InviteJobs(rows) == InvitedAmong(rows)
  {
    if rows != [] { InvitesInWords(rows[..|rows| - 1]); }
  }

  /** Invitations go to every invited row, in order, if they are to be sent; and then subscribers are told, unless that cannot be queued. */
  lemma SendsAsAsked(birth: Birth)
    requires birth.Created().Success?
    ensures var r := birth.Created().value;
      && r.jobs == (if birth.input.sendInvites then InvitedAmong(r.signers) else [])
      && r.webhooks == (if 0 in birth.lost then [] else [RequestCreated])
                       + (if birth.input.sendInvites && !birth.sentLost then [RequestSent] else [])
  {
    InvitesInWords(birth.Created().value.signers);
    hide SortByOrder;
    hide InviteJobs;
    hide InitialRows;
  }

  // -------------------------------------------------------- who is turned away

  /** Two given signers share an email. */
  ghost predicate SharedEmail(given: seq<NewSigner>) {
    exists g, h :: 0 <= g < h < |given| && given[g].email == given[h].email
  }

  /** Two given signers share an order index, counting the default ones. */
  ghost predicate SharedOrder(given: seq<NewSigner>) {
    exists g: nat, h: nat :: g < h < |given| && OrderGiven(given, g) == OrderGiven(given, h)
  }

  lemma SharedInWords(given: seq<NewSigner>)
    ensures DistinctEmails(SortByOrder(WithDefaults(given))) <==> !SharedEmail(given)
    ensures DistinctOrder(SortByOrder(WithDefaults(given))) <==> !SharedOrder(given)
  {
    var all := WithDefaults(given);
    var ordered := SortByOrder(all);
    Workflow.SortSorts(all);
    if DistinctEmails(ordered) { OtherEmailsStay(ordered, all); }
    if DistinctEmails(all) { OtherEmailsStay(all, ordered); }
    if DistinctOrder(ordered) { DistinctStays(ordered, all); }
    if DistinctOrder(all) { DistinctStays(all, ordered); }
    hide SortByOrder;
    EmailsInWords(given);
    OrdersInWords(given);
    hide DistinctEmails;
    hide DistinctOrder;
  }

  lemma EmailsInWords(given: seq<NewSigner>)
    ensures DistinctEmails(WithDefaults(given)) <==> !SharedEmail(given)
  {
    var all := WithDefaults(given);
    assert forall g :: 0 <= g < |given| ==> all[g].email == given[g].email;
    if g, h :| 0 <= g < h < |given| && given[g].email == given[h].email {
      assert all[g].email == all[h].email;
    } else {
      forall g, h | 0 <= g < h < |all| ensures all[g].email != all[h].email {
        assert given[g].email != given[h].email;
      }
    }
  }

  lemma OrdersInWords(given: seq<NewSigner>)
    ensures DistinctOrder(WithDefaults(given)) <==> !SharedOrder(given)
  {
    var all := WithDefaults(given);
    forall g: nat | g < |given| ensures all[g].orderIndex == OrderGiven(given, g) { DefaultsInWords(given, g); }
    if g: nat, h: nat :| g < h < |given| && OrderGiven(given, g) == OrderGiven(given, h) {
      assert all[g].orderIndex == all[h].orderIndex;
    } else {
      forall g, h | 0 <= g < h < |all| ensures all[g].orderIndex != all[h].orderIndex {
        assert OrderGiven(given, g) != OrderGiven(given, h);
      }
    }
  }

  ghost function FirstObjection(input: NewRequest, template: seq<TemplateField>): Refusal {
    if !input.documentFound then DocumentNotFound
    else if input.documentCompleted then DocumentCompleted
    else if input.signers == [] then NoSigners
    else if |input.signers| > 50 then TooManySigners
    else if SharedEmail(input.signers) then DuplicateEmails
    else if SharedOrder(input.signers) then DuplicateOrder
    else if input.ruleTargetGiven then RuleTargetGiven
    else if exists f :: 0 <= f < |template| && template[f].assigneeOrder >= |input.signers| then AssigneeOutOfRange
    else AttachmentField
  }

  /** A request is created if and only if all of this holds; otherwise the refusal is the first that applies. */
  lemma CreatedIff(birth: Birth)
    ensures birth.Created().Success? <==>
      && birth.input.documentFound && !birth.input.documentCompleted && 1 <= |birth.input.signers| <= 50
      && !SharedEmail(birth.input.signers) && !SharedOrder(birth.input.signers) && !birth.input.ruleTargetGiven
      && forall f :: 0 <= f < |birth.template| ==>
           birth.template[f].assigneeOrder < |birth.input.signers| && !birth.template[f].attachment
    ensures birth.Created().Failure? ==> birth.Created().error == FirstObjection(birth.input, birth.template)
  {
    var given := birth.input.signers;
    SharedInWords(given);
    Workflow.SortSorts(WithDefaults(given));
    hide SortByOrder;
    hide DistinctEmails;
    hide DistinctOrder;
    hide SharedEmail;
    hide SharedOrder;
  }
}
