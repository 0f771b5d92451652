/**
 DNS reconciliation: making a hostname have exactly one A record, by a sequence of API calls any of
 which may be the last one before the run fails.

 The zone is a bag of records with normalised types and names; a TTL is not part of a record. A
 delete call removes one matching record.
 */
module Dns {
  import opened Prelude

  datatype Kind = A | Cname | OtherKind(name: string)

  datatype Record = Record(kind: Kind, name: string, value: string)

  type Zone = multiset<Record>

  datatype ApiCall = Add(record: Record) | Delete(record: Record)

  /** An A or CNAME record at the name: what reconciliation is about. */
  predicate AddressAt(r: Record, fqdn: string) {
    (r.kind == A || r.kind == Cname) && r.name == fqdn
  }

  function Wanted(fqdn: string, address: string): Record {
    Record(A, fqdn, address)
  }

  function Apply(z: Zone, call: ApiCall): Zone {
    match call
    case Add(r) => z + multiset{r}
    case Delete(r) => z - multiset{r}
  }

  function ApplyAll(z: Zone, calls: seq<ApiCall>): Zone {
    if calls == [] then z else Apply(ApplyAll(z, calls[..|calls| - 1]), calls[|calls| - 1])
  }

  // ---------------------------------------------------------------- the plan

  function Matching(listing: seq<Record>, fqdn: string): seq<Record> {
    if listing == [] then []
    else
      var n := |listing| - 1;
      if AddressAt(listing[n], fqdn) then Matching(listing[..n], fqdn) + [listing[n]] else Matching(listing[..n], fqdn)
  }

  /** The position of the record that is kept: the first wanted one, or `|matching|` if there is none. */
  function Keep(matching: seq<Record>, wanted: Record): (k: nat)
    ensures k <= |matching|
    ensures k < |matching| ==> matching[k] == wanted
    ensures forall j :: 0 <= j < k ==> matching[j] != wanted
  {
    if matching == [] then 0
    else
      var k := Keep(matching[..|matching| - 1], wanted);
      if k < |matching| - 1 then k
      else if matching[|matching| - 1] == wanted then |matching| - 1
      else |matching|
  }

  function CnameDeletes(matching: seq<Record>): seq<ApiCall> {
    if matching == [] then []
    else
      var last := matching[|matching| - 1];
      var before := CnameDeletes(matching[..|matching| - 1]);
      if last.kind == Cname then before + [Delete(last)] else before
  }

  function StaleDeletes(matching: seq<Record>, keep: nat): seq<ApiCall> {
    if matching == [] then []
    else
      var n := |matching| - 1;
      var before := StaleDeletes(matching[..n], keep);
      if matching[n].kind == A && n != keep then before + [Delete(matching[n])] else before
  }

  function Missing(matching: seq<Record>, wanted: Record): seq<ApiCall> {
    if Keep(matching, wanted) == |matching| then [Add(wanted)] else []
  }

  /** The calls made, in order: conflicting CNAMEs go, the wanted record comes, stale A records go. */
  function Changes(matching: seq<Record>, wanted: Record): seq<ApiCall> {
    CnameDeletes(matching) + Missing(matching, wanted) + StaleDeletes(matching, Keep(matching, wanted))
  }

  function Plan(listing: seq<Record>, fqdn: string, address: string): seq<ApiCall> {
    Changes(Matching(listing, fqdn), Wanted(fqdn, address))
  }

  datatype Action = Unchanged | Updated | Added | Planned

  function Desired(matching: seq<Record>, wanted: Record): nat {
    if matching == [] then 0
    else Desired(matching[..|matching| - 1], wanted) + if matching[|matching| - 1] == wanted then 1 else 0
  }

  function ActionFor(listing: seq<Record>, fqdn: string, address: string): Action {
    var matching := Matching(listing, fqdn);
    if |matching| == 1 && Desired(matching, Wanted(fqdn, address)) == 1 then Unchanged
    else if matching == [] then Added
    else Updated
  }

  // ------------------------------------------------------- counting the calls

  function Deletes(calls: seq<ApiCall>, r: Record): nat {
    if calls == [] then 0
    else Deletes(calls[..|calls| - 1], r) + if calls[|calls| - 1] == Delete(r) then 1 else 0
  }

  function Adds(calls: seq<ApiCall>, r: Record): nat {
    if calls == [] then 0
    else Adds(calls[..|calls| - 1], r) + if calls[|calls| - 1] == Add(r) then 1 else 0
  }

  lemma {:induction false} CountsAdd(a: seq<ApiCall>, b: seq<ApiCall>, r: Record)
    ensures Deletes(a + b, r) == Deletes(a, r) + Deletes(b, r)
    ensures Adds(a + b, r) == Adds(a, r) + Adds(b, r)
  {
    if b == [] {
      assert a + b == a;
    } else {
      assert (a + b)[..|a + b| - 1] == a + b[..|b| - 1];
      CountsAdd(a, b[..|b| - 1], r);
    }
  }

  /** As long as no more copies are deleted than were there, the bag counts copies. */
  lemma {:induction false} ApplyCounts(z: Zone, calls: seq<ApiCall>, r: Record)
    requires Deletes(calls, r) <= z[r]
    ensures ApplyAll(z, calls)[r] == z[r] - Deletes(calls, r) + Adds(calls, r)
  {
    if calls != [] {
      ApplyCounts(z, calls[..|calls| - 1], r);
    }
  }

  lemma {:induction false} PrefixCounts(calls: seq<ApiCall>, k: nat, r: Record)
    requires k <= |calls|
    ensures Deletes(calls[..k], r) <= Deletes(calls, r) && Adds(calls[..k], r) <= Adds(calls, r)
  {
    assert calls == calls[..k] + calls[k..];
    CountsAdd(calls[..k], calls[k..], r);
  }

  lemma {:induction false} MatchingCounts(listing: seq<Record>, fqdn: string, r: Record)
    ensures multiset(Matching(listing, fqdn))[r] == if AddressAt(r, fqdn) then multiset(listing)[r] else 0
    ensures forall k :: 0 <= k < |Matching(listing, fqdn)| ==> AddressAt(Matching(listing, fqdn)[k], fqdn)
  {
    if listing != [] {
      var n := |listing| - 1;
      assert listing == listing[..n] + [listing[n]];
      MatchingCounts(listing[..n], fqdn, r);
    }
  }

  lemma {:induction false} CnameCounts(matching: seq<Record>, r: Record)
    ensures Deletes(CnameDeletes(matching), r) == if r.kind == Cname then multiset(matching)[r] else 0
    ensures Adds(CnameDeletes(matching), r) == 0
  {
    if matching != [] {
      var n := |matching| - 1;
      assert matching == matching[..n] + [matching[n]];
      CnameCounts(matching[..n], r);
      CountsAdd(CnameDeletes(matching[..n]), [Delete(matching[n])], r);
      assert [Delete(matching[n])][..0] == [];
    }
  }

  lemma OneMore(calls: seq<ApiCall>, call: ApiCall, r: Record)
    ensures Deletes(calls + [call], r) == Deletes(calls, r) + if call == Delete(r) then 1 else 0
    ensures Adds(calls + [call], r) == Adds(calls, r) + if call == Add(r) then 1 else 0
  {
    assert (calls + [call])[..|calls|] == calls;
  }

  lemma CopiesOfLast(matching: seq<Record>, r: Record)
    requires matching != []
    ensures var n := |matching| - 1; multiset(matching)[r] == multiset(matching[..n])[r] + if matching[n] == r then 1 else 0
  {
    var n := |matching| - 1;
    assert matching == matching[..n] + [matching[n]];
  }

  lemma {:induction false} StaleCounts(matching: seq<Record>, keep: nat, r: Record)
    ensures Adds(StaleDeletes(matching, keep), r) == 0
    ensures Deletes(StaleDeletes(matching, keep), r)
      == if r.kind != A then 0
         else if keep < |matching| && matching[keep] == r then multiset(matching)[r] - 1
         else multiset(matching)[r]
  {
    if matching != [] {
      var n := |matching| - 1;
      CopiesOfLast(matching, r);
      StaleCounts(matching[..n], keep, r);
      OneMore(StaleDeletes(matching[..n], keep), Delete(matching[n]), r);
    }
  }

  /** What the whole plan deletes and adds of each record. */
  lemma PlanCounts(listing: seq<Record>, fqdn: string, address: string, r: Record)
    ensures var plan := Plan(listing, fqdn, address);
      var had := multiset(listing)[r];
      if !AddressAt(r, fqdn) then Deletes(plan, r) == 0 && Adds(plan, r) == 0
      else if r != Wanted(fqdn, address) then Deletes(plan, r) == had && Adds(plan, r) == 0
      else if had == 0 then Deletes(plan, r) == 0 && Adds(plan, r) == 1
      else Deletes(plan, r) == had - 1 && Adds(plan, r) == 0
  {
    var matching := Matching(listing, fqdn);
    var wanted := Wanted(fqdn, address);
    var keep := Keep(matching, wanted);
    MatchingCounts(listing, fqdn, r);
    CnameCounts(matching, r);
    StaleCounts(matching, keep, r);
    CountsAdd(CnameDeletes(matching), Missing(matching, wanted), r);
    CountsAdd(CnameDeletes(matching) + Missing(matching, wanted), StaleDeletes(matching, keep), r);
    assert Missing(matching, wanted) != [] ==> Missing(matching, wanted)[..0] == [];
    assert keep < |matching| <==> wanted in multiset(matching) by {
      if keep == |matching| { assert forall j :: 0 <= j < |matching| ==> matching[j] != wanted; }
    }
  }

  // -------------------------------------------------- every intermediate state

  /** The zone after the first `k` calls of a run that lists `listing`. */
  function After(listing: seq<Record>, fqdn: string, address: string, k: nat): Zone
    requires k <= |Plan(listing, fqdn, address)|
  {
    ApplyAll(multiset(listing), Plan(listing, fqdn, address)[..k])
  }

  lemma AfterCounts(listing: seq<Record>, fqdn: string, address: string, k: nat, r: Record)
    requires k <= |Plan(listing, fqdn, address)|
    ensures var calls := Plan(listing, fqdn, address)[..k];
      After(listing, fqdn, address, k)[r] == multiset(listing)[r] - Deletes(calls, r) + Adds(calls, r)
  {
    PlanCounts(listing, fqdn, address, r);
    PrefixCounts(Plan(listing, fqdn, address), k, r);
    ApplyCounts(multiset(listing), Plan(listing, fqdn, address)[..k], r);
  }

  /** No record at another name or of another type changes, at any point of a run. */
  lemma UnrelatedUntouched(listing: seq<Record>, fqdn: string, address: string, k: nat, r: Record)
    requires k <= |Plan(listing, fqdn, address)| && !AddressAt(r, fqdn)
    ensures After(listing, fqdn, address, k)[r] == multiset(listing)[r]
  {
    AfterCounts(listing, fqdn, address, k, r);
    PlanCounts(listing, fqdn, address, r);
    PrefixCounts(Plan(listing, fqdn, address), k, r);
  }

  /** A correct A record that is there is never lost, at any point of a run. */
  lemma CorrectRecordKept(listing: seq<Record>, fqdn: string, address: string, k: nat)
    requires k <= |Plan(listing, fqdn, address)| && Wanted(fqdn, address) in listing
    ensures Wanted(fqdn, address) in After(listing, fqdn, address, k)
  {
    var wanted := Wanted(fqdn, address);
    assert multiset(listing)[wanted] > 0;
    AfterCounts(listing, fqdn, address, k, wanted);
    PlanCounts(listing, fqdn, address, wanted);
    PrefixCounts(Plan(listing, fqdn, address), k, wanted);
  }

  function CnameCount(listing: seq<Record>, fqdn: string): nat {
    |CnameDeletes(Matching(listing, fqdn))|
  }

  ghost predicate HasKind(z: Zone, fqdn: string, kind: Kind) {
    exists r :: r in z && r.kind == kind && r.name == fqdn
  }

  /** The calls that come after the CNAME deletes. */
  function Rest(listing: seq<Record>, fqdn: string, address: string): seq<ApiCall> {
    var matching := Matching(listing, fqdn);
    var wanted := Wanted(fqdn, address);
    Missing(matching, wanted) + StaleDeletes(matching, Keep(matching, wanted))
  }

  lemma PlanSplits(listing: seq<Record>, fqdn: string, address: string)
    ensures Plan(listing, fqdn, address) == CnameDeletes(Matching(listing, fqdn)) + Rest(listing, fqdn, address)
    ensures |Plan(listing, fqdn, address)| == CnameCount(listing, fqdn) + |Rest(listing, fqdn, address)|
    ensures forall j :: 0 <= j < CnameCount(listing, fqdn) ==>
      Plan(listing, fqdn, address)[j] == CnameDeletes(Matching(listing, fqdn))[j]
  {
  }

  lemma RestCounts(listing: seq<Record>, fqdn: string, address: string, r: Record)
    ensures r.kind == Cname ==> Deletes(Rest(listing, fqdn, address), r) == 0
  {
    var matching := Matching(listing, fqdn);
    var wanted := Wanted(fqdn, address);
    StaleCounts(matching, Keep(matching, wanted), r);
    CountsAdd(Missing(matching, wanted), StaleDeletes(matching, Keep(matching, wanted)), r);
    assert Missing(matching, wanted) != [] ==> Missing(matching, wanted)[..0] == [];
  }

  /** Up to the `CnameCount`-th call only CNAMEs are deleted. */
  lemma EarlyCalls(listing: seq<Record>, fqdn: string, address: string, k: nat, r: Record)
    requires k <= CnameCount(listing, fqdn)
    ensures CnameCount(listing, fqdn) <= |Plan(listing, fqdn, address)|
    ensures Plan(listing, fqdn, address)[..k] == CnameDeletes(Matching(listing, fqdn))[..k]
    ensures Adds(Plan(listing, fqdn, address)[..k], r) == 0
    ensures r.kind == A ==> Deletes(Plan(listing, fqdn, address)[..k], r) == 0
  {
    PlanSplits(listing, fqdn, address);
    var cs := CnameDeletes(Matching(listing, fqdn));
    assert Plan(listing, fqdn, address)[..k] == cs[..k];
    CnameCounts(Matching(listing, fqdn), r);
    PrefixCounts(cs, k, r);
  }

  lemma {:induction false} TakeAfter(a: seq<ApiCall>, b: seq<ApiCall>, k: nat, r: Record)
    requires |a| <= k <= |a + b|
    ensures Deletes((a + b)[..k], r) == Deletes(a, r) + Deletes(b[..k - |a|], r)
    ensures Deletes(a + b, r) == Deletes(a, r) + Deletes(b, r)
    ensures Deletes(b[..k - |a|], r) <= Deletes(b, r)
  {
    hide Deletes;
    hide Adds;
    assert (a + b)[..k] == a + b[..k - |a|];
    CountsAdd(a, b[..k - |a|], r);
    CountsAdd(a, b, r);
    PrefixCounts(b, k - |a|, r);
  }

  /** From then on no CNAME is left to delete. */
  lemma LateCalls(listing: seq<Record>, fqdn: string, address: string, k: nat, r: Record)
    requires CnameCount(listing, fqdn) <= k <= |Plan(listing, fqdn, address)|
    ensures r.kind == Cname ==> Deletes(Plan(listing, fqdn, address)[..k], r) == Deletes(Plan(listing, fqdn, address), r)
  {
    hide Rest;
    hide Plan;
    hide CnameDeletes;
    hide Deletes;
    hide Adds;
    PlanSplits(listing, fqdn, address);
    TakeAfter(CnameDeletes(Matching(listing, fqdn)), Rest(listing, fqdn, address), k, r);
    RestCounts(listing, fqdn, address, r);
  }

  /** And the very next call adds the wanted record if it is missing. */
  lemma NextCallAdds(listing: seq<Record>, fqdn: string, address: string, k: nat)
    requires CnameCount(listing, fqdn) < k <= |Plan(listing, fqdn, address)|
    requires Wanted(fqdn, address) !in listing
    ensures Adds(Plan(listing, fqdn, address)[..k], Wanted(fqdn, address)) == 1
  {
    PlanSplits(listing, fqdn, address);
    var matching := Matching(listing, fqdn);
    var wanted := Wanted(fqdn, address);
    var cs := CnameDeletes(matching);
    var rest := Rest(listing, fqdn, address);
    MatchingCounts(listing, fqdn, wanted);
    assert wanted !in multiset(listing);
    assert Keep(matching, wanted) == |matching|;
    assert Plan(listing, fqdn, address)[..k] == cs + rest[..k - |cs|];
    CountsAdd(cs, rest[..k - |cs|], wanted);
    CnameCounts(matching, wanted);
    StaleCounts(matching, |matching|, wanted);
    AddFirst(wanted, StaleDeletes(matching, |matching|), k - |cs|);
  }

  lemma AddFirst(wanted: Record, ss: seq<ApiCall>, n: nat)
    requires 0 < n <= |[Add(wanted)] + ss| && Adds(ss, wanted) == 0
    ensures Adds(([Add(wanted)] + ss)[..n], wanted) == 1
  {
    assert ([Add(wanted)] + ss)[..n] == [Add(wanted)] + ss[..n - 1];
    CountsAdd([Add(wanted)], ss[..n - 1], wanted);
    PrefixCounts(ss, n - 1, wanted);
    assert [Add(wanted)][..0] == [];
  }

  /**
   The name is without any address after exactly one prefix of the calls, and only if it had no A
   record to begin with: right after its last CNAME was deleted.
   */
  lemma WindowIff(listing: seq<Record>, fqdn: string, address: string, k: nat)
    requires k <= |Plan(listing, fqdn, address)|
    ensures var z := After(listing, fqdn, address, k);
      !HasKind(z, fqdn, A) && !HasKind(z, fqdn, Cname)
      <==> !HasKind(multiset(listing), fqdn, A) && k == CnameCount(listing, fqdn)
  {
    var z := After(listing, fqdn, address, k);
    var wanted := Wanted(fqdn, address);
    var c := CnameCount(listing, fqdn);
    PlanSplits(listing, fqdn, address);
    if HasKind(multiset(listing), fqdn, A) {
      SomeAddressStays(listing, fqdn, address, k);
    } else if k < c {
      SomeCnameLeft(listing, fqdn, address, k);
    } else if k > c {
      assert wanted !in multiset(listing);
      AddedStays(listing, fqdn, address, k);
      assert wanted in z;
    } else {
      forall r | AddressAt(r, fqdn) ensures r !in z {
        EarlyCalls(listing, fqdn, address, k, r);
        LateCalls(listing, fqdn, address, k, r);
        PlanCounts(listing, fqdn, address, r);
        AfterCounts(listing, fqdn, address, k, r);
        if r.kind == A { assert r !in multiset(listing); }
      }
    }
  }

  lemma AddedStays(listing: seq<Record>, fqdn: string, address: string, k: nat)
    requires CnameCount(listing, fqdn) < k <= |Plan(listing, fqdn, address)|
    requires Wanted(fqdn, address) !in listing
    ensures Wanted(fqdn, address) in After(listing, fqdn, address, k)
  {
    var wanted := Wanted(fqdn, address);
    NextCallAdds(listing, fqdn, address, k);
    AfterCounts(listing, fqdn, address, k, wanted);
    PlanCounts(listing, fqdn, address, wanted);
    PrefixCounts(Plan(listing, fqdn, address), k, wanted);
  }

  lemma SomeAddressStays(listing: seq<Record>, fqdn: string, address: string, k: nat)
    requires k <= |Plan(listing, fqdn, address)| && HasKind(multiset(listing), fqdn, A)
    ensures HasKind(After(listing, fqdn, address, k), fqdn, A)
  {
    var z := After(listing, fqdn, address, k);
    var wanted := Wanted(fqdn, address);
    var c := CnameCount(listing, fqdn);
    if wanted in listing {
      CorrectRecordKept(listing, fqdn, address, k);
      assert wanted in z;
    } else if k <= c {
      PlanSplits(listing, fqdn, address);
      var a :| a in multiset(listing) && a.kind == A && a.name == fqdn;
      EarlyCalls(listing, fqdn, address, k, a);
      AfterCounts(listing, fqdn, address, k, a);
      assert a in z;
    } else {
      AddedStays(listing, fqdn, address, k);
      assert wanted in z;
    }
  }

  lemma {:induction false} CnameDeletesAreCnames(matching: seq<Record>, fqdn: string)
    requires forall k :: 0 <= k < |matching| ==> AddressAt(matching[k], fqdn)
    ensures forall k :: 0 <= k < |CnameDeletes(matching)| ==>
      && CnameDeletes(matching)[k].Delete?
      && CnameDeletes(matching)[k].record.kind == Cname && CnameDeletes(matching)[k].record.name == fqdn
  {
    if matching != [] { CnameDeletesAreCnames(matching[..|matching| - 1], fqdn); }
  }

  lemma SomeCnameLeft(listing: seq<Record>, fqdn: string, address: string, k: nat)
    requires k < CnameCount(listing, fqdn) && k <= |Plan(listing, fqdn, address)|
    ensures HasKind(After(listing, fqdn, address, k), fqdn, Cname)
  {
    var cs := CnameDeletes(Matching(listing, fqdn));
    var plan := Plan(listing, fqdn, address);
    MatchingCounts(listing, fqdn, cs[k].record);
    CnameDeletesAreCnames(Matching(listing, fqdn), fqdn);
    var r := cs[k].record;
    EarlyCalls(listing, fqdn, address, k, r);
    assert cs[..k + 1][..k] == cs[..k];
    PrefixCounts(cs, k + 1, r);
    CnameCounts(Matching(listing, fqdn), r);
    AfterCounts(listing, fqdn, address, k, r);
    assert r in After(listing, fqdn, address, k);
  }

  /** A name that has an A record, and no CNAME in the way, has an A record after every single call. */
  lemma AlwaysAvailable(listing: seq<Record>, fqdn: string, address: string, k: nat)
    requires k <= |Plan(listing, fqdn, address)|
    requires HasKind(multiset(listing), fqdn, A)
    ensures HasKind(After(listing, fqdn, address, k), fqdn, A)
  {
    SomeAddressStays(listing, fqdn, address, k);
  }

  /** An A record is never added while a CNAME is present at the name. */
  lemma NeverAddedBesideCname(listing: seq<Record>, fqdn: string, address: string, k: nat)
    requires k < |Plan(listing, fqdn, address)| && Plan(listing, fqdn, address)[k].Add?
    ensures Plan(listing, fqdn, address)[k] == Add(Wanted(fqdn, address))
    ensures !HasKind(After(listing, fqdn, address, k), fqdn, Cname)
  {
    var plan := Plan(listing, fqdn, address);
    MatchingCounts(listing, fqdn, Wanted(fqdn, address));
    CnameDeletesAreCnames(Matching(listing, fqdn), fqdn);
    PlanSplits(listing, fqdn, address);
    var added := plan[k].record;
    assert plan[..k + 1][..k] == plan[..k];
    assert Adds(plan[..k + 1], added) >= 1;
    PrefixCounts(plan, k + 1, added);
    PlanCounts(listing, fqdn, address, added);
    forall r: Record | r.kind == Cname && r.name == fqdn ensures r !in After(listing, fqdn, address, k) {
      LateCalls(listing, fqdn, address, k, r);
      PlanCounts(listing, fqdn, address, r);
      PrefixCounts(plan, k, r);
      AfterCounts(listing, fqdn, address, k, r);
    }
  }

  // -------------------------------------------------------------- convergence

  /** Exactly one record at the name: the wanted one. */
  ghost predicate Settled(z: Zone, fqdn: string, address: string) {
    forall r :: AddressAt(r, fqdn) ==> z[r] == if r == Wanted(fqdn, address) then 1 else 0
  }

  lemma FullRunSettles(listing: seq<Record>, fqdn: string, address: string)
    ensures Settled(After(listing, fqdn, address, |Plan(listing, fqdn, address)|), fqdn, address)
  {
    forall r | AddressAt(r, fqdn)
      ensures After(listing, fqdn, address, |Plan(listing, fqdn, address)|)[r] == if r == Wanted(fqdn, address) then 1 else 0
    {
      FullRunCounts(listing, fqdn, address, r);
    }
  }

  lemma FullRunCounts(listing: seq<Record>, fqdn: string, address: string, r: Record)
    requires AddressAt(r, fqdn)
    ensures After(listing, fqdn, address, |Plan(listing, fqdn, address)|)[r] == if r == Wanted(fqdn, address) then 1 else 0
  {
    hide Plan;
    hide ApplyAll;
    var plan := Plan(listing, fqdn, address);
    assert plan[..|plan|] == plan;
    AfterCounts(listing, fqdn, address, |plan|, r);
    PlanCounts(listing, fqdn, address, r);
  }

  lemma SomeCall(plan: seq<ApiCall>)
    ensures plan == [] || exists r :: Deletes(plan, r) + Adds(plan, r) > 0
  {
    if plan != [] {
      var r := plan[|plan| - 1].record;
      assert Deletes(plan, r) + Adds(plan, r) > 0;
    }
  }

  /** A run makes no call exactly when the name is already as wanted, and says `Unchanged` exactly then. */
  lemma UnchangedIffSettled(listing: seq<Record>, fqdn: string, address: string)
    ensures Plan(listing, fqdn, address) == [] <==> Settled(multiset(listing), fqdn, address)
    ensures ActionFor(listing, fqdn, address) == Unchanged <==> Settled(multiset(listing), fqdn, address)
  {
    var plan := Plan(listing, fqdn, address);
    var wanted := Wanted(fqdn, address);
    var matching := Matching(listing, fqdn);
    if Settled(multiset(listing), fqdn, address) {
      forall r ensures Deletes(plan, r) == 0 && Adds(plan, r) == 0 { PlanCounts(listing, fqdn, address, r); }
      SomeCall(plan);
    }
    if plan == [] {
      forall r | AddressAt(r, fqdn) ensures multiset(listing)[r] == if r == wanted then 1 else 0 {
        PlanCounts(listing, fqdn, address, r);
      }
    }
    DesiredCounts(matching, wanted);
    forall r ensures multiset(matching)[r] == if AddressAt(r, fqdn) then multiset(listing)[r] else 0 {
      MatchingCounts(listing, fqdn, r);
    }
    if Settled(multiset(listing), fqdn, address) {
      assert multiset(matching) == multiset{wanted};
      assert |matching| == |multiset(matching)|;
    }
    if |matching| == 1 && Desired(matching, wanted) == 1 {
      assert matching == [matching[0]] && matching[..0] == [];
      assert multiset(matching) == multiset{wanted};
      assert Settled(multiset(listing), fqdn, address);
    }
  }

  /** A run says `Added` exactly when the name had neither an A nor a CNAME record, and `Updated` otherwise, unless there was nothing to do. */
  lemma AddedIffNothingThere(listing: seq<Record>, fqdn: string, address: string)
    ensures var z := multiset(listing);
      ActionFor(listing, fqdn, address) ==
      if Settled(z, fqdn, address) then Unchanged
      else if HasKind(z, fqdn, A) || HasKind(z, fqdn, Cname) then Updated
      else Added
  {
    UnchangedIffSettled(listing, fqdn, address);
    var matching := Matching(listing, fqdn);
    forall r ensures multiset(matching)[r] == if AddressAt(r, fqdn) then multiset(listing)[r] else 0 {
      MatchingCounts(listing, fqdn, r);
    }
    hide Settled;
    hide Matching;
    hide Desired;
    if matching == [] {
      forall r: Record | r.name == fqdn && (r.kind == A || r.kind == Cname) ensures r !in multiset(listing) {
        assert AddressAt(r, fqdn) && multiset(matching)[r] == 0;
      }
    } else {
      var r := matching[0];
      assert multiset(matching)[r] > 0;
      assert r in multiset(listing) && AddressAt(r, fqdn);
    }
  }

  lemma {:induction false} DesiredCounts(matching: seq<Record>, wanted: Record)
    ensures Desired(matching, wanted) == multiset(matching)[wanted]
  {
    if matching != [] {
      var n := |matching| - 1;
      assert matching == matching[..n] + [matching[n]];
      DesiredCounts(matching[..n], wanted);
    }
  }

  // ------------------------------------------------- runs over all hosts, crashing

  /** One reconciliation of a host took the zone from `z` to `after`; `complete` says whether it got to its end. */
  ghost predicate HostRun(z: Zone, after: Zone, fqdn: string, address: string, complete: bool) {
    exists listing, k :: HostRunBy(z, after, fqdn, address, complete, listing, k)
  }

  ghost predicate HostRunBy(
      z: Zone, after: Zone, fqdn: string, address: string, complete: bool, listing: seq<Record>, k: nat) {
    && multiset(listing) == z
    && k <= |Plan(listing, fqdn, address)|
    && (complete ==> k == |Plan(listing, fqdn, address)|)
    && after == After(listing, fqdn, address, k)
  }

  /** One provisioning run over the hosts in order; it may stop after any call. */
  ghost predicate LoopRun(z: Zone, after: Zone, hosts: seq<string>, address: string, complete: bool)
    decreases |hosts|
  {
    if hosts == [] then after == z
    else
      || (!complete && HostRun(z, after, hosts[0], address, false))
      || (exists mid :: HostRun(z, mid, hosts[0], address, true) && LoopRun(mid, after, hosts[1..], address, complete))
  }

  /** Zones left behind by one provisioning run after another, any of which may have stopped early. */
  ghost predicate Attempts(zones: seq<Zone>, hosts: seq<string>, address: string) {
    |zones| > 0 && forall n :: 0 <= n < |zones| - 1 ==> LoopRun(zones[n], zones[n + 1], hosts, address, false)
  }

  predicate ForSomeHost(r: Record, hosts: seq<string>) {
    exists h :: h in hosts && AddressAt(r, h)
  }

  lemma HostRunEffect(z: Zone, after: Zone, fqdn: string, address: string, complete: bool)
    requires HostRun(z, after, fqdn, address, complete)
    ensures forall r :: !AddressAt(r, fqdn) ==> after[r] == z[r]
    ensures complete ==> Settled(after, fqdn, address)
    ensures complete && Settled(z, fqdn, address) ==> after == z
  {
    var listing, k :| HostRunBy(z, after, fqdn, address, complete, listing, k);
    forall r | !AddressAt(r, fqdn) ensures after[r] == z[r] { UnrelatedUntouched(listing, fqdn, address, k, r); }
    if complete { FullRunSettles(listing, fqdn, address); }
    UnchangedIffSettled(listing, fqdn, address);
  }

  lemma {:induction false} LoopLeavesOthers(z: Zone, after: Zone, hosts: seq<string>, address: string, complete: bool, r: Record)
    requires LoopRun(z, after, hosts, address, complete) && !ForSomeHost(r, hosts)
    ensures after[r] == z[r]
    decreases |hosts|
  {
    if hosts != [] {
      assert hosts[0] in hosts && !AddressAt(r, hosts[0]);
      if !complete && HostRun(z, after, hosts[0], address, false) {
        HostRunEffect(z, after, hosts[0], address, false);
      } else {
        var mid :| HostRun(z, mid, hosts[0], address, true) && LoopRun(mid, after, hosts[1..], address, complete);
        HostRunEffect(z, mid, hosts[0], address, true);
        assert !ForSomeHost(r, hosts[1..]) by { assert forall h :: h in hosts[1..] ==> h in hosts; }
        LoopLeavesOthers(mid, after, hosts[1..], address, complete, r);
      }
    }
  }

  /** A host that is settled stays settled while a run completes over other hosts, or over the same one again. */
  lemma {:induction false} LoopKeepsSettled(z: Zone, after: Zone, hosts: seq<string>, address: string, h: string)
    requires LoopRun(z, after, hosts, address, true) && Settled(z, h, address)
    ensures Settled(after, h, address)
    decreases |hosts|
  {
    if hosts != [] {
      var mid :| HostRun(z, mid, hosts[0], address, true) && LoopRun(mid, after, hosts[1..], address, true);
      HostRunEffect(z, mid, hosts[0], address, true);
      if h != hosts[0] {
        assert forall r :: AddressAt(r, h) ==> !AddressAt(r, hosts[0]);
      }
      LoopKeepsSettled(mid, after, hosts[1..], address, h);
    }
  }

  lemma {:induction false} CompleteLoopSettles(z: Zone, after: Zone, hosts: seq<string>, address: string, h: string)
    requires LoopRun(z, after, hosts, address, true) && h in hosts
    ensures Settled(after, h, address)
    decreases |hosts|
  {
    var mid :| HostRun(z, mid, hosts[0], address, true) && LoopRun(mid, after, hosts[1..], address, true);
    HostRunEffect(z, mid, hosts[0], address, true);
    if h == hosts[0] {
      LoopKeepsSettled(mid, after, hosts[1..], address, h);
    } else {
      CompleteLoopSettles(mid, after, hosts[1..], address, h);
    }
  }

  lemma {:induction false} AttemptsLeaveOthers(zones: seq<Zone>, hosts: seq<string>, address: string, r: Record, n: nat)
    requires Attempts(zones, hosts, address) && !ForSomeHost(r, hosts) && n < |zones|
    ensures zones[n][r] == zones[0][r]
  {
    if n > 0 {
      AttemptsLeaveOthers(zones, hosts, address, r, n - 1);
      assert LoopRun(zones[n - 1], zones[n - 1 + 1], hosts, address, false);
      LoopLeavesOthers(zones[n - 1], zones[n], hosts, address, false, r);
    }
  }

  /** One wanted A record per host, no other A or CNAME there, and every unrelated record as often as in `z`. */
  ghost function CountAfter(z: Zone, hosts: seq<string>, address: string, r: Record): nat {
    if !ForSomeHost(r, hosts) then z[r] else if r == Wanted(r.name, address) then 1 else 0
  }

  /**
   Crash safety over the whole host loop: after any number of provisioning runs, each stopped after
   any of its API calls, one run that gets to its end leaves the zone with exactly one record per
   host, the wanted A record, and everything else as it was at the very beginning.
   */
  lemma CrashSafe(zones: seq<Zone>, hosts: seq<string>, address: string, final: Zone)
    requires Attempts(zones, hosts, address)
    requires LoopRun(zones[|zones| - 1], final, hosts, address, true)
    ensures forall r :: final[r] == CountAfter(zones[0], hosts, address, r)
  {
    forall r ensures final[r] == CountAfter(zones[0], hosts, address, r) {
      if ForSomeHost(r, hosts) {
        var h :| h in hosts && AddressAt(r, h);
        CompleteLoopSettles(zones[|zones| - 1], final, hosts, address, h);
      } else {
        AttemptsLeaveOthers(zones, hosts, address, r, |zones| - 1);
        LoopLeavesOthers(zones[|zones| - 1], final, hosts, address, true, r);
      }
    }
  }

  /** And the run after that changes nothing and reports `Unchanged` for every host, whatever order the records are listed in. */
  lemma ThenNothingToDo(z: Zone, final: Zone, hosts: seq<string>, address: string, h: string, listing: seq<Record>)
    requires LoopRun(z, final, hosts, address, true) && h in hosts && multiset(listing) == final
    ensures Plan(listing, h, address) == [] && ActionFor(listing, h, address) == Unchanged
  {
    CompleteLoopSettles(z, final, hosts, address, h);
    UnchangedIffSettled(listing, h, address);
  }
}
