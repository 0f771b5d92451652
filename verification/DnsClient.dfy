/**
 The provisioning client: an object that talks to the zone through one API call after another, any
 of which may fail. Its methods are proved to make exactly the calls of the plan, up to the failure.
 */
module DnsClient {
  import opened Prelude
  import opened Dns

  /** The listing without its first occurrence of `r`. */
  function RemoveFirst(records: seq<Record>, r: Record): (rest: seq<Record>)
    ensures multiset(rest) == multiset(records) - multiset{r}
  {
    if records == [] then []
    else
      assert records == [records[0]] + records[1..];
      if records[0] == r then records[1..] else [records[0]] + RemoveFirst(records[1..], r)
  }

  datatype ApiFailure = ApiFailure

  class CeruleanClient {
    const dryRun: bool

    /** The records of the zone in the order in which the API lists them. */
    var records: seq<Record>

    /** How many more mutating calls the API will serve before one fails. */
    var allowance: nat

    /** The mutating calls served so far. */
    var made: seq<ApiCall>

    /** What a dry run says it would do. */
    var planned: seq<(string, string)>

    constructor (dryRun: bool, records: seq<Record>, allowance: nat)
      ensures this.dryRun == dryRun && this.records == records && this.allowance == allowance
      ensures made == [] && planned == []
    {
      this.dryRun, this.records, this.allowance := dryRun, records, allowance;
      made, planned := [], [];
    }

    function Contents(): Zone
      reads this
    {
      multiset(records)
    }

    method Mutate(call: ApiCall) returns (ok: bool)
      requires !dryRun
      modifies this
      ensures ok <==> old(allowance) > 0
      ensures planned == old(planned)
      ensures if ok then Contents() == Apply(old(Contents()), call) && made == old(made) + [call] && allowance == old(allowance) - 1
              else records == old(records) && made == old(made) && allowance == 0
    {
      if allowance == 0 { return false; }
      allowance := allowance - 1;
      match call {
        case Add(r) => records := records + [r];
        case Delete(r) => records := RemoveFirst(records, r);
      }
      made := made + [call];
      return true;
    }

    /** Exactly the calls `done` have been served since the zone held `before` and `already` had been made. */
    ghost predicate Served(before: Zone, already: seq<ApiCall>, done: seq<ApiCall>)
      reads this
    {
      made == already + done && Contents() == ApplyAll(before, done)
    }

    method MakeNext(ghost before: Zone, ghost already: seq<ApiCall>, ghost done: seq<ApiCall>, call: ApiCall)
        returns (ok: bool)
      requires !dryRun && Served(before, already, done)
      modifies this
      ensures ok ==> Served(before, already, done + [call])
      ensures !ok ==> Served(before, already, done) && allowance == 0
      ensures planned == old(planned)
    {
      ok := Mutate(call);
      assert (done + [call])[..|done|] == done;
    }

    /** A CNAME blocks the A record from being created, so it goes first. */
    method DeleteCnames(matching: seq<Record>, ghost before: Zone, ghost already: seq<ApiCall>)
        returns (ok: bool, ghost done: seq<ApiCall>)
      requires !dryRun && Served(before, already, [])
      modifies this
      ensures planned == old(planned) && Served(before, already, done)
      ensures if ok then done == CnameDeletes(matching) else done < CnameDeletes(matching) && allowance == 0
    {
      done := [];
      assert CnameDeletes(matching[..0]) == [];
      hide Served;
      hide CnameDeletes;
      for n := 0 to |matching|
        invariant planned == old(planned)
        invariant done == CnameDeletes(matching[..n]) && Served(before, already, done)
      {
        CnamePrefix(matching, n);
        if matching[n].kind == Cname {
          ok := MakeNext(before, already, done, Delete(matching[n]));
          if !ok { return; }
          done := done + [Delete(matching[n])];
        }
      }
      assert matching[..|matching|] == matching;
      ok := true;
    }

    /**
     The address resolves now, so the leftovers are safe to remove: stale addresses, and duplicates of
     the one kept. `first` is what this run has made already, `done` that and what this pass makes.
     */
    method DeleteStale(matching: seq<Record>, keep: nat, ghost before: Zone, ghost already: seq<ApiCall>, ghost first: seq<ApiCall>)
        returns (ok: bool, ghost done: seq<ApiCall>)
      requires !dryRun && Served(before, already, first)
      modifies this
      ensures planned == old(planned) && Served(before, already, done)
      ensures if ok then done == first + StaleDeletes(matching, keep) else done < first + StaleDeletes(matching, keep) && allowance == 0
    {
      done := first;
      assert StaleDeletes(matching[..0], keep) == [] && first + [] == first;
      hide Served;
      hide StaleDeletes;
      for n := 0 to |matching|
        invariant planned == old(planned)
        invariant done == first + StaleDeletes(matching[..n], keep) && Served(before, already, done)
      {
        StaleNext(first, matching, keep, n);
        if matching[n].kind == A && n != keep {
          ok := MakeNext(before, already, done, Delete(matching[n]));
          if !ok { return; }
          done := done + [Delete(matching[n])];
        }
      }
      assert matching[..|matching|] == matching;
      ok := true;
    }

    /** The three passes over the records found: CNAMEs, the wanted record, stale A records. */
    method MakeChanges(matching: seq<Record>, wanted: Record, ghost before: Zone, ghost already: seq<ApiCall>)
        returns (ok: bool, ghost done: seq<ApiCall>)
      requires !dryRun && Served(before, already, [])
      modifies this
      ensures planned == old(planned) && Served(before, already, done)
      ensures if ok then done == Changes(matching, wanted) else done < Changes(matching, wanted) && allowance == 0
    {
      hide Served;
      hide CnameDeletes;
      hide StaleDeletes;
      var keep := Keep(matching, wanted);
      ok, done := DeleteCnames(matching, before, already);
      if !ok { return; }
      if keep == |matching| {
        ok := MakeNext(before, already, done, Add(wanted));
        if !ok { return; }
        done := done + [Add(wanted)];
      }
      ghost var first := done;
      assert first == CnameDeletes(matching) + Missing(matching, wanted);
      ok, done := DeleteStale(matching, keep, before, already, first);
    }

    /** `answers` says whether the listing request gets an answer; `done` is the calls served. */
    method ReconcileDnsRecord(fqdn: string, address: string, answers: bool)
        returns (result: Result<Action, ApiFailure>, ghost done: seq<ApiCall>)
      modifies this
      ensures Served(old(Contents()), old(made), done)
      ensures dryRun ==> result == Success(Planned) && done == [] && planned == old(planned) + [(fqdn, address)]
      ensures !dryRun ==> planned == old(planned) && done <= Plan(old(records), fqdn, address)
      ensures !dryRun && result.Success? ==>
        done == Plan(old(records), fqdn, address) && result.value == ActionFor(old(records), fqdn, address)
      ensures !dryRun && result.Failure? && answers ==> allowance == 0 && done < Plan(old(records), fqdn, address)
      ensures !dryRun && !answers ==> result.Failure? && done == []
    {
      hide CnameDeletes;
      hide StaleDeletes;
      hide Missing;
      hide Desired;
      hide Keep;
      done := [];
      if dryRun {
        planned := planned + [(fqdn, address)];
        return Success(Planned), done;
      }
      if !answers { return Failure(ApiFailure), done; }
      var wanted := Wanted(fqdn, address);
      var matching := Matching(records, fqdn);
      UnchangedIffSettled(records, fqdn, address);
      if |matching| == 1 && Desired(matching, wanted) == 1 {
        return Success(Unchanged), done;
      }
      assert Plan(records, fqdn, address) == Changes(matching, wanted);
      var ok;
      ok, done := MakeChanges(matching, wanted, Contents(), made);
      if !ok { return Failure(ApiFailure), done; }
      return Success(if matching == [] then Added else Updated), done;
    }

    /** Reconciles every host in turn; `answers[n]` says whether the listing request for the n-th host gets an answer. */
    method ProvisionHosts(hosts: seq<string>, address: string, answers: seq<bool>) returns (ok: bool)
      requires |answers| == |hosts|
      modifies this
      ensures dryRun ==> ok && Contents() == old(Contents()) && made == old(made)
      ensures !dryRun ==> LoopRun(old(Contents()), Contents(), hosts, address, ok)
    {
      for n := 0 to |hosts|
        invariant dryRun ==> Contents() == old(Contents()) && made == old(made)
        invariant !dryRun ==> LoopRun(old(Contents()), Contents(), hosts[..n], address, true)
      {
        ghost var before := records;
        ghost var z := Contents();
        ghost var done;
        var result;
        result, done := ReconcileDnsRecord(hosts[n], address, answers[n]);
        if !dryRun {
          assert done == Plan(before, hosts[n], address)[..|done|];
          assert HostRunBy(z, Contents(), hosts[n], address, result.Success?, before, |done|);
          LoopRunGrows(old(Contents()), z, Contents(), hosts, address, n, result.Success?);
        }
        if result.Failure? { return false; }
      }
      assert hosts[..|hosts|] == hosts;
      return true;
    }
  }

  lemma {:induction false} CnamePrefix(matching: seq<Record>, n: nat)
    requires n < |matching|
    ensures CnameDeletes(matching[..n + 1]) <= CnameDeletes(matching)
    ensures CnameDeletes(matching[..n + 1])
      == CnameDeletes(matching[..n]) + if matching[n].kind == Cname then [Delete(matching[n])] else []
    decreases |matching|
  {
    var m := |matching| - 1;
    assert matching[..n + 1][..n] == matching[..n];
    if n < m {
      assert matching[..m][..n] == matching[..n] && matching[..m][..n + 1] == matching[..n + 1];
      CnamePrefix(matching[..m], n);
    } else {
      assert matching[..n + 1] == matching;
    }
  }

  lemma {:induction false} StalePrefix(matching: seq<Record>, keep: nat, n: nat)
    requires n < |matching|
    ensures StaleDeletes(matching[..n + 1], keep) <= StaleDeletes(matching, keep)
    ensures StaleDeletes(matching[..n + 1], keep)
      == StaleDeletes(matching[..n], keep) + if matching[n].kind == A && n != keep then [Delete(matching[n])] else []
    decreases |matching|
  {
    var m := |matching| - 1;
    assert matching[..n + 1][..n] == matching[..n];
    if n < m {
      assert matching[..m][..n] == matching[..n] && matching[..m][..n + 1] == matching[..n + 1];
      StalePrefix(matching[..m], keep, n);
    } else {
      assert matching[..n + 1] == matching;
    }
  }

  lemma StaleNext(first: seq<ApiCall>, matching: seq<Record>, keep: nat, n: nat)
    requires n < |matching|
    ensures var done := first + StaleDeletes(matching[..n], keep);
      var next := if matching[n].kind == A && n != keep then done + [Delete(matching[n])] else done;
      && next == first + StaleDeletes(matching[..n + 1], keep)
      && next <= first + StaleDeletes(matching, keep)
  {
    hide StaleDeletes;
    StalePrefix(matching, keep, n);
  }

  /** A run that completed the first `n` hosts and then ran on the next one, to its end or not. */
  lemma {:induction false} LoopRunGrows(z: Zone, mid: Zone, after: Zone, hosts: seq<string>, address: string, n: nat, complete: bool)
    requires n < |hosts| && LoopRun(z, mid, hosts[..n], address, true)
    requires HostRun(mid, after, hosts[n], address, complete)
    ensures complete ==> LoopRun(z, after, hosts[..n + 1], address, true)
    ensures !complete ==> LoopRun(z, after, hosts, address, false)
    decreases n
  {
    hide HostRun;
    if n == 0 {
      assert LoopRun(after, after, [], address, true);
      assert hosts[..1][1..] == [];
      assert complete ==> LoopRun(after, after, hosts[..1][1..], address, true);
      assert hosts[..0] == [] && mid == z;
      assert complete ==> HostRun(z, after, hosts[..1][0], address, true) && LoopRun(after, after, hosts[..1][1..], address, true);
    } else {
      var first :| HostRun(z, first, hosts[..n][0], address, true) && LoopRun(first, mid, hosts[..n][1..], address, true);
      assert hosts[..n][1..] == hosts[1..][..n - 1];
      assert hosts[..n + 1][1..] == hosts[1..][..n];
      LoopRunGrows(first, mid, after, hosts[1..], address, n - 1, complete);
      assert hosts[..n + 1][0] == hosts[0];
    }
  }
}
