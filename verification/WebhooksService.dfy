/**
 The webhook service as it updates its rows: one object per endpoint, holding its delivery history.
 Each method is proved to do to every endpoint what the corresponding step of the model does.
 */
module WebhooksService {
  import opened Prelude
  import opened Webhooks

  class EndpointRow {
    const organizationId: nat
    const events: seq<string>
    const createdAt: nat
    var active: bool
    var disabledAt: Option<nat>
    var deliveries: seq<Delivery>

    constructor (organizationId: nat, events: seq<string>, now: nat)
      ensures Image() == NewEndpoint(organizationId, events, now)
    {
      this.organizationId, this.events, createdAt := organizationId, events, now;
      active, disabledAt, deliveries := true, None, [];
    }

    function Image(): Endpoint
      reads this
    {
      Endpoint(organizationId, events, createdAt, active, disabledAt, deliveries)
    }

    predicate Wants(organizationId: nat, event: string)
      reads this
    {
      this.organizationId == organizationId && active && (event in events || "*" in events)
    }

    method Enqueue(event: string, now: nat)
      modifies this
      ensures Image() == Enqueued(old(Image()), event, now)
    {
      deliveries := deliveries + [Delivery(event, Pending, 0, None, None, now, None, None)];
    }

    /** One attempt at a delivery; `retry` says that the job throws, so the queue will try again. */
    method Attempt(row: nat, outcome: Outcome, now: nat) returns (retry: bool)
      requires row < |deliveries|
      modifies `deliveries
      ensures Image() == Tried(old(Image()), row, outcome, now)
      ensures retry <==> active && !Succeeds(outcome)
    {
      var d := deliveries[row];
      var attempts := d.attempts + 1;
      if !active {
        deliveries := deliveries[row := d.(status := Failed, attempts := attempts,
                                           error := Some("endpoint disabled"), lastAttemptAt := Some(now))];
        return false;
      }
      match outcome {
        case Response(code, text) =>
          if 200 <= code < 300 {
            deliveries := deliveries[row := d.(status := Delivered, attempts := attempts,
                                               responseStatus := Some(code), error := None, lastAttemptAt := Some(now), deliveredAt := Some(now))];
            return false;
          }
          deliveries := deliveries[row := d.(status := Failed, attempts := attempts,
                                             responseStatus := Some(code), error := Some("HTTP " + text), lastAttemptAt := Some(now))];
        case TransportError(message) =>
          if RETURNED_HTTP <= message {
            assert deliveries[row := d] == deliveries;
          } else {
            deliveries := deliveries[row := d.(status := Failed, attempts := attempts,
                                               error := Some(message), lastAttemptAt := Some(now))];
          }
      }
      return true;
    }

    /** The sweep's decision on one active endpoint: how many failures since when, if they disable it. */
    method GiveUpIfDead(now: nat, afterDays: nat, minFailures: nat) returns (verdict: Option<(nat, nat)>)
      requires active
      modifies `active, `disabledAt
      ensures Image() == Swept(old(Image()), now, afterDays, minFailures)
      ensures verdict.Some? <==> GivenUp(old(Image()), now, afterDays, minFailures)
      ensures verdict.Some? ==> verdict.value.1 == old(WindowStart(Image())) && verdict.value.0 == CountFailed(deliveries, verdict.value.1)
    {
      hide CountFailed;
      hide FindFirst;
      var lastSuccess := FindFirst(deliveries, Delivered);
      var since := if lastSuccess.Some? && lastSuccess.value.deliveredAt.Some? then lastSuccess.value.deliveredAt.value else createdAt;
      assert since == WindowStart(Image());
      if now - since < afterDays * DAY_MS { return None; }
      var failures := CountFailed(deliveries, since);
      if failures < minFailures { return None; }
      active, disabledAt := false, Some(now);
      return Some((failures, since));
    }
  }

  datatype NotFound = NotFound

  class Service {
    var endpoints: seq<EndpointRow>

    constructor ()
      ensures Valid() && endpoints == []
    {
      endpoints := [];
    }

    ghost predicate Valid()
      reads this
    {
      forall j, k :: 0 <= j < k < |endpoints| ==> endpoints[j] != endpoints[k]
    }

    ghost function Images(): (images: seq<Endpoint>)
      reads this, endpoints
      ensures |images| == |endpoints| && forall k :: 0 <= k < |endpoints| ==> images[k] == endpoints[k].Image()
    {
      seq(|endpoints|, k requires 0 <= k < |endpoints| reads this, endpoints => endpoints[k].Image())
    }

    /** The state at the instant of a call. */
    ghost function State(now: nat): System
      reads this, endpoints
    {
      System(now, Images())
    }

    method Create(organizationId: nat, events: seq<string>, now: nat) returns (id: nat)
      requires Valid()
      modifies this
      ensures Valid() && State(now) == Step(old(State(now)), Register(organizationId, events))
      ensures id == |old(endpoints)| < |endpoints|
    {
      var row := new EndpointRow(organizationId, events, now);
      id := |endpoints|;
      endpoints := endpoints + [row];
    }

    /** Fans an event out; returns how many endpoints it was queued for. */
    method EmitEvent(organizationId: nat, event: string, now: nat) returns (count: nat)
      requires Valid()
      modifies endpoints
      ensures Valid() && State(now) == Step(old(State(now)), Emit(organizationId, event))
      ensures count == Receivers(old(Images()), organizationId, event)
    {
      hide Step;
      count := 0;
      ghost var before := Images();
      for n := 0 to |endpoints|
        invariant forall k :: 0 <= k < n ==> endpoints[k].Image() == Emitted(before[k], organizationId, event, now)
        invariant forall k :: n <= k < |endpoints| ==> endpoints[k].Image() == before[k]
        invariant count == Receivers(before[..n], organizationId, event)
      {
        ReceiversGrow(before, n, organizationId, event);
        assert endpoints[n].Image() == before[n];
        if endpoints[n].Wants(organizationId, event) {
          endpoints[n].Enqueue(event, now);
          count := count + 1;
        }
      }
      assert before[..|endpoints|] == before;
      StepIsPointwise(System(now, before), Emit(organizationId, event), State(now));
    }

    method Send(organizationId: nat, id: nat, now: nat) returns (result: Result<nat, NotFound>)
      requires Valid()
      modifies endpoints
      ensures Valid() && State(now) == Step(old(State(now)), Ping(organizationId, id))
      ensures result == if Found(old(State(now)), organizationId, id) then Success(|old(Images())[id].deliveries|) else Failure(NotFound)
    {
      if id < |endpoints| && endpoints[id].organizationId == organizationId {
        result := Success(|endpoints[id].deliveries|);
        endpoints[id].Enqueue("ping", now);
      } else {
        result := Failure(NotFound);
      }
    }

    /** One attempt at a queued delivery, unless it is gone; `retry` says that the job throws. */
    method AttemptDelivery(id: nat, row: nat, outcome: Outcome, now: nat) returns (retry: bool)
      requires Valid()
      modifies endpoints
      ensures Valid() && State(now) == Step(old(State(now)), Deliver(id, row, outcome))
      ensures retry <==> id < |endpoints| && row < |old(Images())[id].deliveries| && old(endpoints[id].active) && !Succeeds(outcome)
    {
      hide Step;
      hide Attempted;
      ghost var before := Images();
      retry := false;
      if id < |endpoints| && row < |endpoints[id].deliveries| {
        retry := endpoints[id].Attempt(row, outcome, now);
      }
      StepIsPointwise(System(now, before), Deliver(id, row, outcome), State(now));
    }

    method Switch(organizationId: nat, id: nat, active: bool, now: nat) returns (result: Result<Health, NotFound>)
      requires Valid()
      modifies endpoints
      ensures Valid() && State(now) == Step(old(State(now)), SetActive(organizationId, id, active))
      ensures result == if Found(old(State(now)), organizationId, id) then Success(DescribeHealth(endpoints[id].Image(), now)) else Failure(NotFound)
    {
      if id < |endpoints| && endpoints[id].organizationId == organizationId {
        var e := endpoints[id];
        e.active, e.disabledAt := active, if active then None else Some(now);
        result := Success(DescribeHealth(e.Image(), now));
      } else {
        result := Failure(NotFound);
      }
    }

    /** Looks at every endpoint that is active, and disables those nothing has reached for the whole window. */
    method SweepUnhealthyEndpoints(now: nat, afterDays: nat, minFailures: nat) returns (scanned: nat, disabled: seq<Report>)
      requires Valid()
      modifies endpoints
      ensures Valid() && State(now) == Step(old(State(now)), Sweep(afterDays, minFailures))
      ensures disabled == Reports(old(Images()), now, afterDays, minFailures)
      ensures scanned == CountActive(old(Images()))
    {
      hide Step;
      hide CountFailed;
      hide WindowStart;
      hide GivenUp;
      scanned, disabled := 0, [];
      ghost var before := Images();
      for n := 0 to |endpoints|
        invariant forall k :: 0 <= k < n ==> endpoints[k].Image() == Swept(before[k], now, afterDays, minFailures)
        invariant forall k :: n <= k < |endpoints| ==> endpoints[k].Image() == before[k]
        invariant disabled == Reports(before[..n], now, afterDays, minFailures)
        invariant scanned == CountActive(before[..n])
      {
        ReportsGrow(before, n, now, afterDays, minFailures);
        var e := endpoints[n];
        assert e.Image() == before[n];
        if e.active {
          scanned := scanned + 1;
          var verdict := e.GiveUpIfDead(now, afterDays, minFailures);
          if verdict.Some? {
            disabled := disabled + [Report(n, e.organizationId, verdict.value.0, verdict.value.1)];
          }
        }
      }
      assert before[..|endpoints|] == before;
      StepIsPointwise(System(now, before), Sweep(afterDays, minFailures), State(now));
    }
  }
}
