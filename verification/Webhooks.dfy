/**
 Webhook endpoints and the history of their deliveries: the health the console shows, and the sweep
 that disables an endpoint nothing has reached for too long.

 Times are milliseconds. A call happens at one instant, the clock of the state it is made in.
 */
module Webhooks {
  import opened Prelude

  datatype Status = Pending | Delivered | Failed

  datatype Delivery = Delivery(
    event: string,
    status: Status,
    attempts: nat,
    responseStatus: Option<nat>,
    error: Option<string>,
    createdAt: nat,
    lastAttemptAt: Option<nat>,
    deliveredAt: Option<nat>)

  datatype Endpoint = Endpoint(
    organizationId: nat,
    events: seq<string>,
    createdAt: nat,
    active: bool,
    disabledAt: Option<nat>,
    deliveries: seq<Delivery>)

  // ----------------------------------------------------------- one attempt

  /** What the request to the subscriber comes to; `text` is the status code in decimal. */
  datatype Outcome = Response(code: nat, text: string) | TransportError(message: string)

  const RETURNED_HTTP := "Webhook endpoint returned HTTP"

  predicate Succeeds(outcome: Outcome) {
    outcome.Response? && 200 <= outcome.code < 300
  }

  /** The row after one more attempt. A transport error that reads like an HTTP one is taken as recorded already. */
  function Attempted(d: Delivery, active: bool, outcome: Outcome, now: nat): Delivery {
    var tried := d.(attempts := d.attempts + 1, lastAttemptAt := Some(now));
    if !active then tried.(status := Failed, error := Some("endpoint disabled"))
    else match outcome
      case Response(code, text) =>
        if Succeeds(outcome) then
          tried.(status := Delivered, responseStatus := Some(code), error := None, deliveredAt := Some(now))
        else
          tried.(status := Failed, responseStatus := Some(code), error := Some("HTTP " + text))
      case TransportError(message) =>
        if RETURNED_HTTP <= message then d else tried.(status := Failed, error := Some(message))
  }

  function Fresh(event: string, now: nat): Delivery {
    Delivery(event, Pending, 0, None, None, now, None, None)
  }

  // --------------------------------------------------------------- queries

  function Key(d: Delivery, status: Status): Option<nat> {
    if status == Delivered then d.deliveredAt else d.lastAttemptAt
  }

  /** Descending order puts a row without a timestamp first. */
  predicate RanksBefore(a: Option<nat>, b: Option<nat>) {
    b.Some? && (a.None? || a.value > b.value)
  }

  /** The first row with that status, latest timestamp first; among equals the earlier row. */
  function FindFirst(rows: seq<Delivery>, status: Status): (first: Option<Delivery>)
    ensures first.Some? ==> first.value in rows && first.value.status == status
    ensures forall d :: d in rows && d.status == status ==> first.Some? && !RanksBefore(Key(d, status), Key(first.value, status))
  {
    if rows == [] then None
    else
      var n := |rows| - 1;
      var before := FindFirst(rows[..n], status);
      assert rows == rows[..n] + [rows[n]];
      if rows[n].status == status && (before.None? || RanksBefore(Key(rows[n], status), Key(before.value, status))) then Some(rows[n])
      else before
  }

  predicate FailedSince(d: Delivery, since: nat) {
    d.status == Failed && match d.lastAttemptAt
      case Some(at) => at > since
      case None => d.createdAt > since
  }

  function CountFailed(rows: seq<Delivery>, since: nat): nat {
    if rows == [] then 0
    else CountFailed(rows[..|rows| - 1], since) + if FailedSince(rows[|rows| - 1], since) then 1 else 0
  }

  // ---------------------------------------------------------------- health

  datatype HealthStatus = Disabled | Failing | Healthy

  datatype Health = Health(
    status: HealthStatus,
    failuresSinceSuccess: nat,
    lastSuccessAt: Option<nat>,
    lastFailureAt: Option<nat>,
    lastError: Option<string>,
    disabledReason: Option<Reason>)

  /** What the sentence about a disabled endpoint says: how many failures in how many days, and the last error. */
  datatype Reason = Reason(failures: nat, days: nat, lastError: Option<string>)

  /** Days to the nearest whole one, half a day up, but never less than one. */
  function DaysBetween(since: nat, now: nat): (days: nat)
    ensures days >= 1
    ensures forall n: nat :: now - since >= n * DAY_MS ==> days >= n
  {
    var days := (now - since + DAY_MS / 2) / DAY_MS;
    if days < 1 then 1 else days
  }

  function DescribeHealth(e: Endpoint, now: nat): Health {
    var lastSuccess := FindFirst(e.deliveries, Delivered);
    var lastFailure := FindFirst(e.deliveries, Failed);
    var lastSuccessAt := if lastSuccess.Some? then lastSuccess.value.deliveredAt else None;
    var since := if lastSuccessAt.Some? then lastSuccessAt.value else e.createdAt;
    var failures := CountFailed(e.deliveries, since);
    var lastFailureAt := if lastFailure.Some? then lastFailure.value.lastAttemptAt else None;
    var lastError := if lastFailure.Some? then lastFailure.value.error else None;
    var failing := failures > 0
      && (lastSuccessAt.None? || (lastFailureAt.Some? && lastFailureAt.value > lastSuccessAt.value));
    var status := if !e.active then Disabled else if failing then Failing else Healthy;
    var reason := if !e.active then Some(Reason(failures, DaysBetween(since, now), lastError)) else None;
    Health(status, failures, lastSuccessAt, lastFailureAt, lastError, reason)
  }

  // ----------------------------------------------------------------- sweep

  /** The window starts at the last success, or at registration. */
  function WindowStart(e: Endpoint): nat {
    match FindFirst(e.deliveries, Delivered)
    case Some(d) => if d.deliveredAt.Some? then d.deliveredAt.value else e.createdAt
    case None => e.createdAt
  }

  /** What the sweep decides about an active endpoint. */
  predicate GivenUp(e: Endpoint, now: nat, afterDays: nat, minFailures: nat) {
    now - WindowStart(e) >= afterDays * DAY_MS && CountFailed(e.deliveries, WindowStart(e)) >= minFailures
  }

  function Swept(e: Endpoint, now: nat, afterDays: nat, minFailures: nat): Endpoint {
    if e.active && GivenUp(e, now, afterDays, minFailures) then e.(active := false, disabledAt := Some(now)) else e
  }

  datatype Report = Report(id: nat, organizationId: nat, failures: nat, since: nat)

  /** What the sweep says it disabled, in the order of the endpoints. */
  function Reports(es: seq<Endpoint>, now: nat, afterDays: nat, minFailures: nat): seq<Report> {
    if es == [] then []
    else
      var n := |es| - 1;
      var before := Reports(es[..n], now, afterDays, minFailures);
      if es[n].active && GivenUp(es[n], now, afterDays, minFailures) then
        before + [Report(n, es[n].organizationId, CountFailed(es[n].deliveries, WindowStart(es[n])), WindowStart(es[n]))]
      else before
  }

  function CountActive(es: seq<Endpoint>): nat {
    if es == [] then 0 else CountActive(es[..|es| - 1]) + if es[|es| - 1].active then 1 else 0
  }

  lemma ReportsGrow(es: seq<Endpoint>, n: nat, now: nat, afterDays: nat, minFailures: nat)
    requires n < |es|
    ensures var e := es[n];
      var before := Reports(es[..n], now, afterDays, minFailures);
      Reports(es[..n + 1], now, afterDays, minFailures)
      == if e.active && GivenUp(e, now, afterDays, minFailures)
         then before + [Report(n, e.organizationId, CountFailed(e.deliveries, WindowStart(e)), WindowStart(e))]
         else before
    ensures CountActive(es[..n + 1]) == CountActive(es[..n]) + if es[n].active then 1 else 0
  {
    hide GivenUp;
    hide WindowStart;
    hide CountFailed;
    assert es[..n + 1][..n] == es[..n];
  }

  // ------------------------------------------------------- the state machine

  function Enqueued(e: Endpoint, event: string, now: nat): Endpoint {
    e.(deliveries := e.deliveries + [Fresh(event, now)])
  }

  predicate Receives(e: Endpoint, organizationId: nat, event: string) {
    e.organizationId == organizationId && e.active && (event in e.events || "*" in e.events)
  }

  function Receivers(es: seq<Endpoint>, organizationId: nat, event: string): nat {
    if es == [] then 0
    else Receivers(es[..|es| - 1], organizationId, event) + if Receives(es[|es| - 1], organizationId, event) then 1 else 0
  }

  lemma ReceiversGrow(es: seq<Endpoint>, n: nat, organizationId: nat, event: string)
    requires n < |es|
    ensures Receivers(es[..n + 1], organizationId, event)
      == Receivers(es[..n], organizationId, event) + if Receives(es[n], organizationId, event) then 1 else 0
    ensures Receivers([], organizationId, event) == 0
  {
    assert es[..n + 1][..n] == es[..n];
  }

  function Emitted(e: Endpoint, organizationId: nat, event: string, now: nat): Endpoint {
    if Receives(e, organizationId, event) then Enqueued(e, event, now) else e
  }

  function Switched(e: Endpoint, active: bool, now: nat): Endpoint {
    e.(active := active, disabledAt := if active then None else Some(now))
  }

  function Tried(e: Endpoint, row: nat, outcome: Outcome, now: nat): Endpoint {
    if row < |e.deliveries| then
      e.(deliveries := e.deliveries[row := Attempted(e.deliveries[row], e.active, outcome, now)])
    else e
  }

  datatype System = System(clock: nat, endpoints: seq<Endpoint>)

  datatype Call =
    | Register(organizationId: nat, events: seq<string>)
    | Emit(organizationId: nat, event: string)
    | Ping(organizationId: nat, id: nat)
    | Deliver(id: nat, row: nat, outcome: Outcome)
    | SetActive(organizationId: nat, id: nat, active: bool)
    | Sweep(afterDays: nat, minFailures: nat)
    | Wait(ms: nat)

  /** The endpoint found by id within a tenant. */
  predicate Found(s: System, organizationId: nat, id: nat) {
    id < |s.endpoints| && s.endpoints[id].organizationId == organizationId
  }

  function NewEndpoint(organizationId: nat, events: seq<string>, now: nat): Endpoint {
    Endpoint(organizationId, events, now, true, None, [])
  }

  /** What a call does to the endpoint at position `k`. */
  function Acted(s: System, call: Call, k: nat): Endpoint
    requires k < |s.endpoints|
  {
    var e := s.endpoints[k];
    match call
    case Register(_, _) => e
    case Emit(org, event) => Emitted(e, org, event, s.clock)
    case Ping(org, id) => if id == k && e.organizationId == org then Enqueued(e, "ping", s.clock) else e
    case Deliver(id, row, outcome) => if id == k then Tried(e, row, outcome, s.clock) else e
    case SetActive(org, id, active) => if id == k && e.organizationId == org then Switched(e, active, s.clock) else e
    case Sweep(afterDays, minFailures) => Swept(e, s.clock, afterDays, minFailures)
    case Wait(_) => e
  }

  function Step(s: System, call: Call): (t: System)
    ensures |t.endpoints| >= |s.endpoints|
  {
    var acted := seq(|s.endpoints|, k requires 0 <= k < |s.endpoints| => Acted(s, call, k));
    match call
    case Register(org, events) => System(s.clock, acted + [NewEndpoint(org, events, s.clock)])
    case Wait(ms) => System(s.clock + ms, acted)
    case _ => System(s.clock, acted)
  }

  /** A call other than registering and waiting acts on each endpoint by itself. */
  lemma StepIsPointwise(s: System, call: Call, t: System)
    requires !call.Register? && !call.Wait? && t.clock == s.clock && |t.endpoints| == |s.endpoints|
    requires forall k :: 0 <= k < |s.endpoints| ==> t.endpoints[k] == Acted(s, call, k)
    ensures t == Step(s, call)
  {
    hide Acted;
    assert t.endpoints == Step(s, call).endpoints;
  }

  function Run(s: System, calls: seq<Call>): (t: System)
    ensures |t.endpoints| >= |s.endpoints|
  {
    if calls == [] then s else Step(Run(s, calls[..|calls| - 1]), calls[|calls| - 1])
  }

  const EMPTY := System(0, [])

  /** Reached by some history of calls, starting with no endpoint. */
  ghost predicate Reachable(s: System) {
    exists calls :: Run(EMPTY, calls) == s
  }

  // ------------------------------------------------------------- invariant

  predicate RowSound(d: Delivery, registered: nat, clock: nat) {
    (d.status == Delivered ==> d.deliveredAt.Some? && registered <= d.deliveredAt.value <= clock)
    && (d.status == Failed ==> d.lastAttemptAt.Some?)
    && (d.lastAttemptAt.Some? ==> d.lastAttemptAt.value <= clock)
  }

  predicate Sound(e: Endpoint, clock: nat) {
    e.createdAt <= clock && forall d :: d in e.deliveries ==> RowSound(d, e.createdAt, clock)
  }

  predicate AllSound(s: System) {
    forall k :: 0 <= k < |s.endpoints| ==> Sound(s.endpoints[k], s.clock)
  }

  lemma StepKeepsSound(s: System, call: Call)
    requires AllSound(s)
    ensures AllSound(Step(s, call))
  {
    hide CountFailed;
    hide FindFirst;
    hide WindowStart;
    var t := Step(s, call);
    forall k | 0 <= k < |t.endpoints| ensures Sound(t.endpoints[k], t.clock) {
      if k < |s.endpoints| {
        forall d | d in t.endpoints[k].deliveries ensures RowSound(d, t.endpoints[k].createdAt, t.clock) {
          assert d in s.endpoints[k].deliveries ==> RowSound(d, s.endpoints[k].createdAt, s.clock);
          if d !in s.endpoints[k].deliveries && call.Deliver? {
            assert RowSound(s.endpoints[k].deliveries[call.row], s.endpoints[k].createdAt, s.clock);
          }
        }
      }
    }
  }

  lemma {:induction false} RunKeepsSound(calls: seq<Call>)
    ensures AllSound(Run(EMPTY, calls))
  {
    if calls != [] {
      RunKeepsSound(calls[..|calls| - 1]);
      StepKeepsSound(Run(EMPTY, calls[..|calls| - 1]), calls[|calls| - 1]);
    }
  }

  lemma ReachableSound(s: System)
    requires Reachable(s)
    ensures AllSound(s)
  {
    var calls :| Run(EMPTY, calls) == s;
    RunKeepsSound(calls);
  }

  // ------------------------------------------------- health and the sweep agree

  lemma {:induction false} SomeFailed(rows: seq<Delivery>, since: nat)
    ensures CountFailed(rows, since) > 0 <==> exists d :: d in rows && FailedSince(d, since)
  {
    if rows != [] {
      var n := |rows| - 1;
      assert rows == rows[..n] + [rows[n]];
      SomeFailed(rows[..n], since);
      assert forall d :: d in rows <==> d in rows[..n] || d == rows[n];
    }
  }

  /** The second condition of "failing" is implied by the first: the two clocks never disagree. */
  lemma FailingIffFailures(s: System, k: nat)
    requires Reachable(s) && k < |s.endpoints| && s.endpoints[k].active
    ensures DescribeHealth(s.endpoints[k], s.clock).status == Failing <==> DescribeHealth(s.endpoints[k], s.clock).failuresSinceSuccess > 0
  {
    hide Run;
    ReachableSound(s);
    var e := s.endpoints[k];
    var since := WindowStart(e);
    SomeFailed(e.deliveries, since);
    if CountFailed(e.deliveries, since) > 0 {
      var d :| d in e.deliveries && FailedSince(d, since);
      assert RowSound(d, e.createdAt, s.clock);
      assert !RanksBefore(Key(d, Failed), Key(FindFirst(e.deliveries, Failed).value, Failed));
      assert RowSound(FindFirst(e.deliveries, Failed).value, e.createdAt, s.clock);
    }
  }

  /**
   The number the console shows is the number the sweep decides by: an active endpoint is disabled
   exactly when its window has passed and the shown count is high enough, and then, provided the
   minimum is at least one, the console was showing it as failing.
   */
  lemma SweepDecidesByTheShownCount(s: System, k: nat, afterDays: nat, minFailures: nat)
    requires Reachable(s) && k < |s.endpoints| && s.endpoints[k].active
    ensures var e := s.endpoints[k];
      var shown := DescribeHealth(e, s.clock);
      var since := if shown.lastSuccessAt.Some? then shown.lastSuccessAt.value else e.createdAt;
      var disabled := !Step(s, Sweep(afterDays, minFailures)).endpoints[k].active;
      && (disabled <==> s.clock - since >= afterDays * DAY_MS && shown.failuresSinceSuccess >= minFailures)
      && (disabled && minFailures >= 1 ==> shown.status == Failing)
  {
    hide Run;
    FailingIffFailures(s, k);
  }

  /** A sweep reports exactly the endpoints it disables, each with the count and the date the console shows. */
  lemma {:induction false} ReportsAreTheDisabled(es: seq<Endpoint>, now: nat, afterDays: nat, minFailures: nat, id: nat)
    ensures (exists r :: r in Reports(es, now, afterDays, minFailures) && r.id == id)
      <==> id < |es| && es[id].active && !Swept(es[id], now, afterDays, minFailures).active
    ensures forall r :: r in Reports(es, now, afterDays, minFailures) ==>
      r.id < |es| && r.organizationId == es[r.id].organizationId
      && r.failures == DescribeHealth(es[r.id], now).failuresSinceSuccess && r.since == WindowStart(es[r.id])
  {
    hide GivenUp;
    hide CountFailed;
    if es != [] {
      var n := |es| - 1;
      ReportsAreTheDisabled(es[..n], now, afterDays, minFailures, id);
      var before := Reports(es[..n], now, afterDays, minFailures);
      var mine := Report(n, es[n].organizationId, CountFailed(es[n].deliveries, WindowStart(es[n])), WindowStart(es[n]));
      if es[n].active && GivenUp(es[n], now, afterDays, minFailures) {
        assert Reports(es, now, afterDays, minFailures) == before + [mine];
        assert mine in before + [mine];
        assert forall r :: r in before ==> r in before + [mine];
      }
    }
  }

  /** An endpoint registered at the beginning, that nothing was ever sent to. */
  function Idle(ms: nat): System {
    System(ms, [NewEndpoint(0, ["*"], 0)])
  }

  lemma IdleReachable(ms: nat)
    ensures Reachable(Idle(ms))
  {
    var register, wait := Register(0, ["*"]), Wait(ms);
    assert Step(EMPTY, register).endpoints == Idle(0).endpoints;
    assert Step(Idle(0), wait).endpoints == Idle(ms).endpoints;
    SingleStep(EMPTY, register);
    SingleStep(Idle(0), wait);
    RunConcat(EMPTY, [register], [wait]);
  }

  /** With no minimum such an endpoint is disabled while it is shown as healthy. */
  lemma WithoutMinimumHealthyIsDisabled(afterDays: nat)
    ensures exists s ::
      && Reachable(s) && |s.endpoints| == 1
      && DescribeHealth(s.endpoints[0], s.clock).status == Healthy && !Step(s, Sweep(afterDays, 0)).endpoints[0].active
  {
    hide Run;
    hide Reachable;
    var s := Idle(afterDays * DAY_MS);
    IdleReachable(afterDays * DAY_MS);
    assert DescribeHealth(s.endpoints[0], s.clock).status == Healthy;
    assert !Acted(s, Sweep(afterDays, 0), 0).active;
  }

  /** A delivery that got through protects the endpoint for the whole window. */
  lemma SuccessProtects(s: System, k: nat, row: nat, afterDays: nat, minFailures: nat)
    requires Reachable(s) && k < |s.endpoints| && row < |s.endpoints[k].deliveries|
    requires var d := s.endpoints[k].deliveries[row];
      d.status == Delivered && d.deliveredAt.Some? && s.clock < d.deliveredAt.value + afterDays * DAY_MS
    ensures Step(s, Sweep(afterDays, minFailures)).endpoints[k] == s.endpoints[k]
  {
    hide Run;
    ReachableSound(s);
    var e := s.endpoints[k];
    var d := e.deliveries[row];
    assert d in e.deliveries;
    var first := FindFirst(e.deliveries, Delivered).value;
    assert RowSound(first, e.createdAt, s.clock) && !RanksBefore(Key(d, Delivered), Key(first, Delivered));
  }

  /**
   Exactly when no sweep with that window disables an active endpoint, however few failures it asks
   for: the endpoint is younger than the window, or a delivery that got through within the window is
   still recorded as delivered.
   */
  lemma ProtectedIff(s: System, k: nat, afterDays: nat)
    requires Reachable(s) && k < |s.endpoints| && s.endpoints[k].active
    ensures (forall minFailures: nat :: !GivenUp(s.endpoints[k], s.clock, afterDays, minFailures))
      <==> s.clock < s.endpoints[k].createdAt + afterDays * DAY_MS
           || exists d :: d in s.endpoints[k].deliveries && DeliveredWithin(d, s.clock, afterDays)
  {
    hide Run;
    ReachableSound(s);
    var e := s.endpoints[k];
    if d :| d in e.deliveries && DeliveredWithin(d, s.clock, afterDays) {
      var first := FindFirst(e.deliveries, Delivered).value;
      assert RowSound(first, e.createdAt, s.clock) && !RanksBefore(Key(d, Delivered), Key(first, Delivered));
    }
    if s.clock - WindowStart(e) < afterDays * DAY_MS {
      WindowReason(e, s.clock, afterDays);
    } else {
      assert GivenUp(e, s.clock, afterDays, 0);
    }
    hide WindowStart;
    hide FindFirst;
    hide CountFailed;
    if s.clock < e.createdAt + afterDays * DAY_MS { WindowSinceRegistration(e, s.clock); }
  }

  predicate DeliveredWithin(d: Delivery, now: nat, afterDays: nat) {
    d.status == Delivered && d.deliveredAt.Some? && now < d.deliveredAt.value + afterDays * DAY_MS
  }

  lemma WindowReason(e: Endpoint, now: nat, afterDays: nat)
    requires Sound(e, now) && now - WindowStart(e) < afterDays * DAY_MS
    ensures now < e.createdAt + afterDays * DAY_MS || exists d :: d in e.deliveries && DeliveredWithin(d, now, afterDays)
  {
    var first := FindFirst(e.deliveries, Delivered);
    if first.Some? && first.value.deliveredAt.Some? { assert DeliveredWithin(first.value, now, afterDays); }
  }

  lemma WindowSinceRegistration(e: Endpoint, now: nat)
    requires Sound(e, now)
    ensures WindowStart(e) >= e.createdAt
  {
    var first := FindFirst(e.deliveries, Delivered);
    if first.Some? { assert RowSound(first.value, e.createdAt, now); }
  }

  predicate HasRow(s: System, k: nat, row: nat) {
    k < |s.endpoints| && row < |s.endpoints[k].deliveries|
  }

  /** The call is another attempt at that row. */
  predicate Retries(call: Call, k: nat, row: nat) {
    call.Deliver? && call.id == k && call.row == row
  }

  lemma {:induction false} RowIsLeftAlone(s: System, calls: seq<Call>, k: nat, row: nat)
    requires HasRow(s, k, row)
    requires forall n :: 0 <= n < |calls| ==> !Retries(calls[n], k, row)
    ensures var e := Run(s, calls).endpoints[k];
      row < |e.deliveries| && e.deliveries[row] == s.endpoints[k].deliveries[row]
    decreases |calls|
  {
    hide GivenUp;
    if calls != [] {
      var n := |calls| - 1;
      RowIsLeftAlone(s, calls[..n], k, row);
      assert !Retries(calls[n], k, row);
    }
  }

  /**
   So a delivery that gets through protects the endpoint from every sweep within the window, whatever
   else happens, as long as that delivery is not attempted again.
   */
  lemma SuccessProtectsUnlessRetried(s: System, k: nat, row: nat, outcome: Outcome, calls: seq<Call>, afterDays: nat, minFailures: nat)
    requires Reachable(s) && GetsThrough(s, Deliver(k, row, outcome), k)
    requires forall n :: 0 <= n < |calls| ==> !Retries(calls[n], k, row)
    requires Run(Step(s, Deliver(k, row, outcome)), calls).clock < s.clock + afterDays * DAY_MS
    ensures var later := Run(Step(s, Deliver(k, row, outcome)), calls);
      Step(later, Sweep(afterDays, minFailures)).endpoints[k] == later.endpoints[k]
  {
    hide Run;
    hide Reachable;
    hide GivenUp;
    var deliver := Deliver(k, row, outcome);
    var t := Step(s, deliver);
    GotThrough(s, k, row, outcome);
    RowIsLeftAlone(t, calls, k, row);
    SingleStep(s, deliver);
    RunReachable(s, [deliver]);
    RunReachable(t, calls);
    hide Step;
    SuccessProtects(Run(t, calls), k, row, afterDays, minFailures);
  }

  lemma GotThrough(s: System, k: nat, row: nat, outcome: Outcome)
    requires GetsThrough(s, Deliver(k, row, outcome), k)
    ensures HasRow(Step(s, Deliver(k, row, outcome)), k, row)
    ensures var d := Step(s, Deliver(k, row, outcome)).endpoints[k].deliveries[row];
      d.status == Delivered && d.deliveredAt == Some(s.clock)
  {
    assert Acted(s, Deliver(k, row, outcome), k) == Tried(s.endpoints[k], row, outcome, s.clock);
  }

  /** An endpoint that was sent one ping, with that ping's row. */
  function Pinged(ms: nat, ping: Delivery): System {
    System(ms, [NewEndpoint(0, ["*"], 0).(deliveries := [ping])])
  }

  /** The ping got through, was then attempted again and failed. */
  function Retried(ms: nat): System {
    Pinged(ms, Delivery("ping", Failed, 2, Some(500), Some("HTTP " + "500"), ms, Some(ms), Some(ms)))
  }

  lemma OneEndpoint(s: System, call: Call, e: Endpoint)
    requires |s.endpoints| == 1 && !call.Register? && !call.Wait? && Acted(s, call, 0) == e
    ensures Step(s, call) == System(s.clock, [e])
  {
    hide Acted;
    assert Step(s, call).endpoints == [e];
  }

  lemma StepReachable(s: System, call: Call)
    requires Reachable(s)
    ensures Reachable(Step(s, call))
  {
    SingleStep(s, call);
    RunReachable(s, [call]);
  }

  lemma RetriedReachable(ms: nat)
    ensures Reachable(Retried(ms))
  {
    hide Run;
    hide Reachable;
    hide Step;
    var waiting := Fresh("ping", ms);
    var got, failed := Response(200, "200"), Response(500, "500");
    var delivered := Attempted(waiting, true, got, ms);
    IdleReachable(ms);
    StepReachable(Idle(ms), Ping(0, 0));
    OneEndpoint(Idle(ms), Ping(0, 0), Pinged(ms, waiting).endpoints[0]);
    StepReachable(Pinged(ms, waiting), Deliver(0, 0, got));
    OneEndpoint(Pinged(ms, waiting), Deliver(0, 0, got), Pinged(ms, delivered).endpoints[0]);
    StepReachable(Pinged(ms, delivered), Deliver(0, 0, failed));
    assert Attempted(delivered, true, failed, ms) == Retried(ms).endpoints[0].deliveries[0];
    OneEndpoint(Pinged(ms, delivered), Deliver(0, 0, failed), Retried(ms).endpoints[0]);
  }

  /** Attempted again and failed, it counts as a failure and no longer as a success: the next sweep disables the endpoint. */
  lemma RetriedSuccessIsForgotten(afterDays: nat)
    ensures exists s ::
      && Reachable(s) && |s.endpoints| == 1 && |s.endpoints[0].deliveries| == 1
      && s.endpoints[0].deliveries[0].deliveredAt == Some(s.clock)
      && s.endpoints[0].active && !Step(s, Sweep(afterDays, 1)).endpoints[0].active
  {
    hide Run;
    hide Reachable;
    var s := Retried(afterDays * DAY_MS + 1);
    RetriedReachable(afterDays * DAY_MS + 1);
    var e := s.endpoints[0];
    assert e.deliveries[..0] == [];
    assert FindFirst([], Delivered) == None && CountFailed([], 0) == 0;
    assert FindFirst(e.deliveries, Delivered) == None;
    assert CountFailed(e.deliveries, 0) == 1;
    assert !Acted(s, Sweep(afterDays, 1), 0).active;
  }

  // ------------------------------------------------------ attempts are counted

  /** How many times a delivery was attempted in a history, since its row was there. */
  function Tries(calls: seq<Call>, k: nat, row: nat): nat {
    if calls == [] then 0
    else
      var n := |calls| - 1;
      Tries(calls[..n], k, row) + if HasRow(Run(EMPTY, calls[..n]), k, row) && Retries(calls[n], k, row) then 1 else 0
  }

  /** The attempt goes out and fails with an error that reads like the service's own. */
  predicate LooksRecorded(s: System, call: Call, k: nat, row: nat) {
    && HasRow(s, k, row) && Retries(call, k, row)
    && s.endpoints[k].active && call.outcome.TransportError? && RETURNED_HTTP <= call.outcome.message
  }

  function Unrecorded(calls: seq<Call>, k: nat, row: nat): nat {
    if calls == [] then 0
    else
      var n := |calls| - 1;
      Unrecorded(calls[..n], k, row) + if LooksRecorded(Run(EMPTY, calls[..n]), calls[n], k, row) then 1 else 0
  }

  lemma AttemptCounts(s: System, call: Call, k: nat, row: nat)
    requires HasRow(s, k, row)
    ensures HasRow(Step(s, call), k, row)
    ensures Step(s, call).endpoints[k].deliveries[row].attempts
      == s.endpoints[k].deliveries[row].attempts
         + if Retries(call, k, row) && !LooksRecorded(s, call, k, row) then 1 else 0
  {
    hide GivenUp;
  }

  lemma NewRowIsUntried(s: System, call: Call, k: nat, row: nat)
    requires !HasRow(s, k, row) && HasRow(Step(s, call), k, row)
    ensures Step(s, call).endpoints[k].deliveries[row].attempts == 0
  {
    hide GivenUp;
  }

  /**
   Over every history, the counter on a row is the number of attempts made at that delivery, less
   those that went out and failed with an error reading like the service's own. So it counts them all
   if and only if there was none of these.
   */
  lemma {:induction false} AttemptsAreCountedIff(calls: seq<Call>, k: nat, row: nat)
    ensures var s := Run(EMPTY, calls);
      if HasRow(s, k, row) then
        var attempts := s.endpoints[k].deliveries[row].attempts;
        && attempts == Tries(calls, k, row) - Unrecorded(calls, k, row)
        && (attempts == Tries(calls, k, row) <==> Unrecorded(calls, k, row) == 0)
      else Tries(calls, k, row) == 0 && Unrecorded(calls, k, row) == 0
  {
    hide Step;
    if calls != [] {
      var n := |calls| - 1;
      var s := Run(EMPTY, calls[..n]);
      AttemptsAreCountedIff(calls[..n], k, row);
      if HasRow(s, k, row) { AttemptCounts(s, calls[n], k, row); }
      else if HasRow(Step(s, calls[n]), k, row) { NewRowIsUntried(s, calls[n], k, row); }
    }
  }

  // ------------------------------------------------------ the verdict persists

  /** The call is a delivery that gets through to the endpoint at position `k`. */
  predicate GetsThrough(s: System, call: Call, k: nat) {
    call.Deliver? && call.id == k && k < |s.endpoints| && s.endpoints[k].active
    && call.row < |s.endpoints[k].deliveries| && Succeeds(call.outcome)
  }

  /** No call of the run is a success of the endpoint at position `k`. */
  predicate NoSuccess(s: System, calls: seq<Call>, k: nat) {
    calls == [] || (NoSuccess(s, calls[..|calls| - 1], k) && !GetsThrough(Run(s, calls[..|calls| - 1]), calls[|calls| - 1], k))
  }

  lemma {:induction false} CountGrows(rows: seq<Delivery>, later: seq<Delivery>, since: nat, earlier: nat)
    requires |rows| <= |later| && earlier <= since
    requires forall j :: 0 <= j < |rows| && FailedSince(rows[j], since) ==> FailedSince(later[j], earlier)
    ensures CountFailed(rows, since) <= CountFailed(later, earlier)
    decreases |later|
  {
    if later != [] {
      var n := |later| - 1;
      if |rows| == |later| {
        CountGrows(rows[..n], later[..n], since, earlier);
      } else {
        CountGrows(rows, later[..n], since, earlier);
      }
    }
  }

  /** Without a success the window never moves forward, and no counted failure is forgotten. */
  lemma QuietStep(s: System, call: Call, k: nat)
    requires AllSound(s) && k < |s.endpoints| && !GetsThrough(s, call, k)
    ensures var e := s.endpoints[k];
      var t := Step(s, call).endpoints[k];
      WindowStart(t) <= WindowStart(e)
      && CountFailed(e.deliveries, WindowStart(e)) <= CountFailed(t.deliveries, WindowStart(t))
  {
    hide CountFailed;
    hide GivenUp;
    var e := s.endpoints[k];
    var t := Step(s, call).endpoints[k];
    QuietRows(s, call, k);
    QuietWindow(s, call, k);
    forall j | 0 <= j < |e.deliveries| && FailedSince(e.deliveries[j], WindowStart(e))
      ensures FailedSince(t.deliveries[j], WindowStart(t))
    {
      assert e.deliveries[j] in e.deliveries && RowSound(e.deliveries[j], e.createdAt, s.clock);
    }
    CountGrows(e.deliveries, t.deliveries, WindowStart(e), WindowStart(t));
  }

  predicate StaysOrFails(d: Delivery, later: Delivery, now: nat) {
    later == d || (later.status == Failed && later.lastAttemptAt == Some(now))
  }

  /** Rows stay, get a failed attempt now, or are new. */
  lemma QuietRows(s: System, call: Call, k: nat)
    requires k < |s.endpoints| && !GetsThrough(s, call, k)
    ensures var e := s.endpoints[k];
      var t := Step(s, call).endpoints[k];
      && t.createdAt == e.createdAt && |e.deliveries| <= |t.deliveries|
      && (forall j :: 0 <= j < |e.deliveries| ==> StaysOrFails(e.deliveries[j], t.deliveries[j], s.clock))
      && (forall j :: |e.deliveries| <= j < |t.deliveries| ==> t.deliveries[j].status == Pending)
  {
    hide GivenUp;
  }

  lemma QuietWindow(s: System, call: Call, k: nat)
    requires AllSound(s) && k < |s.endpoints| && !GetsThrough(s, call, k)
    ensures WindowStart(Step(s, call).endpoints[k]) <= WindowStart(s.endpoints[k])
  {
    hide CountFailed;
    hide GivenUp;
    var e := s.endpoints[k];
    var t := Step(s, call).endpoints[k];
    QuietRows(s, call, k);
    StepKeepsSound(s, call);
    var first := FindFirst(t.deliveries, Delivered);
    if first.Some? {
      assert first.value in e.deliveries;
      assert RowSound(first.value, e.createdAt, s.clock);
      var was := FindFirst(e.deliveries, Delivered).value;
      assert RowSound(was, e.createdAt, s.clock) && !RanksBefore(Key(first.value, Delivered), Key(was, Delivered));
    }
  }

  /**
   The verdict persists: once an endpoint would be given up, it still would be after any calls
   whatever, other than a delivery that gets through to it.
   */
  lemma {:induction false} VerdictPersists(s: System, calls: seq<Call>, k: nat, afterDays: nat, minFailures: nat)
    requires Reachable(s) && k < |s.endpoints| && NoSuccess(s, calls, k)
    requires GivenUp(s.endpoints[k], s.clock, afterDays, minFailures)
    ensures GivenUp(Run(s, calls).endpoints[k], Run(s, calls).clock, afterDays, minFailures)
    decreases |calls|
  {
    if calls != [] {
      var front := calls[..|calls| - 1];
      VerdictPersists(s, front, k, afterDays, minFailures);
      RunReachable(s, front);
      ReachableSound(Run(s, front));
      QuietStep(Run(s, front), calls[|calls| - 1], k);
    }
  }

  lemma SingleStep(s: System, call: Call)
    ensures Run(s, [call]) == Step(s, call)
  {
    hide Step;
    assert [call][..0] == [];
    assert Run(s, []) == s;
  }

  lemma {:induction false} RunConcat(s: System, first: seq<Call>, second: seq<Call>)
    ensures Run(s, first + second) == Run(Run(s, first), second)
  {
    if second == [] {
      assert first + second == first;
    } else {
      var n := |second| - 1;
      assert (first + second)[..|first + second| - 1] == first + second[..n];
      RunConcat(s, first, second[..n]);
    }
  }

  lemma RunReachable(s: System, calls: seq<Call>)
    requires Reachable(s)
    ensures Reachable(Run(s, calls))
  {
    var history :| Run(EMPTY, history) == s;
    RunConcat(EMPTY, history, calls);
  }

  /**
   The reason shown for an endpoint that the sweep disabled stays true until something gets through:
   at least as many failures as the minimum, in at least as many days as the window.
   */
  lemma ReasonStaysTrue(s: System, calls: seq<Call>, k: nat, afterDays: nat, minFailures: nat)
    requires Reachable(s) && k < |s.endpoints| && s.endpoints[k].active
    requires var t := Step(s, Sweep(afterDays, minFailures)); !t.endpoints[k].active && NoSuccess(t, calls, k)
    ensures var t := Run(Step(s, Sweep(afterDays, minFailures)), calls);
      var reason := DescribeHealth(t.endpoints[k], t.clock).disabledReason;
      !t.endpoints[k].active ==> reason.Some? && reason.value.failures >= minFailures && reason.value.days >= afterDays
  {
    hide CountFailed;
    hide Run;
    hide DaysBetween;
    var sweep := Sweep(afterDays, minFailures);
    var t := Step(s, sweep);
    SingleStep(s, sweep);
    RunReachable(s, [sweep]);
    VerdictPersists(t, calls, k, afterDays, minFailures);
  }

  /**
   Re-enabling alone does not help: an endpoint that a sweep disabled, and that nothing got through
   to since, is disabled again by the next sweep, whoever enabled it in between.
   */
  lemma ReenabledIsDisabledAgain(s: System, calls: seq<Call>, k: nat, afterDays: nat, minFailures: nat)
    requires Reachable(s) && k < |s.endpoints| && s.endpoints[k].active
    requires var t := Step(s, Sweep(afterDays, minFailures)); !t.endpoints[k].active && NoSuccess(t, calls, k)
    ensures var t := Run(Step(s, Sweep(afterDays, minFailures)), calls);
      !Step(t, Sweep(afterDays, minFailures)).endpoints[k].active
  {
    hide CountFailed;
    hide Run;
    var sweep := Sweep(afterDays, minFailures);
    var t := Step(s, sweep);
    SingleStep(s, sweep);
    RunReachable(s, [sweep]);
    VerdictPersists(t, calls, k, afterDays, minFailures);
  }
}
