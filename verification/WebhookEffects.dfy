/** What the console shows and what the calls do, said of the rows and of the history alone. */
module WebhookEffects {
  import opened Prelude
  import opened Webhooks

  // ------------------------------------------------------- what health means

  /** `at` is the latest time anything was delivered; `None` if nothing ever was that still counts. */
  ghost predicate LatestDelivery(rows: seq<Delivery>, at: Option<nat>) {
    match at
    case None => forall d :: d in rows ==> d.status != Delivered
    case Some(t) =>
      && (exists d :: d in rows && d.status == Delivered && d.deliveredAt == Some(t))
      && (forall d :: d in rows && d.status == Delivered && d.deliveredAt.Some? ==> d.deliveredAt.value <= t)
  }

  /** `at` is the latest attempt among the failed rows, and `error` what one of them says. */
  ghost predicate LatestFailure(rows: seq<Delivery>, at: Option<nat>, error: Option<string>) {
    match at
    case None => error == None && forall d :: d in rows ==> d.status != Failed
    case Some(t) =>
      && (exists d :: d in rows && d.status == Failed && d.lastAttemptAt == Some(t) && d.error == error)
      && (forall d :: d in rows && d.status == Failed && d.lastAttemptAt.Some? ==> d.lastAttemptAt.value <= t)
  }

  function FailuresAfter(rows: seq<Delivery>, since: nat): nat {
    if rows == [] then 0
    else
      var d := rows[|rows| - 1];
      FailuresAfter(rows[..|rows| - 1], since)
      + if d.status == Failed && d.lastAttemptAt.Some? && since < d.lastAttemptAt.value then 1 else 0
  }

  lemma {:induction false} CountInWords(rows: seq<Delivery>, registered: nat, clock: nat, since: nat)
    requires forall d :: d in rows ==> RowSound(d, registered, clock)
    ensures CountFailed(rows, since) == FailuresAfter(rows, since)
  {
    if rows != [] {
      var n := |rows| - 1;
      assert rows == rows[..n] + [rows[n]];
      assert rows[n] in rows;
      CountInWords(rows[..n], registered, clock, since);
    }
  }

  lemma FirstIsLatest(e: Endpoint, clock: nat)
    requires Sound(e, clock)
    ensures var success := FindFirst(e.deliveries, Delivered);
      LatestDelivery(e.deliveries, if success.Some? then success.value.deliveredAt else None)
    ensures var failure := FindFirst(e.deliveries, Failed);
      LatestFailure(e.deliveries, if failure.Some? then failure.value.lastAttemptAt else None,
                    if failure.Some? then failure.value.error else None)
  {
    var success, failure := FindFirst(e.deliveries, Delivered), FindFirst(e.deliveries, Failed);
    if success.Some? {
      assert RowSound(success.value, e.createdAt, clock);
      forall d | d in e.deliveries && d.status == Delivered && d.deliveredAt.Some?
        ensures d.deliveredAt.value <= success.value.deliveredAt.value
      {
        assert !RanksBefore(Key(d, Delivered), Key(success.value, Delivered));
      }
    }
    if failure.Some? {
      assert RowSound(failure.value, e.createdAt, clock);
      forall d | d in e.deliveries && d.status == Failed && d.lastAttemptAt.Some?
        ensures d.lastAttemptAt.value <= failure.value.lastAttemptAt.value
      {
        assert !RanksBefore(Key(d, Failed), Key(failure.value, Failed));
      }
    }
  }

  /** A span in whole days, to the nearest, half a day up; anything shorter than a day counts as one. */
  predicate NearestDays(elapsed: int, days: nat) {
    if elapsed < DAY_MS then days == 1 else (2 * days - 1) * DAY_MS <= 2 * elapsed < (2 * days + 1) * DAY_MS
  }

  /** Only a disabled endpoint is explained: by the count shown, the last error and the days since the last delivery. */
  predicate Explains(reason: Option<Reason>, shown: Health, since: nat, now: nat) {
    match reason
    case None => shown.status != Disabled
    case Some(r) =>
      && shown.status == Disabled
      && r.failures == shown.failuresSinceSuccess && r.lastError == shown.lastError && NearestDays(now - since, r.days)
  }

  /**
   Over every history, the health shown is what the rows say: the latest delivery that got through, the
   latest failed attempt and its error, and how many rows have failed since that delivery, or since
   registration; disabled if not active, and then with the reason; otherwise failing exactly if that
   number is positive.
   */
  lemma HealthIsExact(s: System, k: nat)
    requires Reachable(s) && k < |s.endpoints|
    ensures var e := s.endpoints[k];
      var shown := DescribeHealth(e, s.clock);
      var since := if shown.lastSuccessAt.Some? then shown.lastSuccessAt.value else e.createdAt;
      && LatestDelivery(e.deliveries, shown.lastSuccessAt)
      && LatestFailure(e.deliveries, shown.lastFailureAt, shown.lastError)
      && shown.failuresSinceSuccess == FailuresAfter(e.deliveries, since)
      && Explains(shown.disabledReason, shown, since, s.clock)
      && shown.status == if !e.active then Disabled else if shown.failuresSinceSuccess > 0 then Failing else Healthy
  {
    ReachableSound(s);
    var e := s.endpoints[k];
    FirstIsLatest(e, s.clock);
    CountInWords(e.deliveries, e.createdAt, s.clock, WindowStart(e));
    if e.active { FailingIffFailures(s, k); }
    hide Reachable;
    hide LatestDelivery;
    hide LatestFailure;
  }

  // -------------------------------------------------------- what calls change

  /** An emitted event is queued, once and undelivered, for exactly the active endpoints of the organization that subscribe to it or to everything. */
  lemma EmitReachesSubscribers(s: System, organizationId: nat, event: string, k: nat)
    requires k < |s.endpoints|
    ensures var e := s.endpoints[k];
      var t := Step(s, Emit(organizationId, event)).endpoints[k];
      t == if e.active && e.organizationId == organizationId && (event in e.events || "*" in e.events)
           then e.(deliveries := e.deliveries + [Delivery(event, Pending, 0, None, None, s.clock, None, None)])
           else e
  {
    assert Acted(s, Emit(organizationId, event), k) == Emitted(s.endpoints[k], organizationId, event, s.clock);
  }

  /** Switching sets the flag and the time of the one endpoint found, and so decides whether it is sent the next event it subscribes to. */
  lemma SwitchedOnIsSent(s: System, organizationId: nat, k: nat, active: bool, event: string)
    requires k < |s.endpoints| && s.endpoints[k].organizationId == organizationId
    requires event in s.endpoints[k].events || "*" in s.endpoints[k].events
    ensures var t := Step(s, SetActive(organizationId, k, active));
      && t.endpoints[k].active == active && t.endpoints[k].disabledAt == (if active then None else Some(s.clock))
      && t.endpoints[k].deliveries == s.endpoints[k].deliveries
      && (forall j :: 0 <= j < |s.endpoints| && j != k ==> t.endpoints[j] == s.endpoints[j])
      && |Step(t, Emit(organizationId, event)).endpoints[k].deliveries| == |s.endpoints[k].deliveries| + if active then 1 else 0
  {
    var t := Step(s, SetActive(organizationId, k, active));
    assert Acted(s, SetActive(organizationId, k, active), k) == Switched(s.endpoints[k], active, s.clock);
    EmitReachesSubscribers(t, organizationId, event, k);
    forall j | 0 <= j < |s.endpoints| && j != k ensures t.endpoints[j] == s.endpoints[j] {
      assert Acted(s, SetActive(organizationId, k, active), j) == s.endpoints[j];
    }
    hide Acted;
  }

  /** The sweep changes nothing but the flag and the time of those it disables. */
  lemma SweepOnlyDisables(s: System, afterDays: nat, minFailures: nat, k: nat)
    requires k < |s.endpoints|
    ensures var t := Step(s, Sweep(afterDays, minFailures)).endpoints[k];
      t == s.endpoints[k] || (s.endpoints[k].active && t == s.endpoints[k].(active := false, disabledAt := Some(s.clock)))
  {
    hide GivenUp;
    assert Acted(s, Sweep(afterDays, minFailures), k) == Swept(s.endpoints[k], s.clock, afterDays, minFailures);
  }

  /** A new endpoint is sent the next event it subscribes to, in its own organization only; nobody else's endpoint is touched by registering it. */
  lemma RegisteredIsSent(s: System, organizationId: nat, events: seq<string>, sender: nat, event: string)
    ensures var t := Step(s, Register(organizationId, events));
      var k := |s.endpoints|;
      && |t.endpoints| == k + 1 && t.endpoints[..k] == s.endpoints && t.endpoints[k].deliveries == []
      && |Step(t, Emit(sender, event)).endpoints[k].deliveries|
         == if sender == organizationId && (event in events || "*" in events) then 1 else 0
  {
    var t := Step(s, Register(organizationId, events));
    assert forall k :: 0 <= k < |s.endpoints| ==> t.endpoints[k] == Acted(s, Register(organizationId, events), k);
    EmitReachesSubscribers(t, sender, event, |s.endpoints|);
  }

  /** A ping is queued, once, for the one endpoint found in the organization, active or not. */
  lemma PingIsQueued(s: System, organizationId: nat, id: nat, k: nat)
    requires k < |s.endpoints|
    ensures var e := s.endpoints[k];
      var t := Step(s, Ping(organizationId, id)).endpoints[k];
      t == if k == id && e.organizationId == organizationId
           then e.(deliveries := e.deliveries + [Delivery("ping", Pending, 0, None, None, s.clock, None, None)])
           else e
  {
    assert Step(s, Ping(organizationId, id)).endpoints[k] == Acted(s, Ping(organizationId, id), k);
  }

  function Rows(es: seq<Endpoint>): nat {
    if es == [] then 0 else Rows(es[..|es| - 1]) + |es[|es| - 1].deliveries|
  }

  lemma {:induction false} EmittedRows(es: seq<Endpoint>, after: seq<Endpoint>, organizationId: nat, event: string, now: nat)
    requires |after| == |es| && forall k :: 0 <= k < |es| ==> after[k] == Emitted(es[k], organizationId, event, now)
    ensures Rows(after) == Rows(es) + Receivers(es, organizationId, event)
  {
    if es != [] {
      var n := |es| - 1;
      EmittedRows(es[..n], after[..n], organizationId, event, now);
    }
  }

  /** The number returned for an event is the number of deliveries queued. */
  lemma EmitCountsRows(s: System, organizationId: nat, event: string)
    ensures Rows(Step(s, Emit(organizationId, event)).endpoints) == Rows(s.endpoints) + Receivers(s.endpoints, organizationId, event)
  {
    EmittedRows(s.endpoints, Step(s, Emit(organizationId, event)).endpoints, organizationId, event, s.clock);
  }

  function ActiveAmong(es: seq<Endpoint>): set<nat> {
    set k: nat | k < |es| && es[k].active
  }

  lemma {:induction false} ActiveCounted(es: seq<Endpoint>)
    ensures CountActive(es) == |ActiveAmong(es)|
  {
    if es != [] {
      var n := |es| - 1;
      ActiveCounted(es[..n]);
      assert ActiveAmong(es) == ActiveAmong(es[..n]) + if es[n].active then {n} else {};
    }
  }

  lemma {:induction false} SweptAddsUp(es: seq<Endpoint>, after: seq<Endpoint>, now: nat, afterDays: nat, minFailures: nat)
    requires |after| == |es| && forall k :: 0 <= k < |es| ==> after[k] == Swept(es[k], now, afterDays, minFailures)
    ensures CountActive(es) == CountActive(after) + |Reports(es, now, afterDays, minFailures)|
  {
    hide GivenUp;
    hide WindowStart;
    hide CountFailed;
    if es != [] {
      var n := |es| - 1;
      SweptAddsUp(es[..n], after[..n], now, afterDays, minFailures);
    }
  }

  /** The sweep accounts for every endpoint it scans: those active before are those still active and those reported, each once. */
  lemma SweepAddsUp(s: System, afterDays: nat, minFailures: nat)
    ensures CountActive(s.endpoints) == |ActiveAmong(s.endpoints)|
    ensures |ActiveAmong(s.endpoints)|
      == |ActiveAmong(Step(s, Sweep(afterDays, minFailures)).endpoints)| + |Reports(s.endpoints, s.clock, afterDays, minFailures)|
  {
    var after := Step(s, Sweep(afterDays, minFailures)).endpoints;
    SweptAddsUp(s.endpoints, after, s.clock, afterDays, minFailures);
    ActiveCounted(s.endpoints);
    ActiveCounted(after);
  }

  // --------------------------------------------------- rows and their history

  /** The last attempt that was recorded: whether the endpoint was active, what came of it, and when. */
  datatype Try = Try(active: bool, outcome: Outcome, at: nat)

  ghost function LastTry(calls: seq<Call>, k: nat, row: nat): Option<Try> {
    if calls == [] then None
    else
      var n := |calls| - 1;
      var s := Run(EMPTY, calls[..n]);
      if HasRow(s, k, row) && Retries(calls[n], k, row) && !LooksRecorded(s, calls[n], k, row) then
        Some(Try(s.endpoints[k].active, calls[n].outcome, s.clock))
      else LastTry(calls[..n], k, row)
  }

  /** What the last attempt leaves on the row. */
  ghost predicate Tells(d: Delivery, last: Option<Try>) {
    match last
    case None => d.status == Pending && d.lastAttemptAt == None && d.error == None && d.deliveredAt == None
    case Some(t) =>
      && d.lastAttemptAt == Some(t.at)
      && (if t.active && t.outcome.Response? && 200 <= t.outcome.code < 300 then
            d.status == Delivered && d.deliveredAt == Some(t.at) && d.error == None && d.responseStatus == Some(t.outcome.code)
          else
            && d.status == Failed
            && d.error == Some(if !t.active then "endpoint disabled"
                               else if t.outcome.Response? then "HTTP " + t.outcome.text
                               else t.outcome.message)
            && (t.active && t.outcome.Response? ==> d.responseStatus == Some(t.outcome.code)))
  }

  lemma AttemptTells(s: System, call: Call, k: nat, row: nat)
    requires HasRow(s, k, row)
    ensures HasRow(Step(s, call), k, row)
    ensures var d := Step(s, call).endpoints[k].deliveries[row];
      if Retries(call, k, row) && !LooksRecorded(s, call, k, row) then
        Tells(d, Some(Try(s.endpoints[k].active, call.outcome, s.clock)))
      else d == s.endpoints[k].deliveries[row]
  {
    hide GivenUp;
  }

  lemma NewRowTellsNothing(s: System, call: Call, k: nat, row: nat)
    requires !HasRow(s, k, row) && HasRow(Step(s, call), k, row)
    ensures Tells(Step(s, call).endpoints[k].deliveries[row], None)
  {
    hide GivenUp;
  }

  /**
   Over every history, a row tells the last recorded attempt at it: delivered if it went to an active
   endpoint and was answered with a 2xx status, and otherwise failed with the reason; pending if there
   was none.
   */
  lemma {:induction false} RowTellsLastTry(calls: seq<Call>, k: nat, row: nat)
    ensures var s := Run(EMPTY, calls);
      if HasRow(s, k, row) then Tells(s.endpoints[k].deliveries[row], LastTry(calls, k, row)) else LastTry(calls, k, row) == None
  {
    hide Step;
    hide Tells;
    if calls != [] {
      var n := |calls| - 1;
      var s := Run(EMPTY, calls[..n]);
      RowTellsLastTry(calls[..n], k, row);
      if HasRow(s, k, row) { AttemptTells(s, calls[n], k, row); }
      else if HasRow(Step(s, calls[n]), k, row) { NewRowTellsNothing(s, calls[n], k, row); }
    }
  }
}
