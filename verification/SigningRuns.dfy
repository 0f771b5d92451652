/**
 Whole runs of the signing service: a request is created, then any service calls arrive in any
 order, each at some later time, while the template it was made from is edited underneath it.
 */
module SigningRuns {
  import opened Prelude
  import opened SigningModel

  datatype Call =
    | OpenCall(token: nat)
    | SignCall(token: nat, input: SignInput)
    | DeclineCall(token: nat)
    | CancelCall
    | RemindCall(only: Option<nat>)
    | SweepCall
    | HandOverCall(wanted: Option<nat>)
    | EditTemplate(fields: seq<TemplateField>)

  /** A call arriving `wait` milliseconds after the one before it. */
  datatype TimedCall = TimedCall(wait: nat, call: Call)

  datatype World = World(now: Time, request: Request, template: seq<TemplateField>)

  function Serve(cfg: Config, r: Request, call: Call, now: Time): Outcome {
    match call
    case OpenCall(token) => PublicSession(r, token, now)
    case SignCall(token, input) => Sign(r, token, input, now)
    case DeclineCall(token) => Decline(r, token, now)
    case CancelCall => Cancel(r, now)
    case RemindCall(only) => Remind(r, only, now)
    case SweepCall => Outcome(SweepRequest(cfg, r, now), Success(Enqueued(SweepCount(cfg, r, now))))
    case HandOverCall(wanted) => InPersonSession(r, wanted, now)
    case EditTemplate(_) => Outcome(r, Success(Accepted))
  }

  function Step(cfg: Config, w: World, timed: TimedCall): World {
    var now := w.now + timed.wait;
    World(now,
          Serve(cfg, w.request, timed.call, now).next,
          if timed.call.EditTemplate? then timed.call.fields else w.template)
  }

  function Run(cfg: Config, w: World, calls: seq<TimedCall>): World
    decreases |calls|
  {
    if calls == [] then w else Run(cfg, Step(cfg, w, calls[0]), calls[1..])
  }

  /** Everything that decides how a request starts. */
  datatype Birth = Birth(input: NewRequest, template: seq<TemplateField>, now: Time, lost: set<nat>, sentLost: bool)
  {
    function Created(): Result<Request, Refusal> {
      CreateRequest(input, template, now, lost, sentLost)
    }
  }

  function Start(birth: Birth): World
    requires birth.Created().Success?
  {
    World(birth.now, birth.Created().value, birth.template)
  }

  ghost predicate ReachedBy(cfg: Config, w: World, birth: Birth, calls: seq<TimedCall>) {
    birth.Created().Success? && w == Run(cfg, Start(birth), calls)
  }

  ghost predicate Reachable(cfg: Config, w: World) {
    exists birth, calls :: ReachedBy(cfg, w, birth, calls)
  }

  lemma {:induction false} RunConcat(cfg: Config, w: World, a: seq<TimedCall>, b: seq<TimedCall>)
    ensures Run(cfg, w, a + b) == Run(cfg, Run(cfg, w, a), b)
    decreases |a|
  {
    if a == [] {
      assert a + b == b;
    } else {
      assert (a + b)[1..] == a[1..] + b;
      RunConcat(cfg, Step(cfg, w, a[0]), a[1..], b);
    }
  }

  /** A continuation of a reachable world is reachable. */
  lemma ReachableContinues(cfg: Config, w: World, calls: seq<TimedCall>)
    requires Reachable(cfg, w)
    ensures Reachable(cfg, Run(cfg, w, calls))
  {
    var birth, before :| ReachedBy(cfg, w, birth, before);
    RunConcat(cfg, Start(birth), before, calls);
    assert ReachedBy(cfg, Run(cfg, w, calls), birth, before + calls);
  }
}
