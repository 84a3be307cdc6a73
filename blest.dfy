/** The request handler of `blest.py`: the validation loop that turns a batch
    into pending calls, the per-call reducer that runs a handler or a chain of
    handlers on the call's own copy of the context, and the gather that
    collects one entry per call in input order. */
module Blest {
  import opened Json
  import opened Selector
  import opened Protocol
  import opened Validation

  const MiddlewareMessage: string := "Middleware should not return anything but may mutate context"
  const ResultMessage: string := "Result should be a JSON object"

  /** The outcome of a list of handlers run as a chain. Each handler gets the
      parameters and the context as the previous one left it. A handler that
      raises ends the chain; a handler before the last that returns a truthy
      value ends it with the middleware error; the last handler's return
      value is the chain's. An empty list never binds a result. */
  function RunChain(handlers: seq<Handler>, params: Value, context: Value): Outcome
    decreases |handlers|
  {
    if handlers == [] then Threw(UnboundLocalError)
    else
      var call := handlers[0](params, context);
      match call.outcome
      case Threw(e) => Threw(e)
      case Returned(v) =>
        if |handlers| == 1 then Returned(v)
        else if Truthy(v) then Threw(Raised(MiddlewareMessage))
        else RunChain(handlers[1..], params, call.context)
  }

  /** The outcome of calling a route on a request's parameters. */
  function CallRoute(route: Route, params: Value, context: Value): Outcome {
    match route
    case Single(h) => h(params, context).outcome
    case Chain(hs) => RunChain(hs, params, context)
  }

  /** The entry a call's outcome becomes: a raised error, a non-dict result,
      or a selector that raises give an error entry; otherwise the result,
      projected through a truthy selector. */
  function Finish(request: Request, outcome: Outcome): Item {
    match outcome
    case Threw(e) => ErrorItem(request, e)
    case Returned(v) =>
      if !v.Obj? then ErrorItem(request, Raised(ResultMessage))
      else if Truthy(request.selector) then
        match Project(v, request.selector)
        case Err(e) => ErrorItem(request, e)
        case Ok(m) => Item(request.id, request.route, Obj(m), None)
      else Item(request.id, request.route, v, None)
  }

  /** The entry `route_reducer` produces for one call. The context it is given
      is the caller's; the handlers work on a copy of it, so nothing they do
      to it reaches the caller or another call. */
  function ReduceCall(route: Route, request: Request, context: Value): (item: Item)
    ensures item.id == request.id && item.route == request.route
    ensures item.error.None? <==> item.result != Null
    ensures item.error.None? ==> item.result.Obj?
    ensures var outcome := CallRoute(route, request.params, context);
      (outcome.Threw? ==> item.error == Some(outcome.error)) &&
      (outcome.Returned? && !outcome.value.Obj? ==> item.error == Some(Raised(ResultMessage))) &&
      (outcome.Returned? && outcome.value.Obj? && !Truthy(request.selector) ==>
         item.result == outcome.value) &&
      (outcome.Returned? && outcome.value.Obj? && Truthy(request.selector) ==>
         (Project(outcome.value, request.selector).Ok? ==>
            item.result == Obj(Project(outcome.value, request.selector).value)) &&
         (Project(outcome.value, request.selector).Err? ==>
            item.error == Some(Project(outcome.value, request.selector).error)))
  {
    Finish(request, CallRoute(route, request.params, context))
  }

  /** `route_reducer`: copies the context, runs the handler or the chain, checks
      the result and applies the selector. */
  method RouteReducer(handler: Route, request: Request, context: Value) returns (item: Item)
    ensures item == ReduceCall(handler, request, context)
  {
    var safeContext := context;
    var result: Option<Value> := None;
    if handler.Chain? {
      var handlers := handler.handlers;
      var i := 0;
      while i < |handlers|
        invariant 0 <= i <= |handlers|
        invariant i < |handlers| ==>
          RunChain(handlers, request.params, context) == RunChain(handlers[i..], request.params, safeContext)
        invariant i == |handlers| && i > 0 ==>
          result.Some? && RunChain(handlers, request.params, context) == Returned(result.value)
        invariant i == 0 ==> result.None?
      {
        var call := handlers[i](request.params, safeContext);
        if call.outcome.Threw? {
          return ErrorItem(request, call.outcome.error);
        }
        var tempResult := call.outcome.value;
        safeContext := call.context;
        if i == |handlers| - 1 {
          result := Some(tempResult);
        } else if Truthy(tempResult) {
          return ErrorItem(request, Raised(MiddlewareMessage));
        }
        assert handlers[i..][1..] == handlers[i + 1..];
        i := i + 1;
      }
    } else {
      var call := handler.handler(request.params, safeContext);
      if call.outcome.Threw? {
        return ErrorItem(request, call.outcome.error);
      }
      result := Some(call.outcome.value);
    }
    if result.None? {
      return ErrorItem(request, UnboundLocalError);
    }
    if !result.value.Obj? {
      return ErrorItem(request, Raised(ResultMessage));
    }
    var answer := result.value;
    if Truthy(request.selector) {
      var filtered := FilterObject(answer, request.selector);
      if filtered.Err? {
        return ErrorItem(request, filtered.error);
      }
      answer := Obj(filtered.value);
    }
    return Item(request.id, request.route, answer, None);
  }

  /** The reply to a batch: a 400 error for the first violation, or one
      entry per call, in input order, each reduced against the caller's
      context. */
  function Respond(body: Value, routes: map<string, Route>, context: Value): Reply {
    match ValidateBatch(body)
    case Err(m) => HandleError(400, m)
    case Ok(requests) =>
      var calls := PendingCalls(requests, routes);
      HandleResult(seq(|calls|, i requires 0 <= i < |calls| => ReduceCall(calls[i].route, calls[i].request, context)))
  }

  /** The request handler: rejects a falsy or non-list body, validates the
      items while collecting the pending calls, returns at the first
      violation before running anything, then runs the calls in order. */
  method Handle(body: Value, routes: map<string, Route>, context: Value) returns (reply: Reply)
    ensures reply == Respond(body, routes, context)
  {
    if !Truthy(body) || !body.Arr? {
      return HandleError(400, BodyMessage);
    }
    var promises := CollectCalls(body.items, routes);
    if promises.Err? {
      return HandleError(400, promises.error);
    }
    var results := Gather(promises.value, context);
    return HandleResult(results);
  }

  /** `asyncio.gather` over the pending calls: runs them one after another,
      each on the caller's context, and lists their entries in call order. */
  method Gather(promises: seq<Pending>, context: Value) returns (results: seq<Item>)
    ensures results == seq(|promises|, k requires 0 <= k < |promises| =>
      ReduceCall(promises[k].route, promises[k].request, context))
  {
    results := [];
    var j := 0;
    while j < |promises|
      invariant 0 <= j <= |promises|
      invariant |results| == j
      invariant forall k :: 0 <= k < j ==>
        results[k] == ReduceCall(promises[k].route, promises[k].request, context)
    {
      var item := RouteReducer(promises[j].route, promises[j].request, context);
      results := results + [item];
      j := j + 1;
    }
  }

  /** An accepted batch is answered with one entry per item, in the same
      order, each echoing its item's id and route and holding exactly one of
      a result (a dict) or an error. Entry i depends only on item i, the
      route it names and the caller's context, never on the other calls. */
  lemma AcceptedBatchAnswered(body: Value, routes: map<string, Route>, context: Value)
    requires WellFormedBatch(body)
    ensures Respond(body, routes, context).error.None?
    ensures Respond(body, routes, context).results.Some?
    ensures var items := Respond(body, routes, context).results.value;
      |items| == |body.items| &&
      forall i :: 0 <= i < |items| ==>
        ShapeOk(body.items[i]) &&
        items[i].id == IdOf(body.items[i]) &&
        items[i].route == body.items[i].items[1].s &&
        (items[i].error.None? <==> items[i].result.Obj?) &&
        (items[i].error.Some? <==> items[i].result == Null) &&
        items[i] == ReduceCall(Resolve(routes, body.items[i].items[1].s), ToRequest(body.items[i]), context)
  {
    BatchAccepted(body);
  }

  /** A rejected batch gets the 400 error of its first violation, and the
      reply is the same whatever the routes and the context: no handler has
      any say in it, because none is run. */
  lemma RejectedBatchRunsNoHandler(body: Value, routes: map<string, Route>, context: Value,
                                   otherRoutes: map<string, Route>, otherContext: Value)
    requires !WellFormedBatch(body)
    ensures ValidateBatch(body).Err?
    ensures Respond(body, routes, context) == HandleError(400, ValidateBatch(body).error)
    ensures Respond(body, routes, context) == Respond(body, otherRoutes, otherContext)
  {
    BatchAccepted(body);
  }

  /** Unregistering a route turns exactly the entries that name it into
      'Route not found' errors; every other entry is unchanged. */
  lemma UnknownRouteFailsAlone(body: Value, routes: map<string, Route>, context: Value, name: string)
    requires WellFormedBatch(body)
    ensures Respond(body, routes, context).results.Some?
    ensures Respond(body, routes - {name}, context).results.Some?
    ensures var before := Respond(body, routes, context).results.value;
      var after := Respond(body, routes - {name}, context).results.value;
      |after| == |before| == |body.items| &&
      forall i :: 0 <= i < |body.items| ==>
        if body.items[i].items[1].s == name
        then after[i] == Item(IdOf(body.items[i]), name, Null, Some(Raised(NotFoundMessage)))
        else after[i] == before[i]
  {
    BatchAccepted(body);
    AcceptedBatchAnswered(body, routes, context);
    AcceptedBatchAnswered(body, routes - {name}, context);
  }

  /** The context the k-th handler of a chain receives when every handler
      before it returned. */
  ghost function ContextBefore(handlers: seq<Handler>, params: Value, context: Value, k: nat): Value
    requires k <= |handlers|
  {
    if k == 0 then context
    else handlers[k - 1](params, ContextBefore(handlers, params, context, k - 1)).context
  }

  /** What the k-th handler of a chain does when it is reached. */
  ghost function OutcomeAt(handlers: seq<Handler>, params: Value, context: Value, k: nat): Outcome
    requires k < |handlers|
  {
    handlers[k](params, ContextBefore(handlers, params, context, k)).outcome
  }

  /** Each of the first k handlers returned a falsy value. */
  ghost predicate QuietBefore(handlers: seq<Handler>, params: Value, context: Value, k: nat)
    requires k <= |handlers|
  {
    forall j :: 0 <= j < k ==>
      OutcomeAt(handlers, params, context, j).Returned? &&
      !Truthy(OutcomeAt(handlers, params, context, j).value)
  }

  lemma {:induction false} ChainReaches(handlers: seq<Handler>, params: Value, context: Value, k: nat)
    requires k < |handlers| && QuietBefore(handlers, params, context, k)
    ensures RunChain(handlers, params, context) ==
      RunChain(handlers[k..], params, ContextBefore(handlers, params, context, k))
  {
    if k > 0 {
      ChainReaches(handlers, params, context, k - 1);
      assert OutcomeAt(handlers, params, context, k - 1).Returned?;
      assert handlers[k - 1..][1..] == handlers[k..];
    }
  }

  /** Chain semantics: when the first k handlers returned falsy values and
      the k-th is reached, a k-th handler that raises decides the outcome;
      if it is the last, its return value is the chain's result; if it is
      not the last and returns a truthy value, the chain fails with the
      middleware error. */
  lemma ChainOutcome(handlers: seq<Handler>, params: Value, context: Value, k: nat)
    requires k < |handlers| && QuietBefore(handlers, params, context, k)
    ensures OutcomeAt(handlers, params, context, k).Threw? ==>
      RunChain(handlers, params, context) == OutcomeAt(handlers, params, context, k)
    ensures k == |handlers| - 1 ==>
      RunChain(handlers, params, context) == OutcomeAt(handlers, params, context, k)
    ensures (k < |handlers| - 1 && OutcomeAt(handlers, params, context, k).Returned? &&
             Truthy(OutcomeAt(handlers, params, context, k).value)) ==>
      RunChain(handlers, params, context) == Threw(Raised(MiddlewareMessage))
  {
    ChainReaches(handlers, params, context, k);
  }
}
