/** The request handler of the Flask server example. It validates batches
    exactly as `blest.py` does, but its reducer awaits a single handler on
    the caller's own context (no copy, no chains), so what one handler does
    to the context is seen by the calls after it and by the caller. As
    written, its reducer replaces a result that is not a dict by `None` and
    drops the error it builds for it (`ReduceCallAsWritten`); the batch
    handler here runs the reducer with that error raised (`ReduceCall`). */
module FlaskBlest {
  import opened Json
  import opened Selector
  import opened Protocol
  import opened Validation
  import Blest

  /** What awaiting `handler(params, context)` does. A list of handlers is
      not callable, so calling one raises a `TypeError`. */
  function Invoke(route: Route, params: Value, context: Value): Invocation {
    match route
    case Single(h) => h(params, context)
    case Chain(_) => Invocation(Threw(TypeError), context)
  }

  /** One reduced call: its entry and the context the handler left behind. */
  datatype Step = Step(item: Item, context: Value)

  /** `route_reducer` as written: a non-dict result becomes `None` and the
      error built for it is dropped, so the entry can carry neither a result
      nor an error. A truthy selector is applied to what is left, `None`
      included. */
  function ReduceCallAsWritten(route: Route, request: Request, context: Value): (r: Step)
    ensures r.item.id == request.id && r.item.route == request.route
    ensures r.item.error.Some? ==> r.item.result == Null
    ensures r.item.result != Null ==> r.item.result.Obj?
    ensures var call := Invoke(route, request.params, context);
      r.context == call.context &&
      (call.outcome.Threw? ==> r.item.error == Some(call.outcome.error)) &&
      (call.outcome.Returned? && !Truthy(request.selector) ==>
         r.item.error.None? &&
         r.item.result == (if call.outcome.value.Obj? then call.outcome.value else Null))
  {
    var call := Invoke(route, request.params, context);
    match call.outcome
    case Threw(e) => Step(ErrorItem(request, e), call.context)
    case Returned(v) =>
      var result := if v.Obj? then v else Null;
      if Truthy(request.selector) then
        match Project(result, request.selector)
        case Err(e) => Step(ErrorItem(request, e), call.context)
        case Ok(m) => Step(Item(request.id, request.route, Obj(m), None), call.context)
      else Step(Item(request.id, request.route, result, None), call.context)
  }

  /** `route_reducer` as evidently intended: the error built for a non-dict
      result is raised, so the outcome is turned into an entry exactly as
      `blest.py` does; the handler still runs on the caller's context. */
  function ReduceCall(route: Route, request: Request, context: Value): (r: Step)
    ensures r.item.id == request.id && r.item.route == request.route
    ensures r.item.error.None? <==> r.item.result != Null
    ensures r.item.error.None? ==> r.item.result.Obj?
    ensures var call := Invoke(route, request.params, context);
      r.context == call.context &&
      (call.outcome.Threw? ==> r.item.error == Some(call.outcome.error)) &&
      (call.outcome.Returned? && !call.outcome.value.Obj? ==>
         r.item.error == Some(Raised(Blest.ResultMessage))) &&
      (call.outcome.Returned? && call.outcome.value.Obj? && !Truthy(request.selector) ==>
         r.item.result == call.outcome.value) &&
      (call.outcome.Returned? && call.outcome.value.Obj? && Truthy(request.selector) ==>
         (Project(call.outcome.value, request.selector).Ok? ==>
            r.item.result == Obj(Project(call.outcome.value, request.selector).value)) &&
         (Project(call.outcome.value, request.selector).Err? ==>
            r.item.error == Some(Project(call.outcome.value, request.selector).error)))
  {
    var call := Invoke(route, request.params, context);
    Step(Blest.Finish(request, call.outcome), call.context)
  }

  /** The entries of the first `n` calls and the context they leave: each
      call runs on the context the calls before it left. */
  function RunCalls(calls: seq<Pending>, context: Value, n: nat): (r: (seq<Item>, Value))
    requires n <= |calls|
  {
    if n == 0 then ([], context)
    else
      var (items, shared) := RunCalls(calls, context, n - 1);
      var step := ReduceCall(calls[n - 1].route, calls[n - 1].request, shared);
      (items + [step.item], step.context)
  }

  /** The reply to a batch and the caller's context afterwards. */
  function Respond(body: Value, routes: map<string, Route>, context: Value): (Reply, Value) {
    match ValidateBatch(body)
    case Err(m) => (HandleError(400, m), context)
    case Ok(requests) =>
      var calls := PendingCalls(requests, routes);
      var (items, after) := RunCalls(calls, context, |calls|);
      (HandleResult(items), after)
  }

  /** `asyncio.gather` over the pending calls: runs them one after another on
      the one shared context and lists their entries in call order. */
  method Gather(promises: seq<Pending>, context: Value) returns (results: seq<Item>, shared: Value)
    ensures (results, shared) == RunCalls(promises, context, |promises|)
  {
    results, shared := [], context;
    var j := 0;
    while j < |promises|
      invariant 0 <= j <= |promises|
      invariant (results, shared) == RunCalls(promises, context, j)
    {
      var step := ReduceCall(promises[j].route, promises[j].request, shared);
      results, shared := results + [step.item], step.context;
      j := j + 1;
    }
  }

  /** The request handler: the same validation as `blest.py`, then the calls
      in order on the caller's context, which it hands back as they left it. */
  method Handle(body: Value, routes: map<string, Route>, context: Value) returns (reply: Reply, contextAfter: Value)
    ensures (reply, contextAfter) == Respond(body, routes, context)
  {
    if !Truthy(body) || !body.Arr? {
      return HandleError(400, BodyMessage), context;
    }
    var promises := CollectCalls(body.items, routes);
    if promises.Err? {
      return HandleError(400, promises.error), context;
    }
    var results, shared := Gather(promises.value, context);
    return HandleResult(results), shared;
  }

  /** The context call `k` runs on: the caller's, as the calls before it left it. */
  function ContextAt(calls: seq<Pending>, context: Value, k: nat): Value
    requires k <= |calls|
  {
    RunCalls(calls, context, k).1
  }

  lemma {:induction false} RunCallsLength(calls: seq<Pending>, context: Value, n: nat)
    requires n <= |calls|
    ensures |RunCalls(calls, context, n).0| == n
  {
    if n > 0 {
      RunCallsLength(calls, context, n - 1);
    }
  }

  /** Entry `i` of the first `n` calls is call `i` reduced on the context
      the calls before it left; the later calls do not change it. */
  lemma {:induction false} RunCallsAt(calls: seq<Pending>, context: Value, n: nat, i: nat)
    requires i < n <= |calls|
    ensures |RunCalls(calls, context, n).0| == n
    ensures RunCalls(calls, context, n).0[i] ==
      ReduceCall(calls[i].route, calls[i].request, ContextAt(calls, context, i)).item
  {
    RunCallsLength(calls, context, n);
    RunCallsLength(calls, context, n - 1);
    if i < n - 1 {
      RunCallsAt(calls, context, n - 1, i);
    }
  }

  lemma RunCallsInOrder(calls: seq<Pending>, context: Value, n: nat)
    requires n <= |calls|
    ensures |RunCalls(calls, context, n).0| == n
    ensures forall i :: 0 <= i < n ==>
      RunCalls(calls, context, n).0[i] == ReduceCall(calls[i].route, calls[i].request, ContextAt(calls, context, i)).item
  {
    RunCallsLength(calls, context, n);
    forall i | 0 <= i < n
      ensures RunCalls(calls, context, n).0[i] == ReduceCall(calls[i].route, calls[i].request, ContextAt(calls, context, i)).item
    {
      RunCallsAt(calls, context, n, i);
    }
  }

  /** An accepted batch gets one entry per item, in order, echoing id and
      route; an entry never holds both a result and an error; and entry `i`
      is reduced on the context as calls `0..i-1` left it, so a handler's
      changes to the context are seen by every later call. */
  lemma AcceptedBatchAnswered(body: Value, routes: map<string, Route>, context: Value)
    requires WellFormedBatch(body)
    ensures Respond(body, routes, context).0.error.None?
    ensures Respond(body, routes, context).0.results.Some?
    ensures var items := Respond(body, routes, context).0.results.value;
      var calls := PendingCalls(ValidateBatch(body).value, routes);
      |items| == |body.items| == |calls| &&
      Respond(body, routes, context).1 == ContextAt(calls, context, |calls|) &&
      forall i :: 0 <= i < |items| ==>
        ShapeOk(body.items[i]) &&
        items[i].id == IdOf(body.items[i]) &&
        items[i].route == body.items[i].items[1].s &&
        (items[i].error.None? <==> items[i].result.Obj?) &&
        (items[i].error.Some? <==> items[i].result == Null) &&
        items[i] == ReduceCall(calls[i].route, ToRequest(body.items[i]), ContextAt(calls, context, i)).item
  {
    BatchAccepted(body);
    var requests := ValidateBatch(body).value;
    RunCallsInOrder(PendingCalls(requests, routes), context, |requests|);
  }

  /** A rejected batch gets the 400 error of its first violation and leaves
      the caller's context as it was: no handler ran. */
  lemma RejectedBatchRunsNoHandler(body: Value, routes: map<string, Route>, context: Value)
    requires !WellFormedBatch(body)
    ensures ValidateBatch(body).Err?
    ensures Respond(body, routes, context) == (HandleError(400, ValidateBatch(body).error), context)
  {
    BatchAccepted(body);
  }

  /** A call to a route that is not registered gets a 'Route not found'
      error and leaves the context as it found it. */
  lemma UnknownRouteFails(routes: map<string, Route>, request: Request, context: Value)
    requires request.route !in routes
    ensures ReduceCallAsWritten(Resolve(routes, request.route), request, context) ==
      ReduceCall(Resolve(routes, request.route), request, context)
    ensures ReduceCall(Resolve(routes, request.route), request, context) ==
      Step(Item(request.id, request.route, Null, Some(Raised(NotFoundMessage))), context)
  {
  }

  /** The defect: a handler that returns something other than a dict, called
      without a selector, yields `[id, route, None, None]`. */
  lemma NonObjectResultLosesError(h: Handler, request: Request, context: Value)
    requires h(request.params, context).outcome.Returned?
    requires !h(request.params, context).outcome.value.Obj?
    requires !Truthy(request.selector)
    ensures ReduceCallAsWritten(Single(h), request, context).item == Item(request.id, request.route, Null, None)
    ensures ReduceCall(Single(h), request, context).item ==
      Item(request.id, request.route, Null, Some(Raised(Blest.ResultMessage)))
  {
  }

  /** One concrete input that shows it: a handler returning 42. */
  lemma NonObjectResultExample()
    ensures var h: Handler := (p, c) => Invocation(Returned(Int(42)), c);
      var item := ReduceCallAsWritten(Single(h), Request("a1", "answer", Null, Null), Null).item;
      item.result == Null && item.error.None?
  {
  }

  /** With a selector, the non-dict result is projected as `None`: the entry
      is an error as soon as the selector holds a string or a list, and the
      result is `{}` otherwise. */
  lemma NonObjectResultWithSelector(h: Handler, request: Request, context: Value)
    requires h(request.params, context).outcome.Returned?
    requires !h(request.params, context).outcome.value.Obj?
    requires request.selector.Arr? && request.selector.items != []
    ensures var item := ReduceCallAsWritten(Single(h), request, context).item;
      (item.error.Some? <==>
        (exists i :: 0 <= i < |request.selector.items| && (request.selector.items[i].Str? || request.selector.items[i].Arr?))) &&
      (item.error.None? ==> item.result == Obj(map[]))
  {
    ScalarProjection(Null, request.selector);
  }

  /** The correction changes nothing except the entry for a non-dict result. */
  lemma CorrectionOnlyTouchesNonObjects(route: Route, request: Request, context: Value)
    requires var outcome := Invoke(route, request.params, context).outcome;
      outcome.Threw? || outcome.value.Obj?
    ensures ReduceCall(route, request, context) == ReduceCallAsWritten(route, request, context)
  {
  }
}
