/** The values that pass between the BLEST request handler, its route
    handlers and its caller, and the small helpers both server files share
    (`handle_result`, `handle_error`, `route_not_found`). */
module Protocol {
  import opened Json

  /** One validated call of a batch: the `request_object` dict. `params` and
      `selector` are `Null` when the item is too short to carry them. */
  datatype Request = Request(id: string, route: string, params: Value, selector: Value)

  /** One entry `[id, route, result, error]` of the response batch. `result`
      is `Null` for Python's `None`; `error` is the exception `e` caught,
      sent as `{'message': str(e)}`. */
  datatype Item = Item(id: string, route: string, result: Value, error: Option<Error>)

  /** What calling a route handler does: it returns a value or raises, and it
      leaves the context it was given in some state (handlers may mutate it). */
  datatype Outcome = Returned(value: Value) | Threw(error: Error)

  datatype Invocation = Invocation(outcome: Outcome, context: Value)

  /** A route handler, called as `handler(params, context)`. */
  type Handler = (Value, Value) -> Invocation

  /** A value of the `routes` dict: one handler, or a list of handlers run as
      a chain. */
  datatype Route = Single(handler: Handler) | Chain(handlers: seq<Handler>)

  /** A call created by the validation loop and run later: the route handler
      chosen for it and its request. */
  datatype Pending = Pending(route: Route, request: Request)

  /** The batch-level error dict `{code, message, headers}`. */
  datatype BatchError = BatchError(code: int, message: string, headers: Value)

  /** The `(result, error)` pair the request handler returns. */
  datatype Reply = Reply(results: Option<seq<Item>>, error: Option<BatchError>)

  const NotFoundMessage: string := "Route not found"

  /** `handle_result`: an answered batch, with no error. */
  function HandleResult(results: seq<Item>): (r: Reply)
    ensures r.error.None? && r.results == Some(results)
  {
    Reply(Some(results), None)
  }

  /** `handle_error`: a rejected batch, with no results. */
  function HandleError(code: int, message: string): (r: Reply)
    ensures r.results.None? && r.error.Some?
    ensures r.error.value.code == code && r.error.value.message == message
    ensures r.error.value.headers == Null
  {
    Reply(None, Some(BatchError(code, message, Null)))
  }

  /** `route_not_found`: whatever it is given, it raises 'Route not found'
      and touches nothing. */
  function RouteNotFound(params: Value, context: Value): (inv: Invocation)
    ensures inv.outcome == Threw(Raised(NotFoundMessage))
    ensures inv.context == context
  {
    Invocation(Threw(Raised(NotFoundMessage)), context)
  }

  /** Python truthiness of a routes-dict value: a function is always truthy,
      a list only when it is non-empty. */
  predicate RouteTruthy(route: Route) {
    route.Chain? ==> route.handlers != []
  }

  /** `routes.get(name) or route_not_found`. */
  function Resolve(routes: map<string, Route>, name: string): Route {
    if name in routes && RouteTruthy(routes[name]) then routes[name]
    else Single(RouteNotFound)
  }

  /** The error entry for a call that raised `e`. */
  function ErrorItem(request: Request, e: Error): Item {
    Item(request.id, request.route, Null, Some(e))
  }

  /** The calls the validation loop creates, one per request, in order. */
  function PendingCalls(requests: seq<Request>, routes: map<string, Route>): (calls: seq<Pending>)
    ensures |calls| == |requests|
    ensures forall i :: 0 <= i < |requests| ==>
      calls[i].request == requests[i] && calls[i].route == Resolve(routes, requests[i].route)
  {
    seq(|requests|, i requires 0 <= i < |requests| => Pending(Resolve(routes, requests[i].route), requests[i]))
  }
}
