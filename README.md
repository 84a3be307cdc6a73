# BLEST request handler, modelled in Dafny

BLEST (Batch-able, Lightweight, Encrypted State Transfer) is a batch RPC protocol.
One POST body carries a JSON array of calls, each written `[id, route, params?, selector?]`.
The reply is an array of entries `[id, route, result, error]`, one per call and in call order.

This project models the request handler of the Python server in two places:

- **`blest.py`.** The handler does the following:
  - It validates the batch and returns a 400 error at the first malformed item, before any route runs.
  - It resolves each route through the `routes` dict, falling back to `route_not_found`.
  - It runs each call through `route_reducer` on a deep copy of the caller's context. A route is a single handler or a list of handlers run as a middleware chain.
  - It rejects results that are not dicts.
  - It projects each result through the call's selector with `filter_object`.
- **`examples/server/flask/blest.py`.** This is a copy of the same handler with three differences:
  - Handlers share the caller's context.
  - A route must be a single handler.
  - A result that is not a dict is dropped silently (see Findings).

Modules:

- `Json` (json.dfy): parsed JSON values, and the Python semantics the code relies on: truthiness, `in`, `x[k]`, and the exceptions they raise.
- `Protocol` (protocol.dfy): requests, entries, handlers, routes and replies, plus `handle_result`, `handle_error`, `route_not_found` and route resolution.
- `Validation` (validation.dfy): the item checks shared by both files, and the validation loop that collects the pending calls.
- `Selector` (selector.dfy): `filter_object`. It is a specification function plus the two nested loops, proved equal to it, and the properties of the projection. The Flask copy's `filter_object` (examples/server/flask/blest.py:104-128) is the same code and is modelled by the same members. `SelectorExamples` holds worked projections.
- `Blest` (blest.dfy): `route_reducer`, the gather and the request handler of `blest.py`.
- `FlaskBlest` (flask_blest.dfy): the Flask copy's reducer, gather and request handler.
- `Scenarios` (scenarios.dfy): one batch run through both handlers. It shows the different context behaviour.

Modelling choices:

- Handlers are functions from `(params, context)` to an outcome and a context. The outcome is a returned value or a raised exception. The context is the one the handler leaves behind, because Python handlers mutate the context in place.
  - `deepcopy` in `blest.py` becomes value semantics: every call gets the caller's context value.
  - In the Flask copy, the context one call leaves is passed on to the next call, and finally back to the caller.
- `asyncio.gather` is modelled as running the calls one after another in input order. This is what it does when no handler suspends.

Behaviour of the code worth knowing, which the model keeps:

- **Messages.** The batch error message is "Request body should be a JSON array".
- **Unknown routes.** An unknown route gives an entry whose error is `{"message": "Route not found"}`. Per-item errors carry only a message, with no status field.
- **Ids and routes.** Empty ids and routes are accepted.
- **Missing pair key.** A selector pair whose key is missing from the result raises a `KeyError`, which becomes an error entry. The key is not silently omitted.
- **Non-list nested selector.** A nested selector that is not a list projects to `{}`, so its key is dropped rather than left unfiltered.
- **No timeout.** There is no per-route timeout.

## Model

| member | source | states |
|---|---|---|
| Json.Contains | blest.py:150 | `key in obj` raises exactly when `obj` is not a dict, list or string; on a dict it tests the keys |
| Json.Subscript | blest.py:153 | `obj[k]` on a dict succeeds exactly when `k` is hashable and names a present key, and gives that key's value; on `None`, booleans and numbers it raises |
| Json.DictKey | blest.py:162 | the dict key a hashable value is stored under; a string is stored under its own name |
| Protocol.HandleResult | blest.py:98-99 | the reply carries the results and no error |
| Protocol.HandleError | blest.py:101-106 | the reply carries no results and an error holding the given code and message, with headers `None` |
| Protocol.RouteNotFound | blest.py:108-109 | it always raises 'Route not found' and leaves the context untouched |
| Protocol.PendingCalls | blest.py:92-93 | one pending call per accepted request, in order, each bound to the route the request names, or to `route_not_found` when that route is missing or an empty list |
| Validation.CheckItem | blest.py:77-91 | an item is rejected for its shape first, then for truthy non-dict params, then for a truthy non-list selector, then for a repeated id; an item that passes becomes the request that echoes its fields |
| Validation.RejectionStops | blest.py:75-84 | once an item is rejected, no later item changes the outcome |
| Validation.PrefixAccepted | blest.py:75-91 | the first n items pass exactly when each is well formed and their ids are distinct; the requests built then echo the items in order |
| Validation.BatchAccepted | blest.py:71-91 | a batch is accepted exactly when it is a non-empty list of well-formed items with unique ids, and then yields one request per item, in order |
| Validation.PrefixFirstFault | blest.py:75-84 | a rejected prefix is rejected with the message of its first faulty item, every earlier item being well formed with distinct ids |
| Validation.RejectedAtFirstFault | blest.py:71-84 | the body message is given exactly when the body is not a non-empty list; otherwise the message is that of the first faulty item |
| Validation.CollectCalls | blest.py:73-93 | the validation loop returns the first violation's message, or the pending calls of the whole batch |
| Selector.FilterObject | blest.py:144-168 | the two nested loops compute the projection specified element by element, including the exception raised |
| Selector.FilterStep | blest.py:148-166 | one loop iteration applies one selector element: a string copies a present key, a pair projects the nested dict or list and keeps non-empty projections |
| Selector.ErrorStops | blest.py:147-166 | an exception raised by one selector element ends the projection with that exception |
| Selector.ListErrorStops | blest.py:157-160 | an exception raised projecting one list element ends the list's projection with that exception |
| Selector.PrefixKeysAreSelected | blest.py:147-166 | every key produced by the first n elements is the slot of one of those elements |
| Selector.ProjectionKeysAreSelected | blest.py:144-168 | every key of a projection is named by the selector, so a projection never adds keys |
| Selector.FlatPrefixRestricts | blest.py:149-151 | plain-key elements keep exactly the named keys the dict has |
| Selector.FlatSelectorRestricts | blest.py:144-151 | a selector of plain keys restricts the dict to the named keys, with values copied verbatim |
| Selector.FlatProjectionIdempotent | blest.py:144-151 | re-projecting through a plain-key selector changes nothing |
| Selector.PrefixFindsPairKeys | blest.py:152-153 | a successful projection of a dict means every pair among the first n has a subselector and a key present in the dict |
| Selector.ProjectionFindsPairKeys | blest.py:152-154 | a pair whose key is missing or whose subselector is missing makes the projection raise; it is never skipped |
| Selector.ListKeepsNonEmpty | blest.py:155-160 | the kept projections of a nested list are non-empty dicts, at most one per element |
| Selector.PrefixPairsNonEmpty | blest.py:155-166 | every key that only pairs among the first n elements select holds a non-empty dict or a non-empty list of non-empty dicts |
| Selector.PairProjectionsAreNonEmpty | blest.py:155-166 | empty nested projections are dropped: a pair-selected key never holds `{}` or `[]` |
| Selector.PrefixFrame | blest.py:147-166 | elements that do not write a key leave that key, present or absent, and its value as they found it |
| Selector.PairDecidesSlot | blest.py:152-166 | a pair `[k, sub]` that alone writes `k`: a nested dict keeps `k` exactly when its projection through `sub` is non-empty, holding that projection; a nested list keeps `k` exactly when some element's projection is non-empty, holding the kept projections; any other value leaves `k` out |
| Selector.ListKeepsExactly | blest.py:155-160 | every element of a nested list is projected without error, and the kept projections are exactly the non-empty ones |
| Selector.ListKeepsInOrder | blest.py:155-160 | the list a nested list projects to is exactly the non-empty projections of its elements, in element order and with repeats kept, as `Selector.Kept` filters them; otherwise it is the first exception an element's projection raises |
| Selector.StringDecidesSlot | blest.py:148-151 | in any selector, a string `s` that alone writes `s` keeps it exactly when the dict has it, and then holds the dict's value verbatim |
| Selector.IgnoredElementsDoNotMatter | blest.py:147-166 | elements that are neither strings nor lists are ignored: dropping them changes neither the projection nor the exception raised |
| Selector.ScalarPrefix | blest.py:149-153 | projecting `None`, a boolean or a number through the first n elements succeeds exactly when none is a string or a list, and gives `{}` |
| Selector.ScalarProjection | blest.py:144-153 | projecting `None`, a boolean or a number raises exactly when the selector holds a string or a list, and gives `{}` otherwise |
| SelectorExamples.SampleProjection | blest.py:6-35 | the sample selector projects a `math` result to its status and its quotient only |
| SelectorExamples.ReprojectionCanRaise | blest.py:152-166 | projecting a projection again can raise a `KeyError`, so projection is not idempotent for nested selectors |
| Blest.ReduceCall | blest.py:111-135 | an entry echoes its call's id and route and holds exactly one of a dict result or an error: a raised exception becomes the error; a non-dict result gives 'Result should be a JSON object'; a dict result is kept as is without a truthy selector, and with one is replaced by its projection, or by the exception the projection raises |
| Blest.RouteReducer | blest.py:111-135 | `route_reducer` produces the entry that the chain semantics, the dict check and the selector specify |
| Blest.Gather | blest.py:93-94 | the entries are the calls' entries in input order, each computed on the caller's context |
| Blest.Handle | blest.py:70-96 | the request handler's reply is the one specified by validation followed by reduction of each call |
| Blest.AcceptedBatchAnswered | blest.py:70-95 | an accepted batch gets one entry per item, in order, echoing id and route, with exactly one of result or error; entry i depends only on item i, its route and the caller's context |
| Blest.RejectedBatchRunsNoHandler | blest.py:71-84 | a rejected batch gets a 400 error with its first violation's message, whatever the routes and the context |
| Blest.UnknownRouteFailsAlone | blest.py:92-93 | removing a route turns exactly the entries that name it into 'Route not found' errors and leaves the others unchanged |
| Blest.ChainReaches | blest.py:114-123 | when the handlers before the k-th returned falsy values, the chain continues from the k-th handler with the context they left |
| Blest.ChainOutcome | blest.py:114-123 | a raising handler decides the chain's outcome; the last handler's value is the chain's result; a truthy value from an earlier handler is the middleware error |
| FlaskBlest.ReduceCallAsWritten | examples/server/flask/blest.py:84-95 | as written, an entry never holds both a result and an error, and a non-null result is a dict; it can hold neither; a raised exception becomes the error; without a truthy selector, a dict result is kept and any other result becomes `None` with no error; the context is the one the handler left |
| FlaskBlest.ReduceCall | examples/server/flask/blest.py:84-95 | with the non-dict error raised, an entry holds exactly one of a dict result or an error, turned from the handler's outcome as in `blest.py`, and the context is the one the handler left |
| FlaskBlest.Gather | examples/server/flask/blest.py:66-67 | the entries are the calls' entries in order, each call running on the context the calls before it left, which is handed back |
| FlaskBlest.Handle | examples/server/flask/blest.py:43-69 | the request handler's reply, and the caller's context afterwards, are the ones specified |
| FlaskBlest.RunCallsLength | examples/server/flask/blest.py:66-67 | n calls give n entries |
| FlaskBlest.RunCallsAt | examples/server/flask/blest.py:66-67 | entry i is call i reduced on the context the earlier calls left; later calls do not change it |
| FlaskBlest.RunCallsInOrder | examples/server/flask/blest.py:66-67 | every entry is its call reduced on the context the earlier calls left |
| FlaskBlest.AcceptedBatchAnswered | examples/server/flask/blest.py:43-68 | an accepted batch gets one entry per item, in order, echoing id and route; with the corrected reducer, each entry holds exactly one of result or error; entry i runs on the context calls 0..i-1 left, which the caller also gets back |
| FlaskBlest.RejectedBatchRunsNoHandler | examples/server/flask/blest.py:44-57 | a rejected batch gets a 400 error with its first violation's message and leaves the context as it was |
| FlaskBlest.UnknownRouteFails | examples/server/flask/blest.py:81-95 | a call to a missing route gets a 'Route not found' error and leaves the context unchanged |
| FlaskBlest.NonObjectResultLosesError | examples/server/flask/blest.py:88-93 | a non-dict result with no selector gives an entry with neither result nor error; the corrected reducer gives the 'Result should be a JSON object' error |
| FlaskBlest.NonObjectResultExample | examples/server/flask/blest.py:88-93 | a handler returning 42 yields an entry whose result and error are both `None` |
| FlaskBlest.NonObjectResultWithSelector | examples/server/flask/blest.py:88-92 | a non-dict result with a selector is projected as `None`: an error if the selector holds a string or a list, `{}` otherwise |
| FlaskBlest.CorrectionOnlyTouchesNonObjects | examples/server/flask/blest.py:84-95 | the correction changes only the entries of non-dict results |
| Scenarios.IsolatedContexts | blest.py:113 | in `blest.py`, a call does not see a context change made by an earlier call of the same batch |
| Scenarios.SharedContext | examples/server/flask/blest.py:66 | in the Flask copy, a later call sees an earlier call's context change, and so does the caller |
| Scenarios.DefaultContextOutlivesBatch | examples/server/flask/blest.py:43 | in the Flask copy, batches sent without a context share the one default dict: a change written in one batch is read in the next |
| Scenarios.DefaultContextStaysEmpty | blest.py:70 | in `blest.py`, the default dict is only ever copied, so a batch sent without a context always sees it empty |

## Left out

- **HTTP layer.** `create_server` (blest.py:44-65) is not part of this model: JSON parsing, the aiohttp server, and the status codes of the HTTP response.
- **Concurrency.** Calls whose handlers suspend may interleave under `asyncio.gather`. The model runs the calls in input order without interleaving, so it does not capture interleaved context mutations in the Flask copy.
- **Sync and async handlers.** The `asyncio.iscoroutinefunction` test is absorbed into the handler's abstract outcome.
  - The Flask copy awaits every handler. A synchronous handler there would raise a `TypeError`, which the model treats as one possible outcome of the handler.
- **Unused code.** `execute_async_functions` (blest.py:137-142, examples/server/flask/blest.py:97-102) is never called. It is not modelled.
- **Exception texts.** The text of built-in exceptions (`KeyError`, `TypeError`, `IndexError`, `UnboundLocalError`) is not modelled. Only `Exception(message)` texts are exact.
- **Unraised exceptions.** `except Exception` does not catch `BaseException` subclasses such as `KeyboardInterrupt`. Those are not modelled.
- **Dict representation.** Dict key order is not modelled, and neither is the JSON form of non-string keys that a projection can create from list positions.
- **Mutation through aliases.** Handlers mutating `params`, and objects shared between calls through the params, are not modelled. In the Flask copy the context passes by reference: each handler call's outcome reports the context it leaves behind, and the model does not track other aliasing.
- **Copy failures.** A context that `copy.deepcopy` cannot copy is not modelled.
- **Floats.** Floats are modelled as reals: no NaN, infinities or rounding.
- **Routes table.** Routes values other than a function or a list of functions are not modelled. The `options` argument is not modelled either, since it is only printed.
- **Router.** The router and its middleware composition are not part of this model.
- FlaskBlest.AcceptedBatchAnswered: the promise that each entry holds exactly one of result or error holds only for the corrected reducer. As written, a non-dict result with no selector is answered `[id, route, None, None]`; `FlaskBlest.NonObjectResultLosesError` states that case.
- FlaskBlest.Handle: the `context={}` default (examples/server/flask/blest.py:43) is not modelled as a default; the context is a parameter. Python creates that dict once, and this reducer passes it on uncopied, so callers that omit the context share one dict across batches. The model captures this by handing each batch's resulting context to the next batch, as `Scenarios.DefaultContextOutlivesBatch` does; it does not model the dict's identity.
- **FlaskBlest.Handle** and **FlaskBlest.Gather** run the corrected reducer `FlaskBlest.ReduceCall`. The code as written is modelled by `FlaskBlest.ReduceCallAsWritten` and compared to it in the lemmas beside it.

## Findings

| source | as written | input that shows it | evidently intended | confidence | as-written member | corrected member |
|---|---|---|---|---|---|---|
| examples/server/flask/blest.py:88-93 | the error built for a result that is not a dict is assigned and never raised, so the entry holds neither a result nor an error | a route whose handler returns `42`, called as `["a1", "answer"]`, is answered `["a1", "answer", None, None]` | raise it as blest.py:129-130 does, giving the error `{"message": "Result should be a JSON object"}` | high; not executed | FlaskBlest.NonObjectResultExample | FlaskBlest.ReduceCall |
