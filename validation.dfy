/** The structural checks the request handler runs on a batch before any
    route handler is called. Both server files run the same checks in the
    same order; this module states them once. */
module Validation {
  import opened Json
  import opened Protocol

  const BodyMessage: string := "Request body should be a JSON array"
  const ItemMessage: string := "Request items should be an array with a unique ID and an route"
  const ParamsMessage: string := "Request item parameters should be a JSON object"
  const SelectorMessage: string := "Request item selector should be a JSON array"
  const DuplicateMessage: string := "Request items should have unique IDs"

  /** A list of at least two elements whose first two (id, route) are strings;
      empty strings are accepted. */
  predicate ShapeOk(item: Value) {
    item.Arr? && |item.items| >= 2 && item.items[0].Str? && item.items[1].Str?
  }

  /** Parameters, when present and truthy, are a dict; falsy ones of any type pass. */
  predicate ParamsOk(item: Value)
    requires ShapeOk(item)
  {
    |item.items| > 2 ==> !Truthy(item.items[2]) || item.items[2].Obj?
  }

  /** A selector, when present and truthy, is a list; falsy ones of any type pass. */
  predicate SelectorOk(item: Value)
    requires ShapeOk(item)
  {
    |item.items| > 3 ==> !Truthy(item.items[3]) || item.items[3].Arr?
  }

  predicate ItemOk(item: Value) {
    ShapeOk(item) && ParamsOk(item) && SelectorOk(item)
  }

  function IdOf(item: Value): string
    requires ShapeOk(item)
  {
    item.items[0].s
  }

  /** The `request_object` built from an item. */
  function ToRequest(item: Value): (r: Request)
    requires ShapeOk(item)
  {
    Request(
      item.items[0].s,
      item.items[1].s,
      if |item.items| > 2 then item.items[2] else Null,
      if |item.items| > 3 then item.items[3] else Null)
  }

  /** The checks run on one item, given the ids accepted before it. They run
      in the order shape, parameters, selector, duplicate id, and the first
      that fails decides the message. */
  function CheckItem(item: Value, seen: seq<string>): (r: Result<Request, string>)
    ensures !ShapeOk(item) ==> r == Err(ItemMessage)
    ensures ShapeOk(item) && !ParamsOk(item) ==> r == Err(ParamsMessage)
    ensures ShapeOk(item) && ParamsOk(item) && !SelectorOk(item) ==> r == Err(SelectorMessage)
    ensures ItemOk(item) && IdOf(item) in seen ==> r == Err(DuplicateMessage)
    ensures ItemOk(item) && IdOf(item) !in seen ==> r == Ok(ToRequest(item))
  {
    if !item.Arr? || |item.items| < 2 || !item.items[0].Str? || !item.items[1].Str? then
      Err(ItemMessage)
    else if |item.items| > 2 && Truthy(item.items[2]) && !item.items[2].Obj? then
      Err(ParamsMessage)
    else if |item.items| > 3 && Truthy(item.items[3]) && !item.items[3].Arr? then
      Err(SelectorMessage)
    else if item.items[0].s in seen then
      Err(DuplicateMessage)
    else
      Ok(ToRequest(item))
  }

  function Ids(requests: seq<Request>): (ids: seq<string>)
    ensures |ids| == |requests| && forall i :: 0 <= i < |requests| ==> ids[i] == requests[i].id
  {
    seq(|requests|, i requires 0 <= i < |requests| => requests[i].id)
  }

  /** The outcome of checking the first `n` items in order: the requests
      built so far, or the message of the first violation. */
  function ValidatePrefix(items: seq<Value>, n: nat): Result<seq<Request>, string>
    requires n <= |items|
  {
    if n == 0 then Ok([])
    else
      match ValidatePrefix(items, n - 1)
      case Err(m) => Err(m)
      case Ok(requests) =>
        match CheckItem(items[n - 1], Ids(requests))
        case Err(m) => Err(m)
        case Ok(r) => Ok(requests + [r])
  }

  /** The whole validation: a falsy or non-list body is rejected first, then
      the items are checked in order. */
  function ValidateBatch(body: Value): Result<seq<Request>, string> {
    if !Truthy(body) || !body.Arr? then Err(BodyMessage)
    else ValidatePrefix(body.items, |body.items|)
  }

  /** Once an item is rejected, later items are never looked at. */
  lemma {:induction false} RejectionStops(items: seq<Value>, n: nat, m: nat)
    requires n <= m <= |items|
    requires ValidatePrefix(items, n).Err?
    ensures ValidatePrefix(items, m) == ValidatePrefix(items, n)
    decreases m
  {
    if m > n {
      RejectionStops(items, n, m - 1);
    }
  }

  /** The first `n` items are each well formed and their ids are pairwise distinct. */
  predicate PrefixWellFormed(items: seq<Value>, n: nat)
    requires n <= |items|
  {
    (forall i :: 0 <= i < n ==> ItemOk(items[i])) &&
    (forall i, j :: 0 <= i < j < n ==> IdOf(items[i]) != IdOf(items[j]))
  }

  /** A batch the handler accepts: a non-empty list of well-formed items with unique ids. */
  predicate WellFormedBatch(body: Value) {
    body.Arr? && |body.items| > 0 && PrefixWellFormed(body.items, |body.items|)
  }

  /** The ids of the first `n` items. */
  function IdsOf(items: seq<Value>, n: nat): (ids: seq<string>)
    requires n <= |items| && forall i :: 0 <= i < n ==> ShapeOk(items[i])
    ensures |ids| == n && forall i :: 0 <= i < n ==> ids[i] == IdOf(items[i])
  {
    seq(n, i requires 0 <= i < n => IdOf(items[i]))
  }

  /** The first `n` items are well formed exactly when the first `n - 1`
      are, item `n - 1` is, and its id is new. */
  lemma WellFormedStep(items: seq<Value>, n: nat)
    requires 0 < n <= |items|
    ensures PrefixWellFormed(items, n) <==>
      PrefixWellFormed(items, n - 1) && ItemOk(items[n - 1]) &&
      forall i :: 0 <= i < n - 1 ==> IdOf(items[i]) != IdOf(items[n - 1])
  {
  }

  /** Checking item `n` after an accepted prefix. */
  lemma ValidateStep(items: seq<Value>, n: nat, requests: seq<Request>)
    requires n < |items| && ValidatePrefix(items, n) == Ok(requests)
    ensures CheckItem(items[n], Ids(requests)).Err? ==>
      ValidatePrefix(items, n + 1) == Err(CheckItem(items[n], Ids(requests)).error)
    ensures CheckItem(items[n], Ids(requests)).Ok? ==>
      ValidatePrefix(items, n + 1) == Ok(requests + [CheckItem(items[n], Ids(requests)).value])
  {
  }

  /** Extending an accepted, well-formed prefix by one item. */
  lemma AcceptStep(items: seq<Value>, n: nat, requests: seq<Request>)
    requires n < |items| && ValidatePrefix(items, n) == Ok(requests)
    requires PrefixWellFormed(items, n)
    requires |requests| == n && forall i :: 0 <= i < n ==> requests[i] == ToRequest(items[i])
    ensures ValidatePrefix(items, n + 1).Ok? <==> PrefixWellFormed(items, n + 1)
    ensures ValidatePrefix(items, n + 1).Ok? ==>
      ValidatePrefix(items, n + 1).value == requests + [ToRequest(items[n])]
  {
    ValidateStep(items, n, requests);
    WellFormedStep(items, n + 1);
    var item := items[n];
    assert forall i :: 0 <= i < n ==> Ids(requests)[i] == IdOf(items[i]);
    if ItemOk(item) && IdOf(item) in Ids(requests) {
      var i :| 0 <= i < n && Ids(requests)[i] == IdOf(item);
      assert IdOf(items[i]) == IdOf(item);
    }
  }

  lemma {:induction false} PrefixAccepted(items: seq<Value>, n: nat)
    requires n <= |items|
    ensures ValidatePrefix(items, n).Ok? <==> PrefixWellFormed(items, n)
    ensures ValidatePrefix(items, n).Ok? ==>
      |ValidatePrefix(items, n).value| == n &&
      forall i :: 0 <= i < n ==> ShapeOk(items[i]) && ValidatePrefix(items, n).value[i] == ToRequest(items[i])
  {
    if n > 0 {
      PrefixAccepted(items, n - 1);
      var previous := ValidatePrefix(items, n - 1);
      if previous.Ok? {
        AcceptStep(items, n - 1, previous.value);
      } else {
        WellFormedStep(items, n);
      }
    }
  }

  /** The handler accepts exactly the well-formed batches, and then builds one
      request per item, in order, echoing each item's id, route, parameters
      and selector. */
  lemma BatchAccepted(body: Value)
    ensures ValidateBatch(body).Ok? <==> WellFormedBatch(body)
    ensures ValidateBatch(body).Ok? ==>
      |ValidateBatch(body).value| == |body.items| &&
      forall i :: 0 <= i < |body.items| ==>
        ShapeOk(body.items[i]) && ValidateBatch(body).value[i] == ToRequest(body.items[i])
  {
    if body.Arr? {
      PrefixAccepted(body.items, |body.items|);
    }
  }

  lemma {:induction false} PrefixFirstFault(items: seq<Value>, n: nat)
    requires n <= |items|
    requires ValidatePrefix(items, n).Err?
    ensures exists k :: (0 <= k < n && PrefixWellFormed(items, k) &&
      CheckItem(items[k], IdsOf(items, k)) == Err(ValidatePrefix(items, n).error))
  {
    var previous := ValidatePrefix(items, n - 1);
    if previous.Err? {
      PrefixFirstFault(items, n - 1);
    } else {
      PrefixAccepted(items, n - 1);
      assert Ids(previous.value) == IdsOf(items, n - 1);
      assert CheckItem(items[n - 1], IdsOf(items, n - 1)) == Err(ValidatePrefix(items, n).error);
    }
  }

  /** A rejected batch is rejected for the first violation: the body itself
      when it is not a non-empty list, otherwise the first item `k` that
      fails a check, every item before it being well formed with distinct ids. */
  lemma RejectedAtFirstFault(body: Value)
    requires ValidateBatch(body).Err?
    ensures !(body.Arr? && |body.items| > 0) <==> ValidateBatch(body).error == BodyMessage
    ensures body.Arr? && |body.items| > 0 ==>
      exists k :: (0 <= k < |body.items| && PrefixWellFormed(body.items, k) &&
        CheckItem(body.items[k], IdsOf(body.items, k)) == Err(ValidateBatch(body).error))
  {
    if body.Arr? && |body.items| > 0 {
      PrefixFirstFault(body.items, |body.items|);
      var k :| 0 <= k < |body.items| && PrefixWellFormed(body.items, k) &&
        CheckItem(body.items[k], IdsOf(body.items, k)) == Err(ValidateBatch(body).error);
      BodyMessageIsDistinct();
    }
  }

  /** The body-level message differs from every item-level one. */
  lemma BodyMessageIsDistinct()
    ensures BodyMessage !in {ItemMessage, ParamsMessage, SelectorMessage, DuplicateMessage}
  {
  }

  /** The validation loop: checks the items in order against the ids seen so
      far (`dedupe`) and, for each accepted item, records the call to run
      later with the handler its route resolves to (`promises`). It returns
      at the first violation; no call has been run by then. */
  method CollectCalls(requests: seq<Value>, routes: map<string, Route>) returns (r: Result<seq<Pending>, string>)
    ensures ValidatePrefix(requests, |requests|).Err? ==> r == Err(ValidatePrefix(requests, |requests|).error)
    ensures ValidatePrefix(requests, |requests|).Ok? ==>
      r == Ok(PendingCalls(ValidatePrefix(requests, |requests|).value, routes))
  {
    var dedupe: seq<string> := [];
    var promises: seq<Pending> := [];
    ghost var accepted: seq<Request> := [];
    var i := 0;
    while i < |requests|
      invariant 0 <= i <= |requests|
      invariant ValidatePrefix(requests, i) == Ok(accepted)
      invariant dedupe == Ids(accepted)
      invariant |promises| == |accepted| == i
      invariant forall k :: 0 <= k < i ==>
        promises[k] == Pending(Resolve(routes, accepted[k].route), accepted[k])
    {
      var checked := CheckItem(requests[i], dedupe);
      ValidateStep(requests, i, accepted);
      if checked.Err? {
        RejectionStops(requests, i + 1, |requests|);
        return Err(checked.error);
      }
      var requestObject := checked.value;
      dedupe := dedupe + [requestObject.id];
      promises := promises + [Pending(Resolve(routes, requestObject.route), requestObject)];
      accepted := accepted + [requestObject];
      i := i + 1;
    }
    assert promises == PendingCalls(accepted, routes);
    return Ok(promises);
  }
}
