/** One batch run through both request handlers: a call that writes to the
    context followed by a call that reads it. `blest.py` gives every call
    its own deep copy of the caller's context, so the reader sees the
    context as the caller passed it; the Flask copy passes the caller's own
    context to every call, so the reader sees the writer's change, and so
    does the caller. */
module Scenarios {
  import Json
  import Protocol
  import Validation
  import Blest
  import FlaskBlest

  /** Stores the user name in the context and returns an empty dict. */
  function Writer(params: Json.Value, context: Json.Value): Protocol.Invocation {
    Protocol.Invocation(
      Protocol.Returned(Json.Obj(map[])),
      Json.Obj(map[Json.Name("user") := Json.Str("ada")]))
  }

  /** Returns the context it was given under `seen`, leaving it alone. */
  function Reader(params: Json.Value, context: Json.Value): Protocol.Invocation {
    Protocol.Invocation(Protocol.Returned(Json.Obj(map[Json.Name("seen") := context])), context)
  }

  function Routes(): map<string, Protocol.Route> {
    map["write" := Protocol.Single(Writer), "read" := Protocol.Single(Reader)]
  }

  /** `[["w", "write"], ["r", "read"]]` */
  function Batch(): Json.Value {
    Json.Arr([
      Json.Arr([Json.Str("w"), Json.Str("write")]),
      Json.Arr([Json.Str("r"), Json.Str("read")])])
  }

  /** In `blest.py` the reader sees the empty context the caller passed. */
  lemma IsolatedContexts()
    ensures var reply := Blest.Respond(Batch(), Routes(), Json.Obj(map[]));
      reply.results.Some? && |reply.results.value| == 2 &&
      reply.results.value[1] ==
        Protocol.Item("r", "read", Json.Obj(map[Json.Name("seen") := Json.Obj(map[])]), Json.None)
  {
  }

  /** In the Flask copy the reader sees the writer's change, and the caller's
      context holds it after the batch. */
  lemma SharedContext()
    ensures var (reply, after) := FlaskBlest.Respond(Batch(), Routes(), Json.Obj(map[]));
      var written := Json.Obj(map[Json.Name("user") := Json.Str("ada")]);
      reply.results.Some? && |reply.results.value| == 2 &&
      reply.results.value[1] == Protocol.Item("r", "read", Json.Obj(map[Json.Name("seen") := written]), Json.None) &&
      after == written
  {
  }

  /** `[["w", "write"]]` */
  function WriteBatch(): Json.Value {
    Json.Arr([Json.Arr([Json.Str("w"), Json.Str("write")])])
  }

  /** `[["r", "read"]]` */
  function ReadBatch(): Json.Value {
    Json.Arr([Json.Arr([Json.Str("r"), Json.Str("read")])])
  }

  /** Two batches sent to the Flask handler without a context. The default
      `{}` is one dict, created when the handler is defined, so each batch
      runs on the context the batch before it left: the reader in the second
      batch sees what the writer stored in the first. */
  lemma DefaultContextOutlivesBatch()
    ensures var (first, shared) := FlaskBlest.Respond(WriteBatch(), Routes(), Json.Obj(map[]));
      var (second, _) := FlaskBlest.Respond(ReadBatch(), Routes(), shared);
      var written := Json.Obj(map[Json.Name("user") := Json.Str("ada")]);
      first.results == Json.Some([Protocol.Item("w", "write", Json.Obj(map[]), Json.None)]) &&
      second.results == Json.Some([Protocol.Item("r", "read", Json.Obj(map[Json.Name("seen") := written]), Json.None)])
  {
    var empty := Json.Obj(map[]);
    assert Validation.ItemOk(WriteBatch().items[0]) && Validation.ItemOk(ReadBatch().items[0]);
    FlaskBlest.AcceptedBatchAnswered(WriteBatch(), Routes(), empty);
    var (first, shared) := FlaskBlest.Respond(WriteBatch(), Routes(), empty);
    assert first.results.value == [first.results.value[0]];
    FlaskBlest.AcceptedBatchAnswered(ReadBatch(), Routes(), shared);
    var (second, _) := FlaskBlest.Respond(ReadBatch(), Routes(), shared);
    assert second.results.value == [second.results.value[0]];
  }

  /** The same two batches sent to the `blest.py` handler: it works on a copy
      of the default `{}`, which therefore stays empty, and the reader sees it so. */
  lemma DefaultContextStaysEmpty()
    ensures var first := Blest.Respond(WriteBatch(), Routes(), Json.Obj(map[]));
      var second := Blest.Respond(ReadBatch(), Routes(), Json.Obj(map[]));
      first.results == Json.Some([Protocol.Item("w", "write", Json.Obj(map[]), Json.None)]) &&
      second.results == Json.Some([Protocol.Item("r", "read", Json.Obj(map[Json.Name("seen") := Json.Obj(map[])]), Json.None)])
  {
    var empty := Json.Obj(map[]);
    assert Validation.ItemOk(WriteBatch().items[0]) && Validation.ItemOk(ReadBatch().items[0]);
    Blest.AcceptedBatchAnswered(WriteBatch(), Routes(), empty);
    Blest.AcceptedBatchAnswered(ReadBatch(), Routes(), empty);
    var first := Blest.Respond(WriteBatch(), Routes(), empty);
    var second := Blest.Respond(ReadBatch(), Routes(), empty);
    assert first.results.value == [first.results.value[0]];
    assert second.results.value == [second.results.value[0]];
  }
}
