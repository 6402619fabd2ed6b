/** What the session journal stores of one Pi event, and what comes back of it, field by field. */
module PiFields {
  import opened Wrappers
  import opened Spans
  import opened PiContext

  /** A Pi event whose payload is this object and whose native event is that one. */
  ghost predicate PiEvent(e: Envelope, payload: map<string, Json>, native: map<string, Json>) {
    e.source == "pi" && e.payload == Object(payload) && Lookup(payload, "event") == Some(Object(native))
  }

  /** The same event with another native event. */
  ghost predicate Replaced(e: Envelope, out: Envelope, payload: map<string, Json>, native: map<string, Json>) {
    && out == Envelope(e.source, e.event, out.payload, e.rest)
    && out.payload == Object(payload["event" := Object(native)])
  }

  function FieldsOf(out: Envelope): map<string, Json> {
    if out.payload.Object? && "event" in out.payload.fields && out.payload.fields["event"].Object? then out.payload.fields["event"].fields
    else map[]
  }

  /** Of a streaming update's inner event only the type is stored. */
  ghost predicate OnlyType(was: Option<Json>, now: Option<Json>) {
    match was
    case Some(Object(update)) => now == Some(Object(if "type" in update then map["type" := update["type"]] else map[]))
    case _ => now == was
  }

  /** The stored field of an event that is not a context event. */
  ghost predicate StoredField(event: string, config: Config, key: string, was: Option<Json>, now: Option<Json>) {
    if event == "agent_end" then now == if key == "messages" then None else was
    else if event == "message_update" then
      if key == "assistantMessageEvent" then OnlyType(was, now)
      else now == if key == "type" then was else None
    else if event == "before_provider_request" && key == "payload" && was.Some? then
      now == Some(Object(config(was.value)))
    else now == was
  }

  lemma UpdateKeepsType(update: Json)
    ensures OnlyType(Some(update), Some(UpdateType(update)))
  {
    if update.Object? {
      var kept := if "type" in update.fields then map["type" := update.fields["type"]] else map[];
      assert UpdateType(update).fields == kept;
    }
  }

  /** Outside of context events the stored event is the one that comes back. */
  lemma OtherEventsExactly(e: Envelope, payload: map<string, Json>, native: map<string, Json>, previous: seq<Json>, config: Config)
    requires PiEvent(e, payload, native) && e.event != "context"
    ensures var (stored, next) := Compact(e, previous, config);
            && Replaced(e, stored, payload, FieldsOf(stored)) && next == previous
            && (forall key :: StoredField(e.event, config, key, Lookup(native, key), Lookup(FieldsOf(stored), key)))
            && Kept(e, config) == stored && Expand(stored, previous) == (Ok(stored), previous)
  {
    assert payload["event" := Object(native)] == payload;
    var stored := Compact(e, previous, config).0;
    forall key
      ensures StoredField(e.event, config, key, Lookup(native, key), Lookup(FieldsOf(stored), key))
    {
      if e.event == "message_update" && key == "assistantMessageEvent" && key in native {
        UpdateKeepsType(native[key]);
      }
    }
  }

  /** The event of another source, and one without a native event, is stored and read as it is. */
  lemma ForeignEventsExactly(e: Envelope, previous: seq<Json>, config: Config)
    requires e.source != "pi" || !exists payload, native :: PiEvent(e, payload, native)
    ensures Compact(e, previous, config) == (e, previous) && Kept(e, config) == e && Expand(e, previous) == (Ok(e), previous)
  {
    if e.source == "pi" && Native(e).Some? {
      assert PiEvent(e, e.payload.fields, Native(e).value);
    }
  }

  /** The two lists agree on the first `n` messages and on no more. */
  ghost predicate Shares(a: seq<Json>, b: seq<Json>, n: nat) {
    n <= |a| && n <= |b| && a[..n] == b[..n] && (n < |a| && n < |b| ==> a[n] != b[n])
  }

  /** The stored field of a context event whose messages are a list. */
  ghost predicate StoredContextField(messages: seq<Json>, n: nat, key: string, was: Option<Json>, now: Option<Json>) {
    if key == "messages" then now == None
    else if key == "_bt_messages_delta" then
      n <= |messages| && now == Some(Object(map["common_prefix" := Number(n), "suffix" := Array(messages[n..])]))
    else now == was
  }

  /** Instead of its messages a context event is stored with the number of those it shares with the previous one, and the rest. */
  lemma ContextExactly(e: Envelope, payload: map<string, Json>, native: map<string, Json>, messages: seq<Json>, previous: seq<Json>, config: Config)
    requires PiEvent(e, payload, native) && e.event == "context" && Lookup(native, "messages") == Some(Array(messages))
    ensures var (stored, next) := Compact(e, previous, config);
            && Replaced(e, stored, payload, FieldsOf(stored)) && next == messages
            && exists n :: (Shares(previous, messages, n)
                            && forall key :: StoredContextField(messages, n, key, Lookup(native, key), Lookup(FieldsOf(stored), key)))
    ensures Replaced(e, Kept(e, config), payload, FieldsOf(Kept(e, config)))
    ensures forall key :: Lookup(FieldsOf(Kept(e, config)), key) == if key == "_bt_messages_delta" then None else Lookup(native, key)
  {
    var stored := Compact(e, previous, config).0;
    var n := CommonPrefix(previous, messages);
    assert Shares(previous, messages, n);
    assert forall key :: StoredContextField(messages, n, key, Lookup(native, key), Lookup(FieldsOf(stored), key));
  }

  /** A message list that is not an array is dropped, for good. */
  lemma ContextWithoutList(e: Envelope, payload: map<string, Json>, native: map<string, Json>, previous: seq<Json>, config: Config)
    requires PiEvent(e, payload, native) && e.event == "context" && ("messages" in native ==> !native["messages"].Array?)
    ensures var (stored, next) := Compact(e, previous, config);
            && Replaced(e, stored, payload, FieldsOf(stored)) && next == previous && Kept(e, config) == stored
            && forall key :: Lookup(FieldsOf(stored), key) == if key == "messages" then None else Lookup(native, key)
  {}

  /** The delta keeps at most the messages before it, and adds its own list. */
  ghost predicate Readable(delta: map<string, Json>, previous: seq<Json>) {
    && "common_prefix" in delta && delta["common_prefix"].Number? && 0 <= delta["common_prefix"].n <= |previous|
    && "suffix" in delta && delta["suffix"].Array?
  }

  ghost predicate ReadField(list: seq<Json>, key: string, was: Option<Json>, now: Option<Json>) {
    now == if key == "messages" then Some(Array(list)) else if key == "_bt_messages_delta" then None else was
  }

  /** A stored delta is read exactly if it is well formed and within the list that was read before; a bad one changes nothing. */
  lemma DeltaExactly(e: Envelope, payload: map<string, Json>, native: map<string, Json>, delta: map<string, Json>, previous: seq<Json>)
    requires PiEvent(e, payload, native) && e.event == "context" && Lookup(native, "_bt_messages_delta") == Some(Object(delta))
    ensures Expand(e, previous).0.Ok? <==> Readable(delta, previous)
    ensures Expand(e, previous).0.Err? ==> Expand(e, previous).1 == previous
    ensures Readable(delta, previous) ==>
              var (read, list) := Expand(e, previous);
              && list == previous[..delta["common_prefix"].n] + delta["suffix"].items
              && Replaced(e, read.value, payload, FieldsOf(read.value))
              && forall key :: ReadField(list, key, Lookup(native, key), Lookup(FieldsOf(read.value), key))
  {}

  /** A context event without a delta is read as it is, and its list is what the next delta refers to. */
  lemma WholeContextExactly(e: Envelope, payload: map<string, Json>, native: map<string, Json>, previous: seq<Json>)
    requires PiEvent(e, payload, native) && e.event == "context" && "_bt_messages_delta" !in native
    ensures Expand(e, previous)
            == (Ok(e), if "messages" in native && native["messages"].Array? then native["messages"].items else previous)
  {}

  /** A delta that is not an object cannot be read. */
  lemma NoObjectNoDelta(e: Envelope, payload: map<string, Json>, native: map<string, Json>, previous: seq<Json>)
    requires PiEvent(e, payload, native) && e.event == "context" && "_bt_messages_delta" in native && !native["_bt_messages_delta"].Object?
    ensures Expand(e, previous) == (Err("invalid Pi context common prefix"), previous)
  {}
}
