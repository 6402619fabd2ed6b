/**
 * The event journal of one session. Each Pi context event repeats the whole
 * conversation; only what is new since the writer's previous one is stored.
 */
module PiContext {
  import opened Wrappers
  import opened Spans

  const DELTA := "_bt_messages_delta"

  /** `rest` stands for the envelope fields that the codec copies. */
  datatype Envelope = Envelope(source: string, event: string, payload: Json, rest: string)

  /** The allowlisted part of a provider request; chosen elsewhere. */
  type Config = Json -> map<string, Json>

  // --- One event ---------------------------------------------------------------

  function Native(e: Envelope): Option<map<string, Json>> {
    if e.payload.Object? && "event" in e.payload.fields && e.payload.fields["event"].Object? then
      Some(e.payload.fields["event"].fields)
    else None
  }

  function WithNative(e: Envelope, native: map<string, Json>): Envelope
    requires Native(e).Some?
  {
    e.(payload := Object(e.payload.fields["event" := Object(native)]))
  }

  function CommonPrefix(a: seq<Json>, b: seq<Json>): (n: nat)
    ensures n <= |a| && n <= |b| && a[..n] == b[..n]
    ensures n < |a| && n < |b| ==> a[n] != b[n]
  {
    if a == [] || b == [] || a[0] != b[0] then 0
    else
      var n := CommonPrefix(a[1..], b[1..]);
      assert a[..n + 1] == [a[0]] + a[1..][..n] && b[..n + 1] == [b[0]] + b[1..][..n];
      n + 1
  }

  lemma PrefixIsGreatest(a: seq<Json>, b: seq<Json>, n: nat)
    requires n <= |a| && n <= |b|
    ensures n <= CommonPrefix(a, b) <==> a[..n] == b[..n]
  {
    var k := CommonPrefix(a, b);
    if n <= k {
      assert a[..n] == a[..k][..n] && b[..n] == b[..k][..n];
    } else {
      assert a[..n][k] == a[k] && b[..n][k] == b[k];
    }
  }

  function Messages(native: map<string, Json>): Option<seq<Json>> {
    if "messages" in native && native["messages"].Array? then Some(native["messages"].items) else None
  }

  predicate IsContext(e: Envelope) {
    e.source == "pi" && e.event == "context" && Native(e).Some?
  }

  function Delta(common: nat, suffix: seq<Json>): Json {
    Object(map["common_prefix" := Number(common), "suffix" := Array(suffix)])
  }

  function UpdateType(update: Json): Json {
    if update.Object? then Object(map key | key in update.fields && key == "type" :: update.fields[key]) else update
  }

  /** What the translator still needs of the events that are stored shortened for good. */
  function Shortened(e: Envelope, config: Config): Envelope {
    if e.source != "pi" || Native(e).None? then e
    else
      var native := Native(e).value;
      if e.event == "before_provider_request" && "payload" in native then
        WithNative(e, native["payload" := Object(config(native["payload"]))])
      else if e.event == "agent_end" then WithNative(e, native - {"messages"})
      else if e.event == "message_update" then
        WithNative(e, map key | key in native && key in {"type", "assistantMessageEvent"}
                        :: if key == "assistantMessageEvent" then UpdateType(native[key]) else native[key])
      else e
  }

  /** The stored form of an event and the writer's context after it. */
  function Compact(e: Envelope, previous: seq<Json>, config: Config): (Envelope, seq<Json>) {
    if !IsContext(e) then (Shortened(e, config), previous)
    else
      var native := Native(e).value;
      var messages := Messages(native);
      if messages.None? then (WithNative(e, native - {"messages"}), previous)
      else
        var common := CommonPrefix(previous, messages.value);
        (WithNative(e, (native - {"messages"})[DELTA := Delta(common, messages.value[common..])]), messages.value)
  }

  datatype Parsed = Parsed(common: nat, suffix: seq<Json>)

  function ParseDelta(delta: Json, previous: seq<Json>): Result<Parsed> {
    if !delta.Object? || "common_prefix" !in delta.fields then Err("invalid Pi context common prefix")
    else
      var common := delta.fields["common_prefix"];
      if !common.Number? || common.n < 0 then Err("invalid Pi context common prefix")
      else if common.n > |previous| then Err("Pi context common prefix exceeds prior context")
      else if "suffix" !in delta.fields || !delta.fields["suffix"].Array? then Err("invalid Pi context suffix")
      else Ok(Parsed(common.n, delta.fields["suffix"].items))
  }

  /** The event that a stored form stands for, and the reader's context after it. */
  function Expand(e: Envelope, previous: seq<Json>): (Result<Envelope>, seq<Json>) {
    if !IsContext(e) then (Ok(e), previous)
    else
      var native := Native(e).value;
      if DELTA !in native then
        (Ok(e), if Messages(native).Some? then Messages(native).value else previous)
      else
        var parsed := ParseDelta(native[DELTA], previous);
        if parsed.Err? then (Err(parsed.message), previous)
        else
          var messages := previous[..parsed.value.common] + parsed.value.suffix;
          (Ok(WithNative(e, (native - {DELTA})["messages" := Array(messages)])), messages)
  }

  // --- What comes back of one event -----------------------------------------------

  /** An event without what no reader gets back: a message list that is not an array, and a delta key of its own. */
  function Kept(e: Envelope, config: Config): Envelope {
    if !IsContext(e) then Shortened(e, config)
    else
      var native := Native(e).value;
      if Messages(native).Some? then WithNative(e, native - {DELTA}) else WithNative(e, native - {"messages"})
  }

  /** A context event that says its own delta instead of its messages. */
  predicate SpeaksDelta(e: Envelope) {
    IsContext(e) && Messages(Native(e).value).None? && DELTA in Native(e).value
  }

  predicate IsPlain(e: Envelope) {
    IsContext(e) && Messages(Native(e).value).Some? && DELTA !in Native(e).value
  }

  function ContextOf(e: Envelope, previous: seq<Json>): seq<Json> {
    if IsContext(e) && Messages(Native(e).value).Some? then Messages(Native(e).value).value else previous
  }

  lemma NativeWritten(e: Envelope, native: map<string, Json>)
    requires Native(e).Some?
    ensures Native(WithNative(e, native)) == Some(native)
    ensures IsContext(e) ==> IsContext(WithNative(e, native))
    ensures WithNative(WithNative(e, native), native) == WithNative(e, native)
  {}

  lemma Rewritten(e: Envelope, a: map<string, Json>, b: map<string, Json>)
    requires Native(e).Some?
    ensures Native(WithNative(e, a)).Some?
    ensures WithNative(WithNative(e, a), b) == WithNative(e, b)
  {
    assert e.payload.fields["event" := Object(a)]["event" := Object(b)] == e.payload.fields["event" := Object(b)];
  }

  /** Nothing of a context event is lost exactly when it is plain or has neither messages nor a delta. */
  lemma KeptExactly(e: Envelope, config: Config)
    requires IsContext(e)
    ensures Kept(e, config) == e <==> IsPlain(e) || "messages" !in Native(e).value
  {
    var native := Native(e).value;
    assert WithNative(e, native) == e by {
      assert e.payload.fields["event" := Object(native)] == e.payload.fields;
    }
    NativeWritten(e, native - {DELTA});
    NativeWritten(e, native - {"messages"});
    if DELTA !in native {
      assert native - {DELTA} == native;
    }
    if "messages" !in native {
      assert native - {"messages"} == native;
    }
  }

  /** What a reader at another context makes of a stored list. */
  lemma ReadsAs(e: Envelope, w: seq<Json>, r: seq<Json>, config: Config)
    requires IsContext(e) && Messages(Native(e).value).Some?
    ensures var native, messages := Native(e).value, Messages(Native(e).value).value;
            var common := CommonPrefix(w, messages);
            var read := if common <= |r| then r[..common] + messages[common..] else [];
            if common <= |r| then
              Expand(Compact(e, w, config).0, r) == (Ok(WithNative(e, (native - {DELTA})["messages" := Array(read)])), read)
            else Expand(Compact(e, w, config).0, r).0.Err?
  {
    var native, messages := Native(e).value, Messages(Native(e).value).value;
    var common := CommonPrefix(w, messages);
    var written := (native - {"messages"})[DELTA := Delta(common, messages[common..])];
    NativeWritten(e, written);
    assert Compact(e, w, config).0 == WithNative(e, written);
    if common <= |r| {
      var read := r[..common] + messages[common..];
      assert ParseDelta(written[DELTA], r) == Ok(Parsed(common, messages[common..]));
      assert (written - {DELTA})["messages" := Array(read)] == (native - {DELTA})["messages" := Array(read)];
      Rewritten(e, written, (native - {DELTA})["messages" := Array(read)]);
    }
  }

  lemma SameNative(e: Envelope, a: map<string, Json>, b: map<string, Json>)
    requires Native(e).Some?
    ensures WithNative(e, a) == WithNative(e, b) <==> a == b
  {
    NativeWritten(e, a);
    NativeWritten(e, b);
  }

  lemma SameList(r: seq<Json>, messages: seq<Json>, common: nat)
    requires common <= |r| && common <= |messages|
    ensures r[..common] + messages[common..] == messages <==> common <= CommonPrefix(r, messages)
  {
    PrefixIsGreatest(r, messages, common);
    assert messages == messages[..common] + messages[common..];
    if r[..common] + messages[common..] == messages {
      assert (r[..common] + messages[common..])[..common] == r[..common];
    }
  }

  /** A reader at another context gets a message list back exactly when it shares what the writer left out. */
  lemma PlainReadsBack(e: Envelope, w: seq<Json>, r: seq<Json>, config: Config)
    requires IsContext(e) && Messages(Native(e).value).Some?
    ensures var messages := Messages(Native(e).value).value;
            Expand(Compact(e, w, config).0, r).0 == Ok(Kept(e, config)) <==> CommonPrefix(w, messages) <= CommonPrefix(r, messages)
    ensures Expand(Compact(e, w, config).0, r).0 == Ok(Kept(e, config)) ==>
              Expand(Compact(e, w, config).0, r).1 == Messages(Native(e).value).value
  {
    var native, messages := Native(e).value, Messages(Native(e).value).value;
    var common := CommonPrefix(w, messages);
    ReadsAs(e, w, r, config);
    if common <= |r| {
      var read := r[..common] + messages[common..];
      SameList(r, messages, common);
      SameNative(e, (native - {DELTA})["messages" := Array(read)], native - {DELTA});
      assert (native - {DELTA})["messages" := Array(read)]["messages"] == Array(read);
      if read == messages {
        assert (native - {DELTA})["messages" := Array(read)] == native - {DELTA};
      }
    }
  }

  lemma ReadContext(e: Envelope, w: seq<Json>, r: seq<Json>, config: Config)
    requires !SpeaksDelta(e)
    requires IsContext(e) && Messages(Native(e).value).Some? ==> CommonPrefix(w, Messages(Native(e).value).value) <= CommonPrefix(r, Messages(Native(e).value).value)
    ensures Expand(Compact(e, w, config).0, r) == (Ok(Kept(e, config)), ContextOf(e, r))
    ensures Compact(e, w, config).1 == ContextOf(e, w)
  {
    if IsContext(e) && Messages(Native(e).value).Some? {
      PlainReadsBack(e, w, r, config);
    } else if IsContext(e) {
      NativeWritten(e, Native(e).value - {"messages"});
    } else {
      ShortenedStays(e, config);
    }
  }

  lemma ShortenedStays(e: Envelope, config: Config)
    requires !IsContext(e)
    ensures !IsContext(Shortened(e, config))
  {}

  // --- The file -------------------------------------------------------------------

  type pos = n: int | 0 < n witness 1

  datatype Content = Blank | Malformed | Stored(event: Envelope) | Other(record: string)
  datatype Line = Line(size: pos, content: Content)
  datatype Record = Event(event: Envelope) | Control(record: string)

  function Size(lines: seq<Line>): nat {
    if lines == [] then 0 else Size(lines[..|lines| - 1]) + lines[|lines| - 1].size
  }

  /** One result for each line that is not blank, and the reader's context. */
  datatype Replay = Replay(results: seq<Result<Record>>, context: seq<Json>)

  function Decode(content: Content, context: seq<Json>): (Result<Record>, seq<Json>)
    requires !content.Blank?
  {
    match content
    case Malformed => (Err("malformed record"), context)
    case Other(record) => (Ok(Control(record)), context)
    case Stored(event) =>
      var (r, next) := Expand(event, context);
      (if r.Ok? then Ok(Event(r.value)) else Err(r.message), next)
  }

  function Read(from: Replay, line: Line): Replay {
    if line.content.Blank? then from
    else
      var (r, next) := Decode(line.content, from.context);
      Replay(from.results + [r], next)
  }

  function ReadFrom(from: Replay, lines: seq<Line>): Replay {
    if lines == [] then from else Read(ReadFrom(from, lines[..|lines| - 1]), lines[|lines| - 1])
  }

  function ReadAll(lines: seq<Line>): Replay {
    ReadFrom(Replay([], []), lines)
  }

  predicate AllOk(results: seq<Result<Record>>) {
    forall i :: 0 <= i < |results| ==> results[i].Ok?
  }

  // --- Histories -------------------------------------------------------------------

  /** What a write leaves in the file: nothing, the beginning of the line, all of it but the newline, or all of it. */
  datatype Left = Nothing | Partial(size: pos) | Unterminated(size: pos) | Whole(size: pos)

  /** A failed append may leave anything; the writer moves on all the same. A reopened writer starts afresh. */
  datatype Act =
    | Append(event: Envelope, size: pos)
    | FailAppend(event: Envelope, left: Left)
    | Reopen
    | Note(record: string, size: pos)
    | FailNote(record: string, left: Left)

  /** The lines, and whether the last one has no newline yet. */
  datatype File = File(lines: seq<Line>, open: bool)

  datatype Session = Session(file: File, position: nat, context: seq<Json>)

  const START := Session(File([], false), 0, [])

  /** A line that follows an unterminated one becomes part of it, and no reader can decode the two. */
  function Written(file: File, line: Line): seq<Line> {
    if file.open && file.lines != [] then
      file.lines[..|file.lines| - 1] + [Line(file.lines[|file.lines| - 1].size + line.size, Malformed)]
    else file.lines + [line]
  }

  function Put(file: File, content: Content, left: Left): File {
    match left
    case Nothing => file
    case Partial(size) => File(Written(file, Line(size, Malformed)), true)
    case Unterminated(size) => File(Written(file, Line(size, content)), true)
    case Whole(size) => File(Written(file, Line(size, content)), false)
  }

  function Do(s: Session, act: Act, config: Config): Session {
    match act
    case Append(e, size) =>
      var (stored, next) := Compact(e, s.context, config);
      Session(Put(s.file, Stored(stored), Whole(size)), s.position + size, next)
    case FailAppend(e, left) =>
      var (stored, next) := Compact(e, s.context, config);
      Session(Put(s.file, Stored(stored), left), s.position, next)
    case Reopen => Session(s.file, Size(s.file.lines), [])
    case Note(record, size) => Session(Put(s.file, Other(record), Whole(size)), s.position + size, s.context)
    case FailNote(record, left) => s.(file := Put(s.file, Other(record), left))
  }

  function Run(acts: seq<Act>, config: Config): Session {
    if acts == [] then START else Do(Run(acts[..|acts| - 1], config), acts[|acts| - 1], config)
  }

  predicate Appends(act: Act) {
    act.Append? || act.FailAppend?
  }

  function LeftBy(act: Act): Left {
    match act
    case Append(_, size) => Whole(size)
    case FailAppend(_, left) => left
    case Reopen => Nothing
    case Note(_, size) => Whole(size)
    case FailNote(_, left) => left
  }

  /** The record is in the file, whether or not its write was reported to fail. */
  predicate Stores(act: Act) {
    LeftBy(act).Unterminated? || LeftBy(act).Whole?
  }

  function RecordOf(act: Act, config: Config): Record
    requires Stores(act)
  {
    if Appends(act) then Event(Kept(act.event, config)) else Control(act.record)
  }

  /** What was stored, in order, as far as it is kept. */
  function Expected(acts: seq<Act>, config: Config): seq<Result<Record>> {
    if acts == [] then []
    else
      var before, last := Expected(acts[..|acts| - 1], config), acts[|acts| - 1];
      if Stores(last) then before + [Ok(RecordOf(last, config))] else before
  }

  /** The last message list that was stored. */
  function Durable(acts: seq<Act>): seq<Json> {
    if acts == [] then []
    else
      var before, last := Durable(acts[..|acts| - 1]), acts[|acts| - 1];
      if Appends(last) && Stores(last) then ContextOf(last.event, before) else before
  }

  /** The last message list that this writer was given. */
  function Attempted(acts: seq<Act>): seq<Json> {
    if acts == [] then []
    else
      var before, last := Attempted(acts[..|acts| - 1]), acts[|acts| - 1];
      if Appends(last) then ContextOf(last.event, before) else if last.Reopen? then [] else before
  }

  /** The file ends inside a line. */
  predicate Unfinished(acts: seq<Act>) {
    acts != [] &&
      match LeftBy(acts[|acts| - 1])
      case Nothing => Unfinished(acts[..|acts| - 1])
      case Whole(_) => false
      case _ => true
  }

  /**
   * No line is torn or follows one without a newline; an event that is stored
   * brings no delta of its own, and its list shares with the stored one before
   * it whatever it shares with the one that the writer was last given.
   */
  predicate SafeAt(acts: seq<Act>, act: Act) {
    && !LeftBy(act).Partial?
    && (Stores(act) ==> !Unfinished(acts))
    && (Stores(act) && Appends(act) ==>
          && !SpeaksDelta(act.event)
          && (IsContext(act.event) && Messages(Native(act.event).value).Some? ==>
                var messages := Messages(Native(act.event).value).value;
                CommonPrefix(Attempted(acts), messages) <= CommonPrefix(Durable(acts), messages)))
  }

  predicate Safe(acts: seq<Act>) {
    acts == [] || (Safe(acts[..|acts| - 1]) && SafeAt(acts[..|acts| - 1], acts[|acts| - 1]))
  }

  lemma {:induction false} WriterState(acts: seq<Act>, config: Config)
    ensures Run(acts, config).context == Attempted(acts)
    ensures Run(acts, config).file.open == Unfinished(acts)
    ensures Run(acts, config).file.open ==> Run(acts, config).file.lines != []
  {
    if acts != [] {
      WriterState(acts[..|acts| - 1], config);
    }
  }

  lemma ReadOneMore(lines: seq<Line>, line: Line)
    ensures ReadAll(lines + [line]) == Read(ReadAll(lines), line)
  {
    assert (lines + [line])[..|lines + [line]| - 1] == lines;
  }

  lemma DifferentBefore<T>(a: seq<T>, x: T, b: seq<T>, y: T)
    requires a + [x] == b + [y]
    ensures a == b && x == y
  {
    assert |a + [x]| == |b + [y]|;
    assert (a + [x])[..|a|] == a && (b + [y])[..|b|] == b;
    assert (a + [x])[|a|] == x && (b + [y])[|b|] == y;
  }

  ghost predicate ReplaysHistory(acts: seq<Act>, config: Config) {
    ReadAll(Run(acts, config).file.lines).results == Expected(acts, config)
  }

  /**
   * Replaying the file gives back every record that was stored, whatever
   * failed and whenever a writer was reopened, exactly when no line is torn or
   * run into the next, no event brings its own delta and no list leaves out
   * more than the file holds.
   */
  lemma {:induction false} ReplayIsHistoryExactly(acts: seq<Act>, config: Config)
    ensures ReplaysHistory(acts, config) <==> Safe(acts)
    ensures Safe(acts) ==> ReadAll(Run(acts, config).file.lines).context == Durable(acts)
  {
    hide Compact, Kept, SpeaksDelta, IsContext, ReadAll;
    if acts == [] {
      ReadNothing();
    } else {
      var before, last := acts[..|acts| - 1], acts[|acts| - 1];
      ReplayIsHistoryExactly(before, config);
      WriterState(before, config);
      if LeftBy(last).Nothing? {
        assert Run(acts, config).file.lines == Run(before, config).file.lines;
      } else if LeftBy(last).Partial? || Unfinished(before) {
        SpoiledLine(before, last, config);
      } else if Appends(last) {
        AppendReplays(before, last, config);
      } else {
        NoteReplays(before, last, config);
      }
    }
  }

  lemma ReadNothing()
    ensures ReadAll([]) == Replay([], [])
  {}

  /** Once a line is torn or run into another one, what is replayed is not the history. */
  lemma SpoiledLine(before: seq<Act>, last: Act, config: Config)
    requires LeftBy(last).Partial? || (Stores(last) && Unfinished(before))
    ensures !ReplaysHistory(before + [last], config)
  {
    hide ReadAll, Compact, Kept, AllOk;
    assert (before + [last])[..|before + [last]| - 1] == before;
    WriterState(before, config);
    var lines := Run(before + [last], config).file.lines;
    assert lines != [] && lines[|lines| - 1].content.Malformed?;
    assert lines == lines[..|lines| - 1] + [lines[|lines| - 1]];
    ReadOneMore(lines[..|lines| - 1], lines[|lines| - 1]);
    NotAllOk(ReadAll(lines).results);
    ExpectedIsOk(before + [last], config);
  }

  lemma NotAllOk(results: seq<Result<Record>>)
    requires results != [] && results[|results| - 1].Err?
    ensures !AllOk(results)
  {}

  lemma NoteReplays(before: seq<Act>, last: Act, config: Config)
    requires !Appends(last) && Stores(last) && !Unfinished(before)
    ensures var replay, next := ReadAll(Run(before, config).file.lines), ReadAll(Do(Run(before, config), last, config).file.lines);
            && next.context == replay.context
            && (next.results == Expected(before, config) + [Ok(Control(last.record))] <==> replay.results == Expected(before, config))
  {
    WriterState(before, config);
    var lines := Run(before, config).file.lines;
    ReadOneMore(lines, Line(LeftBy(last).size, Other(last.record)));
    var x: Result<Record> := Ok(Control(last.record));
    if ReadAll(lines).results + [x] == Expected(before, config) + [x] {
      DifferentBefore(ReadAll(lines).results, x, Expected(before, config), x);
    }
  }

  lemma OwnDeltaIsTaken(e: Envelope, w: seq<Json>, r: seq<Json>, config: Config)
    requires SpeaksDelta(e)
    ensures Expand(Compact(e, w, config).0, r).0 != Ok(Kept(e, config))
  {
    var native := Native(e).value - {"messages"};
    NativeWritten(e, native);
    var parsed := ParseDelta(native[DELTA], r);
    if parsed.Ok? {
      var read := (native - {DELTA})["messages" := Array(r[..parsed.value.common] + parsed.value.suffix)];
      Rewritten(e, native, read);
      SameNative(e, read, native);
      assert DELTA in native && DELTA !in read;
    }
  }

  lemma AppendReplays(before: seq<Act>, last: Act, config: Config)
    requires Appends(last) && Stores(last) && !Unfinished(before)
    requires ReplaysHistory(before, config) <==> Safe(before)
    requires Safe(before) ==> ReadAll(Run(before, config).file.lines).context == Durable(before)
    requires Run(before, config).context == Attempted(before)
    ensures ReadAll(Do(Run(before, config), last, config).file.lines).results == Expected(before, config) + [Ok(Event(Kept(last.event, config)))]
            <==> Safe(before) && SafeAt(before, last)
    ensures Safe(before) && SafeAt(before, last) ==>
              ReadAll(Do(Run(before, config), last, config).file.lines).context == ContextOf(last.event, Durable(before))
  {
    WriterState(before, config);
    var e, w := last.event, Attempted(before);
    var lines := Run(before, config).file.lines;
    var r := ReadAll(lines).context;
    var line := Line(LeftBy(last).size, Stored(Compact(e, w, config).0));
    assert Do(Run(before, config), last, config).file.lines == lines + [line];
    ReadOneMore(lines, line);
    var x := Decode(line.content, r).0;
    var y: Result<Record> := Ok(Event(Kept(e, config)));
    if Safe(before) {
      ReadsOwn(before, last, config);
    }
    if ReadAll(lines).results + [x] == Expected(before, config) + [y] {
      DifferentBefore(ReadAll(lines).results, x, Expected(before, config), y);
    }
  }

  /** A reader at the stored context gets the event back exactly when it is safe. */
  lemma ReadsOwn(before: seq<Act>, last: Act, config: Config)
    requires Appends(last) && Stores(last) && !Unfinished(before)
    ensures var (read, next) := Decode(Stored(Compact(last.event, Attempted(before), config).0), Durable(before));
            && (read == Ok(Event(Kept(last.event, config))) <==> SafeAt(before, last))
            && (SafeAt(before, last) ==> next == ContextOf(last.event, Durable(before)))
  {
    var e, w, r := last.event, Attempted(before), Durable(before);
    if SafeAt(before, last) {
      ReadContext(e, w, r, config);
    } else if SpeaksDelta(e) {
      OwnDeltaIsTaken(e, w, r, config);
    } else {
      PlainReadsBack(e, w, r, config);
    }
  }

  // --- Writers that are replaced ------------------------------------------------------

  predicate NoneSpeaksDelta(acts: seq<Act>) {
    forall i :: 0 <= i < |acts| && Appends(acts[i]) ==> !SpeaksDelta(acts[i].event)
  }

  /** Whenever an append fails, the writer is replaced before the next append. */
  predicate Discards(acts: seq<Act>) {
    forall i :: 0 <= i < |acts| - 1 && acts[i].FailAppend? ==> acts[i + 1].Reopen?
  }

  /** Every line that a later one follows is whole. */
  predicate WholeLines(acts: seq<Act>) {
    acts != [] ==>
      && WholeLines(acts[..|acts| - 1])
      && !LeftBy(acts[|acts| - 1]).Partial? && (Stores(acts[|acts| - 1]) ==> !Unfinished(acts[..|acts| - 1]))
  }

  lemma {:induction false} DiscardingIsSafe(acts: seq<Act>)
    requires NoneSpeaksDelta(acts) && Discards(acts) && WholeLines(acts)
    ensures Safe(acts)
    ensures (acts != [] && acts[|acts| - 1].FailAppend?) || Attempted(acts) == [] || Attempted(acts) == Durable(acts)
  {
    hide SpeaksDelta, IsContext;
    if acts != [] {
      var before := acts[..|acts| - 1];
      DiscardingIsSafe(before);
      if before != [] && before[|before| - 1].FailAppend? {
        assert acts[|before| - 1].FailAppend? && acts[|before|].Reopen?;
      }
    }
  }

  /** Any number of writers, each discarded when it fails, and no torn lines: replay returns what was stored. */
  lemma ReplayReturnsEveryList(acts: seq<Act>, config: Config)
    requires NoneSpeaksDelta(acts) && Discards(acts) && WholeLines(acts)
    ensures ReplaysHistory(acts, config)
  {
    DiscardingIsSafe(acts);
    ReplayIsHistoryExactly(acts, config);
  }

  /** The writer has accounted for everything that is in the file. */
  predicate Counted(acts: seq<Act>) {
    acts != [] ==>
      var last := acts[|acts| - 1];
      last.Reopen? || (Counted(acts[..|acts| - 1]) && (last.FailAppend? || last.FailNote? ==> last.left.Nothing?))
  }

  function SizeOf(left: Left): nat {
    if left.Nothing? then 0 else left.size
  }

  lemma PutSize(file: File, content: Content, left: Left)
    ensures Size(Put(file, content, left).lines) == Size(file.lines) + SizeOf(left)
  {
    if file.open && file.lines != [] {
      var rest, last := file.lines[..|file.lines| - 1], file.lines[|file.lines| - 1];
      SizeGrows(rest, Line(last.size + SizeOf(left), Malformed));
    } else if !left.Nothing? {
      SizeGrows(file.lines, Line(left.size, if left.Partial? then Malformed else content));
    }
  }

  /** The position that the writer reports is the end of the file exactly until a failed write leaves something behind, and never past it. */
  lemma {:induction false} PositionIsEndExactly(acts: seq<Act>, config: Config)
    ensures Run(acts, config).position <= Size(Run(acts, config).file.lines)
    ensures Run(acts, config).position == Size(Run(acts, config).file.lines) <==> Counted(acts)
  {
    hide Compact, Put;
    if acts != [] {
      var before, last := Run(acts[..|acts| - 1], config), acts[|acts| - 1];
      PositionIsEndExactly(acts[..|acts| - 1], config);
      hide Size;
      var content := if Appends(last) then Stored(Compact(last.event, before.context, config).0)
                     else if last.Reopen? then Blank else Other(last.record);
      PutSize(before.file, content, LeftBy(last));
    }
  }

  function ContextEvent(messages: seq<Json>): Envelope {
    Envelope("pi", "context", Object(map["event" := Object(map["messages" := Array(messages)])]), "")
  }

  lemma ContextEventIs(messages: seq<Json>)
    ensures var e := ContextEvent(messages);
            && IsContext(e) && Messages(Native(e).value) == Some(messages) && !SpeaksDelta(e)
            && forall previous :: ContextOf(e, previous) == messages
  {}

  lemma FirstFails(e: Envelope)
    ensures var acts := [FailAppend(e, Nothing)];
            Attempted(acts) == ContextOf(e, []) && Durable(acts) == [] && Safe(acts) && !Unfinished(acts) && WholeLines(acts)
  {
    var acts := [FailAppend(e, Nothing)];
    assert acts[..|acts| - 1] == [] && acts[|acts| - 1] == FailAppend(e, Nothing);
    assert Attempted([]) == [] && Durable([]) == [] && Safe([]) && !Unfinished([]) && WholeLines([]);
  }

  /** A writer that is kept after a failed append stores a list that nobody can read back. */
  lemma KeptWriterLosesList(a: Json, config: Config)
    ensures var acts := [FailAppend(ContextEvent([a]), Nothing), Append(ContextEvent([a]), 1)];
            NoneSpeaksDelta(acts) && WholeLines(acts) && !ReplaysHistory(acts, config)
  {
    hide Attempted, Durable, Unfinished, ReplaysHistory, IsContext, Native, Messages, SpeaksDelta, ContextOf, CommonPrefix, ContextEvent;
    var e := ContextEvent([a]);
    var acts := [FailAppend(e, Nothing), Append(e, 1)];
    assert acts[..1] == [acts[0]];
    ContextEventIs([a]);
    FirstFails(e);
    PrefixIsGreatest([a], [a], 1);
    assert !SafeAt([acts[0]], acts[1]);
    ReplayIsHistoryExactly(acts, config);
  }

  /** A torn line spoils the record that follows it, even if the writer is reopened in between. */
  lemma ReopeningRepairsNothing(e: Envelope, torn: pos, next: Envelope, size: pos, config: Config)
    ensures var acts := [FailAppend(e, Partial(torn)), Reopen, Append(next, size)];
            && Discards(acts) && !ReplaysHistory(acts, config)
            && Run(acts, config).file.lines == [Line(torn + size, Malformed)]
  {
    var acts := [FailAppend(e, Partial(torn)), Reopen, Append(next, size)];
    assert acts[..2] == [acts[0], acts[1]] && acts[..2][..1] == [acts[0]] && [acts[0]][..0] == [];
    assert Run([], config) == START && START.file.lines + [Line(torn, Malformed)] == [Line(torn, Malformed)];
    var first := Run([acts[0]], config).file;
    assert first == File([Line(torn, Malformed)], true);
    assert Run(acts[..2], config).file == first;
    assert !SafeAt([], acts[0]) && !Safe([acts[0]]) && !Safe(acts[..2]);
    ReplayIsHistoryExactly(acts, config);
  }

  // --- Writing and reading in place -----------------------------------------------

  class JournalFile {
    var lines: seq<Line>
    var open: bool

    constructor ()
      ensures lines == [] && !open
    {
      lines, open := [], false;
    }

    /** Write a line, as far as the write gets. */
    method Write(content: Content, left: Left)
      modifies this
      ensures File(lines, open) == Put(File(old(lines), old(open)), content, left)
    {
      if left.Nothing? {
        return;
      }
      var line := Line(left.size, if left.Partial? then Malformed else content);
      if open && lines != [] {
        line := Line(lines[|lines| - 1].size + left.size, Malformed);
        lines := lines[..|lines| - 1];
      }
      lines := lines + [line];
      open := !left.Whole?;
    }
  }

  lemma SizeGrows(lines: seq<Line>, line: Line)
    ensures Size(lines + [line]) == Size(lines) + line.size
  {
    assert (lines + [line])[..|lines + [line]| - 1] == lines;
  }

  class JournalWriter {
    const file: JournalFile
    var position: nat
    var context: seq<Json>

    constructor OpenPath(file: JournalFile)
      ensures this.file == file && Valid() && position == Size(file.lines) && context == []
    {
      this.file := file;
      position := Size(file.lines);
      context := [];
    }

    /** What was reported as written is in the file. */
    ghost predicate Valid()
      reads this, file
    {
      position <= Size(file.lines)
    }

    ghost function State(): Session
      reads this, file
    {
      Session(File(file.lines, file.open), position, context)
    }

    method CompactPayload(e: Envelope, config: Config) returns (stored: Envelope)
      modifies this`context
      ensures (stored, context) == Compact(e, old(context), config)
    {
      if e.source != "pi" || Native(e).None? {
        return e;
      }
      var native := Native(e).value;
      match e.event {
        case "context" =>
          var messages := Messages(native);
          native := native - {"messages"};
          if messages.None? {
            return WithNative(e, native);
          }
          var common := CommonPrefix(context, messages.value);
          native := native[DELTA := Delta(common, messages.value[common..])];
          context := messages.value;
          return WithNative(e, native);
        case "before_provider_request" =>
          if "payload" !in native {
            return e;
          }
          return WithNative(e, native["payload" := Object(config(native["payload"]))]);
        case "agent_end" =>
          return WithNative(e, native - {"messages"});
        case "message_update" =>
          ghost var whole := native;
          native := native - {"message"};
          if "assistantMessageEvent" in native {
            native := native["assistantMessageEvent" := UpdateType(native["assistantMessageEvent"])];
          }
          native := map key | key in native && key in {"type", "assistantMessageEvent"} :: native[key];
          assert native == map key | key in whole && key in {"type", "assistantMessageEvent"}
                             :: if key == "assistantMessageEvent" then UpdateType(whole[key]) else whole[key];
          return WithNative(e, native);
        case _ =>
          return e;
      }
    }

    /** `failure` is what a write that fails, or is not confirmed, leaves in the file. */
    method Append(e: Envelope, size: pos, failure: Option<Left>, config: Config) returns (r: Result<nat>)
      requires Valid()
      modifies this, file
      ensures Valid()
      ensures State() == Do(old(State()), if failure.Some? then FailAppend(e, failure.value) else Act.Append(e, size), config)
      ensures r == if failure.Some? then Err("write failed") else Ok(position)
    {
      var stored := CompactPayload(e, config);
      r := Confirm(Stored(stored), size, failure);
    }

    method AppendControl(record: string, size: pos, failure: Option<Left>, ghost config: Config) returns (r: Result<nat>)
      requires Valid()
      modifies this`position, file
      ensures Valid()
      ensures State() == Do(old(State()), if failure.Some? then FailNote(record, failure.value) else Note(record, size), config)
      ensures r == if failure.Some? then Err("write failed") else Ok(position)
    {
      r := Confirm(Other(record), size, failure);
    }

    /** The position moves only when the write is confirmed. */
    method Confirm(content: Content, size: pos, failure: Option<Left>) returns (r: Result<nat>)
      requires Valid()
      modifies this`position, file
      ensures Valid()
      ensures File(file.lines, file.open)
              == Put(File(old(file.lines), old(file.open)), content, if failure.Some? then failure.value else Whole(size))
      ensures position == old(position) + if failure.Some? then 0 else size
      ensures r == if failure.Some? then Err("write failed") else Ok(position)
    {
      hide Put;
      var left := if failure.Some? then failure.value else Whole(size);
      PutSize(File(file.lines, file.open), content, left);
      file.Write(content, left);
      if failure.Some? {
        return Err("write failed");
      }
      position := position + size;
      return Ok(position);
    }
  }

  lemma {:induction false} SizeOrders(lines: seq<Line>, i: nat, j: nat)
    requires i <= j <= |lines|
    ensures Size(lines[..i]) <= Size(lines[..j])
    ensures i < j ==> Size(lines[..i]) < Size(lines[..j])
  {
    if i < j {
      SizeOrders(lines, i, j - 1);
      assert lines[..j][..j - 1] == lines[..j - 1];
    }
  }

  lemma ReadNext(lines: seq<Line>, n: nat)
    requires n < |lines|
    ensures ReadAll(lines[..n + 1]) == Read(ReadAll(lines[..n]), lines[n])
    ensures Size(lines[..n + 1]) == Size(lines[..n]) + lines[n].size
  {
    assert lines[..n + 1][..n] == lines[..n];
  }

  /** A place where a reader can be after some record. */
  predicate Boundary(lines: seq<Line>, n: nat) {
    n <= |lines| && (n == 0 || !lines[n - 1].content.Blank?)
  }

  class JournalReader {
    const lines: seq<Line>
    var next: nat
    var position: nat
    var context: seq<Json>

    /** `lines` are the whole lines up to the length that was recorded when the reader was opened. */
    constructor Open(lines: seq<Line>)
      ensures this.lines == lines && Valid() && next == 0
    {
      this.lines := lines;
      next := 0;
      position := 0;
      context := [];
    }

    ghost predicate Valid()
      reads this
    {
      && next <= |lines| && position == Size(lines[..next])
      && context == ReadAll(lines[..next]).context
    }

    method ExpandPayload(e: Envelope) returns (r: Result<Envelope>)
      modifies this`context
      ensures (r, context) == Expand(e, old(context))
    {
      if e.source != "pi" || e.event != "context" || Native(e).None? {
        return Ok(e);
      }
      var native := Native(e).value;
      if DELTA !in native {
        var messages := Messages(native);
        if messages.Some? {
          context := messages.value;
        }
        return Ok(e);
      }
      var parsed := ParseDelta(native[DELTA], context);
      if parsed.Err? {
        return Err(parsed.message);
      }
      native := native - {DELTA};
      context := context[..parsed.value.common];
      context := context + parsed.value.suffix;
      return Ok(WithNative(e, native["messages" := Array(context)]));
    }

    /** The next record; blank lines are passed over. */
    method NextRecord() returns (r: Result<Option<Record>>)
      requires Valid()
      modifies this
      ensures Valid() && old(next) <= next
      ensures match r
              case Ok(None) => next == |lines| && ReadAll(lines).results == ReadAll(lines[..old(next)]).results
              case Ok(Some(record)) => Boundary(lines, next) && next > old(next)
                                       && ReadAll(lines[..next]).results == ReadAll(lines[..old(next)]).results + [Ok(record)]
              case Err(m) => Boundary(lines, next) && next > old(next)
                             && ReadAll(lines[..next]).results == ReadAll(lines[..old(next)]).results + [Err(m)]
      ensures r != Ok(None) ==> forall i :: old(next) <= i < next - 1 ==> lines[i].content.Blank?
      ensures r == Ok(None) ==> forall i :: old(next) <= i < next ==> lines[i].content.Blank?
    {
      while next < |lines|
        invariant Valid() && old(next) <= next
        invariant ReadAll(lines[..next]).results == ReadAll(lines[..old(next)]).results
        invariant forall i :: old(next) <= i < next ==> lines[i].content.Blank?
        decreases |lines| - next
      {
        var line := lines[next];
        ReadNext(lines, next);
        position := position + line.size;
        next := next + 1;
        match line.content {
          case Blank => continue;
          case Malformed => return Err("malformed record");
          case Other(record) => return Ok(Some(Control(record)));
          case Stored(event) =>
            var e := ExpandPayload(event);
            if e.Err? {
              return Err(e.message);
            }
            return Ok(Some(Event(e.value)));
        }
      }
      assert lines[..next] == lines;
      return Ok(None);
    }

    /**
     * Rebuild the context up to a saved position: this succeeds exactly for
     * the end of a record before which everything can be read.
     */
    static method Resume(lines: seq<Line>, position: nat) returns (r: Option<JournalReader>)
      ensures r.Some? <==> exists n: nat :: (n <= |lines| && (n == 0 || !lines[n - 1].content.Blank?)
                                             && Size(lines[..n]) == position && AllOk(ReadAll(lines[..n]).results))
      ensures r.Some? ==> fresh(r.value) && r.value.lines == lines && r.value.Valid() && r.value.position == position
    {
      var reader := new JournalReader.Open(lines);
      while reader.position < position
        invariant fresh(reader) && reader.lines == lines && reader.Valid()
        invariant Boundary(lines, reader.next) && AllOk(ReadAll(lines[..reader.next]).results)
        invariant forall n: nat :: Boundary(lines, n) && n < reader.next ==> Size(lines[..n]) < position
        decreases |lines| - reader.next
      {
        var record := reader.NextRecord();
        if record.Err? {
          ghost var results := ReadAll(lines[..reader.next]).results;
          assert results[|results| - 1].Err?;
          NotPast(lines, reader.next);
          return None;
        }
        if record.value.None? {
          return None;
        }
      }
      if reader.position != position {
        forall n: nat | reader.next <= n <= |lines|
          ensures Size(lines[..n]) > position
        {
          SizeOrders(lines, reader.next, n);
        }
        return None;
      }
      return Some(reader);
    }
  }

  lemma {:induction false} ResultsGrow(lines: seq<Line>, i: nat, j: nat)
    requires i <= j <= |lines|
    ensures ReadAll(lines[..i]).results <= ReadAll(lines[..j]).results
  {
    if i < j {
      ResultsGrow(lines, i, j - 1);
      ReadNext(lines, j - 1);
    }
  }

  /** Nothing after a record that cannot be read can be resumed at. */
  lemma NotPast(lines: seq<Line>, next: nat)
    requires next <= |lines| && !AllOk(ReadAll(lines[..next]).results)
    ensures forall n: nat :: next <= n <= |lines| ==> !AllOk(ReadAll(lines[..n]).results)
  {
    var i :| 0 <= i < |ReadAll(lines[..next]).results| && ReadAll(lines[..next]).results[i].Err?;
    forall n: nat | next <= n <= |lines|
      ensures !AllOk(ReadAll(lines[..n]).results)
    {
      ResultsGrow(lines, next, n);
      assert ReadAll(lines[..n]).results[i].Err?;
    }
  }

  lemma {:induction false} ReadRest(from: Replay, a: seq<Line>, b: seq<Line>)
    ensures ReadFrom(from, a + b) == ReadFrom(ReadFrom(from, a), b)
  {
    if b == [] {
      assert a + b == a;
    } else {
      assert (a + b)[..|a + b| - 1] == a + b[..|b| - 1];
      ReadRest(from, a, b[..|b| - 1]);
    }
  }

  /** What comes before a resumed reader does not change what it returns, except through its context. */
  lemma {:induction false} ResultsAppend(from: Replay, lines: seq<Line>)
    ensures ReadFrom(from, lines).results == from.results + ReadFrom(Replay([], from.context), lines).results
    ensures ReadFrom(from, lines).context == ReadFrom(Replay([], from.context), lines).context
  {
    if lines != [] {
      ResultsAppend(from, lines[..|lines| - 1]);
    }
  }

  /** A reader that resumed at the end of a record goes on with the rest of the history. */
  lemma ResumeContinues(acts: seq<Act>, config: Config, n: nat)
    requires Safe(acts) && n <= |Run(acts, config).file.lines|
    ensures var lines, context := Run(acts, config).file.lines, ReadAll(Run(acts, config).file.lines[..n]).context;
            && |lines| == |Expected(acts, config)|
            && Boundary(lines, n) && AllOk(ReadAll(lines[..n]).results)
            && ReadFrom(Replay([], context), lines[n..]).results == Expected(acts, config)[n..]
  {
    var lines := Run(acts, config).file.lines;
    ReplayIsHistoryExactly(acts, config);
    NoBlankLines(acts, config);
    OneResultEach(lines);
    forall i | 0 <= i < n
      ensures !lines[..n][i].content.Blank?
    {}
    OneResultEach(lines[..n]);
    assert lines == lines[..n] + lines[n..];
    ReadRest(Replay([], []), lines[..n], lines[n..]);
    ResultsAppend(ReadAll(lines[..n]), lines[n..]);
    ExpectedIsOk(acts, config);
    assert ReadAll(lines[..n]).results == Expected(acts, config)[..n];
  }

  lemma {:induction false} NoBlankLines(acts: seq<Act>, config: Config)
    ensures forall line :: line in Run(acts, config).file.lines ==> !line.content.Blank?
  {
    if acts != [] {
      NoBlankLines(acts[..|acts| - 1], config);
    }
  }

  lemma {:induction false} OneResultEach(lines: seq<Line>)
    requires forall line :: line in lines ==> !line.content.Blank?
    ensures |ReadAll(lines).results| == |lines|
  {
    if lines != [] {
      OneResultEach(lines[..|lines| - 1]);
    }
  }

  lemma {:induction false} ExpectedIsOk(acts: seq<Act>, config: Config)
    ensures AllOk(Expected(acts, config))
  {
    if acts != [] {
      ExpectedIsOk(acts[..|acts| - 1], config);
    }
  }
}
