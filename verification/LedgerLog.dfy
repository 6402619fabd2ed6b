/**
 * The delivery ledger as bytes: one encoded update per line, possibly followed
 * by the torn beginning of a line; and what a sequence of updates amounts to.
 */
module LedgerLog {
  import opened Wrappers
  import opened Spans

  newtype Byte = b: int | 0 <= b < 256

  const NEWLINE: Byte := 10

  datatype Update = Update(
    completed: set<string>,
    lateMerges: set<string>,
    origins: map<string, Origin>,
    versions: map<string, Version>)

  const NOTHING := Update({}, {}, map[], map[])

  /** Any encoding that puts a newline at the end of a record only. */
  datatype Codec = Codec(encode: Update -> seq<Byte>, decode: seq<Byte> -> Option<Update>) {
    ghost predicate Valid() {
      forall u :: NEWLINE !in encode(u) && decode(encode(u) + [NEWLINE]) == Some(u)
    }

    function Line(u: Update): seq<Byte> {
      encode(u) + [NEWLINE]
    }

    function Written(records: seq<Update>): seq<Byte> {
      if records == [] then [] else Written(records[..|records| - 1]) + Line(records[|records| - 1])
    }
  }

  /** The file holds exactly these complete records, and perhaps a torn line. */
  ghost predicate Holds(codec: Codec, bytes: seq<Byte>, records: seq<Update>) {
    codec.Written(records) <= bytes && NEWLINE !in bytes[|codec.Written(records)|..]
  }

  lemma WrittenSnoc(codec: Codec, records: seq<Update>, u: Update)
    ensures codec.Written(records + [u]) == codec.Written(records) + codec.Line(u)
  {
    assert (records + [u])[..|records + [u]| - 1] == records;
  }

  lemma {:induction false} WrittenGrows(codec: Codec, records: seq<Update>, k: nat)
    requires k <= |records|
    ensures codec.Written(records[..k]) <= codec.Written(records)
  {
    if k == |records| {
      assert records[..k] == records;
    } else {
      var rest := records[..|records| - 1];
      WrittenGrows(codec, rest, k);
      assert rest[..k] == records[..k];
    }
  }

  /** Read one line: up to and including the next newline, or to the end. */
  method ReadLine(bytes: seq<Byte>, from: nat) returns (line: seq<Byte>)
    requires from <= |bytes|
    ensures IsLine(bytes, from, line)
  {
    line := [];
    while from + |line| < |bytes|
      invariant from + |line| <= |bytes| && line == bytes[from..from + |line|]
      invariant NEWLINE !in line
    {
      var next := bytes[from + |line|];
      line := line + [next];
      if next == NEWLINE {
        return;
      }
    }
  }

  ghost predicate IsLine(bytes: seq<Byte>, from: nat, line: seq<Byte>) {
    && from + |line| <= |bytes| && line == bytes[from..from + |line|]
    && (line != [] ==> NEWLINE !in line[..|line| - 1])
    && (line == [] || line[|line| - 1] != NEWLINE ==> from + |line| == |bytes|)
  }

  lemma InsideLine(line: seq<Byte>, i: int)
    requires 0 <= i < |line| - 1 && NEWLINE !in line[..|line| - 1]
    ensures line[i] != NEWLINE
  {
    assert line[..|line| - 1][i] == line[i];
  }

  /** The line at a place is what stands there up to the next newline. */
  lemma LineEnds(bytes: seq<Byte>, from: nat, line: seq<Byte>, text: seq<Byte>)
    requires IsLine(bytes, from, line) && NEWLINE !in text
    requires from + |text| < |bytes| && bytes[from..from + |text|] == text && bytes[from + |text|] == NEWLINE
    ensures line == text + [NEWLINE]
  {
    forall i | 0 <= i < |line|
      ensures line[i] == bytes[from + i]
    {}
    if |line| <= |text| {
      forall i | 0 <= i < |line|
        ensures line[i] == text[i]
      {
        assert bytes[from..from + |text|][i] == bytes[from + i];
      }
    } else if |line| > |text| + 1 {
      InsideLine(line, |text|);
    } else {
      assert line[..|text|] == text;
    }
  }

  /** At the boundary of record `k` the next line is that record. */
  lemma LineIsRecord(codec: Codec, bytes: seq<Byte>, records: seq<Update>, k: nat, line: seq<Byte>)
    requires codec.Valid() && Holds(codec, bytes, records) && k < |records|
    requires IsLine(bytes, |codec.Written(records[..k])|, line)
    ensures line == codec.Line(records[k])
    ensures codec.Written(records[..k + 1]) == codec.Written(records[..k]) + line
  {
    hide Codec.Written, IsLine;
    var from, text := |codec.Written(records[..k])|, codec.encode(records[k]);
    assert records[..k + 1] == records[..k] + [records[k]];
    WrittenSnoc(codec, records[..k], records[k]);
    WrittenGrows(codec, records, k + 1);
    var upTo := codec.Written(records[..k + 1]);
    assert upTo <= bytes && upTo == codec.Written(records[..k]) + (text + [NEWLINE]);
    assert bytes[from..from + |text|] == upTo[from..from + |text|] == text;
    assert bytes[from + |text|] == upTo[from + |text|] == NEWLINE;
    LineEnds(bytes, from, line, text);
  }

  /** After the last complete record there is no complete line. */
  lemma NoMoreLines(codec: Codec, bytes: seq<Byte>, records: seq<Update>, line: seq<Byte>)
    requires Holds(codec, bytes, records)
    requires IsLine(bytes, |codec.Written(records)|, line)
    ensures line == [] || line[|line| - 1] != NEWLINE
  {
    if line != [] {
      assert line[|line| - 1] in bytes[|codec.Written(records)|..] by {
        var rest := bytes[|codec.Written(records)|..];
        assert rest[|line| - 1] == line[|line| - 1];
      }
    }
  }

  /** Repairing the tail and appending keeps every earlier record, byte for byte. */
  lemma AppendKeepsRecords(codec: Codec, bytes: seq<Byte>, records: seq<Update>, u: Update, written: nat)
    requires codec.Valid() && Holds(codec, bytes, records) && written <= |codec.Line(u)|
    ensures var repaired := bytes[..|codec.Written(records)|] + codec.Line(u)[..written];
            && codec.Written(records) <= repaired
            && Holds(codec, repaired, if written == |codec.Line(u)| then records + [u] else records)
  {
    var prefix, line := codec.Written(records), codec.Line(u);
    assert bytes[..|prefix|] == prefix;
    var repaired := prefix + line[..written];
    if written == |line| {
      WrittenSnoc(codec, records, u);
      assert line[..written] == line;
      assert repaired[|repaired|..] == [];
    } else {
      assert repaired[|prefix|..] == line[..written];
      assert line[..written] == codec.encode(u)[..written];
    }
  }

  // --- What the records amount to ----------------------------------------------

  /** The first record that names a span decides its origin; the checkpoint comes first. */
  function OriginsOf(base: Update, records: seq<Update>): map<string, Origin> {
    if records == [] then base.origins
    else records[|records| - 1].origins + OriginsOf(base, records[..|records| - 1])
  }

  function CompletedOf(base: Update, records: seq<Update>): set<string> {
    if records == [] then base.completed
    else CompletedOf(base, records[..|records| - 1]) + records[|records| - 1].completed
  }

  function LateMergesOf(base: Update, records: seq<Update>): set<string> {
    if records == [] then base.lateMerges
    else LateMergesOf(base, records[..|records| - 1]) + records[|records| - 1].lateMerges
  }

  /** A newer version, or an equally new one that arrives later, replaces the mark. */
  function Remember(mark: Option<Version>, next: Option<Version>): Option<Version> {
    if next.Some? && (mark.None? || next.value.ts >= mark.value.ts) then next else mark
  }

  function Watermark(mark: Option<Version>, records: seq<Update>, span: string): Option<Version> {
    if records == [] then mark
    else Remember(Watermark(mark, records[..|records| - 1], span), Lookup(records[|records| - 1].versions, span))
  }

  ghost predicate SubMap<V>(a: map<string, V>, b: map<string, V>) {
    forall k :: k in a ==> k in b && b[k] == a[k]
  }

  /** Later records never change an origin, a completion or a late merge. */
  lemma {:induction false} FoldsGrow(base: Update, records: seq<Update>, more: seq<Update>)
    ensures SubMap(OriginsOf(base, records), OriginsOf(base, records + more))
    ensures CompletedOf(base, records) <= CompletedOf(base, records + more)
    ensures LateMergesOf(base, records) <= LateMergesOf(base, records + more)
  {
    if more == [] {
      assert records + more == records;
    } else {
      assert (records + more)[..|records + more| - 1] == records + more[..|more| - 1];
      FoldsGrow(base, records, more[..|more| - 1]);
    }
  }

  lemma FoldsGrowTo(base: Update, records: seq<Update>, k: nat)
    requires k <= |records|
    ensures SubMap(OriginsOf(base, records[..k]), OriginsOf(base, records))
    ensures CompletedOf(base, records[..k]) <= CompletedOf(base, records)
    ensures LateMergesOf(base, records[..k]) <= LateMergesOf(base, records)
  {
    assert records == records[..k] + records[k..];
    FoldsGrow(base, records[..k], records[k..]);
  }

  /** The mark keeps the greatest time seen, whatever came before or after it. */
  lemma {:induction false} WatermarkIsGreatest(mark: Option<Version>, records: seq<Update>, span: string)
    ensures var w := Watermark(mark, records, span);
            && (mark.Some? ==> w.Some? && w.value.ts >= mark.value.ts)
            && (forall i :: 0 <= i < |records| && span in records[i].versions ==>
                 w.Some? && w.value.ts >= records[i].versions[span].ts)
            && (w == mark || exists i :: 0 <= i < |records| && span in records[i].versions && w == Some(records[i].versions[span]))
  {
    if records != [] {
      var rest := records[..|records| - 1];
      WatermarkIsGreatest(mark, rest, span);
      var last := Lookup(records[|records| - 1].versions, span);
      var before := Watermark(mark, rest, span);
      if Watermark(mark, records, span) == before && before != mark {
        var i :| 0 <= i < |rest| && span in rest[i].versions && before == Some(rest[i].versions[span]);
        assert records[i] == rest[i];
      }
    }
  }

  lemma {:induction false} WatermarkConcat(mark: Option<Version>, a: seq<Update>, b: seq<Update>, span: string)
    ensures Watermark(mark, a + b, span) == Watermark(Watermark(mark, a, span), b, span)
  {
    if b == [] {
      assert a + b == a;
    } else {
      assert (a + b)[..|a + b| - 1] == a + b[..|b| - 1];
      WatermarkConcat(mark, a, b[..|b| - 1], span);
    }
  }

  /** A mark that the records can still reach does not matter for where they lead. */
  lemma {:induction false} WatermarkForgets(mark: Option<Version>, other: Option<Version>, records: seq<Update>, span: string, i: nat)
    requires i < |records| && span in records[i].versions
    requires mark.Some? ==> mark.value.ts <= records[i].versions[span].ts
    requires other.Some? ==> other.value.ts <= records[i].versions[span].ts
    ensures Watermark(mark, records, span) == Watermark(other, records, span)
  {
    var rest := records[..|records| - 1];
    if i < |rest| {
      WatermarkForgets(mark, other, rest, span, i);
    } else {
      WatermarkIsGreatest(mark, rest, span);
      WatermarkIsGreatest(other, rest, span);
      BelowOrSame(mark, other, rest, records[i].versions[span], span);
    }
  }

  lemma {:induction false} BelowOrSame(mark: Option<Version>, other: Option<Version>, records: seq<Update>, top: Version, span: string)
    requires mark.Some? ==> mark.value.ts <= top.ts
    requires other.Some? ==> other.value.ts <= top.ts
    ensures Remember(Watermark(mark, records, span), Some(top)) == Remember(Watermark(other, records, span), Some(top))
  {
    if records != [] {
      BelowOrSame(mark, other, records[..|records| - 1], top, span);
    }
  }

  /** Reading records again after a failed pass leads to the same mark as reading them once. */
  lemma RereadIsRead(mark: Option<Version>, partial: seq<Update>, records: seq<Update>, span: string)
    requires forall u :: u in partial ==> u in records
    ensures Watermark(Watermark(mark, partial, span), records, span) == Watermark(mark, records, span)
  {
    WatermarkIsGreatest(mark, partial, span);
    var reached := Watermark(mark, partial, span);
    if reached != mark {
      var i :| 0 <= i < |partial| && span in partial[i].versions && reached == Some(partial[i].versions[span]);
      assert partial[i] in records;
      var j :| 0 <= j < |records| && records[j] == partial[i];
      WatermarkForgets(reached, mark, records, span, j);
    }
  }

  // --- In plain terms -------------------------------------------------------------

  /** The checkpoint or some record says that the span is done. */
  ghost predicate DoneIn(base: Update, records: seq<Update>, span: string) {
    span in base.completed || exists u :: u in records && span in u.completed
  }

  ghost predicate MergedIn(base: Update, records: seq<Update>, id: string) {
    id in base.lateMerges || exists u :: u in records && id in u.lateMerges
  }

  /** The durable watermark of the span is at least as new as that. */
  ghost predicate ReachedIn(base: Update, records: seq<Update>, span: string, ts: int) {
    var w := Watermark(Lookup(base.versions, span), records, span);
    w.Some? && w.value.ts >= ts
  }

  lemma {:induction false} CompletedExactly(base: Update, records: seq<Update>, span: string)
    ensures span in CompletedOf(base, records) <==> DoneIn(base, records, span)
  {
    if records != [] {
      var rest, last := records[..|records| - 1], records[|records| - 1];
      CompletedExactly(base, rest, span);
      assert records == rest + [last];
    }
  }

  lemma {:induction false} MergedExactly(base: Update, records: seq<Update>, id: string)
    ensures id in LateMergesOf(base, records) <==> MergedIn(base, records, id)
  {
    if records != [] {
      var rest, last := records[..|records| - 1], records[|records| - 1];
      MergedExactly(base, rest, id);
      assert records == rest + [last];
    }
  }

  lemma ReachedLater(base: Update, records: seq<Update>, more: seq<Update>, span: string, ts: int)
    requires ReachedIn(base, records, span, ts) && records <= more
    ensures ReachedIn(base, more, span, ts)
  {
    assert more == records + more[|records|..];
    WatermarkConcat(Lookup(base.versions, span), records, more[|records|..], span);
    WatermarkIsGreatest(Watermark(Lookup(base.versions, span), records, span), more[|records|..], span);
  }

  lemma ReachedByLast(base: Update, records: seq<Update>, u: Update, span: string)
    requires span in u.versions
    ensures ReachedIn(base, records + [u], span, u.versions[span].ts)
  {
    assert (records + [u])[..|records + [u]| - 1] == records;
  }
}
