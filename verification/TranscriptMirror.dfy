/** Daemon-owned copies of transcript files that agents may append to, cut or rewrite. */
module TranscriptMirror {
  import opened Wrappers

  type Byte = b: int | 0 <= b < 256
  type Bytes = seq<Byte>
  type Name = string

  /** The mirror files, and which of them a transcript currently uses. */
  datatype Directory = Directory(files: map<Name, Bytes>, current: map<Name, Name>)

  const EMPTY := Directory(map[], map[])

  /** The part of a mirror that a journaled event refers to. */
  datatype Reference = Reference(name: Name, through: nat)

  /** How far a capture gets; a write of the pointer can leave anything behind. */
  datatype Outcome = Complete | TornCopy(bytes: nat) | TornPointer(left: Option<Name>)

  function Least(a: nat, b: nat): nat {
    if a <= b then a else b
  }

  function Contents(d: Directory, name: Name): Bytes {
    if name in d.files then d.files[name] else []
  }

  function CurrentName(d: Directory, base: Name): Name {
    if base in d.current then d.current[base] else base
  }

  function Through(source: Bytes, observed: Option<nat>): nat {
    if observed.Some? then Least(observed.value, |source|) else |source|
  }

  // --- Captures of a generation ------------------------------------------------------

  /** The transcript is not the mirrored one with more at its end. */
  predicate Changed(mirror: Bytes, source: Bytes, through: nat)
    requires through <= |source|
  {
    |source| < |mirror| || mirror[..Least(|mirror|, through)] != source[..Least(|mirror|, through)]
  }

  function SetPointer(current: map<Name, Name>, base: Name, to: Option<Name>): map<Name, Name> {
    if to.Some? then current[base := to.value] else current - {base}
  }

  /** Append part of the transcript to a mirror and make that the current one. */
  function Copied(d: Directory, base: Name, name: Name, source: Bytes, from: nat, through: nat, outcome: Outcome): (Directory, Result<Reference>)
    requires from <= through <= |source|
  {
    var whole := Contents(d, name) + source[from..through];
    match outcome
    case TornCopy(n) => (d.(files := d.files[name := Contents(d, name) + source[from..from + Least(n, through - from)]]), Err("torn"))
    case TornPointer(left) => (Directory(d.files[name := whole], SetPointer(d.current, base, left)), Err("torn"))
    case Complete => (Directory(d.files[name := whole], d.current[base := name]), Ok(Reference(name, through)))
  }

  /** `generation` is the name of the next generation, if one is needed. */
  function Capture(d: Directory, base: Name, source: Option<Bytes>, observed: Option<nat>, generation: Name, outcome: Outcome)
    : (Directory, Result<Reference>)
  {
    if source.None? then (d, Err("missing transcript"))
    else
      var through, mirror := Through(source.value, observed), Contents(d, CurrentName(d, base));
      if Changed(mirror, source.value, through) then Copied(d, base, generation, source.value, 0, through, outcome)
      else Copied(d, base, CurrentName(d, base), source.value, Least(|mirror|, through), through, outcome)
  }

  ghost predicate Grows(a: Directory, b: Directory) {
    forall name :: name in a.files ==> name in b.files && a.files[name] <= b.files[name]
  }

  /**
   * The reference stands for the transcript as it was observed: its first `n`
   * bytes if that many were observed and are there, and all of it otherwise.
   */
  ghost predicate StandsFor(d: Directory, r: Reference, source: Bytes, observed: Option<nat>) {
    && r.name in d.files && r.through <= |d.files[r.name]|
    && (if observed.Some? && observed.value <= |source| then
          r.through == observed.value && d.files[r.name][..r.through] == source[..observed.value]
        else r.through == |source| && d.files[r.name][..r.through] == source)
  }

  lemma CaptureGrows(d: Directory, base: Name, source: Option<Bytes>, observed: Option<nat>, generation: Name, outcome: Outcome)
    ensures Grows(d, Capture(d, base, source, observed, generation, outcome).0)
  {}

  /** No file but this one was written. */
  ghost predicate OneFile(a: Directory, b: Directory, only: Name) {
    && (forall name :: name != only ==> (name in b.files <==> name in a.files))
    && (forall name :: name != only && name in a.files ==> b.files[name] == a.files[name])
  }

  /**
   * A capture gives a reference to exactly the transcript as it was observed,
   * in the file that is current from then on. A file that it starts holds
   * nothing beyond that, and no other file or pointer is touched.
   */
  lemma CaptureHolds(d: Directory, base: Name, source: Bytes, observed: Option<nat>, generation: Name)
    requires generation !in d.files
    ensures var (next, r) := Capture(d, base, Some(source), observed, generation, Complete);
            && r.Ok? && StandsFor(next, r.value, source, observed)
            && next.current == d.current[base := r.value.name]
            && (r.value.name == generation || r.value.name == if base in d.current then d.current[base] else base)
            && (r.value.name !in d.files ==> |next.files[r.value.name]| == r.value.through)
            && OneFile(d, next, r.value.name)
  {
    var through, mirror := Through(source, observed), Contents(d, CurrentName(d, base));
    assert source[..|source|] == source;
    if !Changed(mirror, source, through) {
      if |mirror| <= through {
        assert mirror + source[|mirror|..through] == source[..through];
      } else {
        assert mirror + source[through..through] == mirror;
      }
    } else {
      assert [] + source[0..through] == source[..through];
    }
  }

  /** A new generation starts exactly when the transcript was cut, or differs where both can be compared. */
  lemma NewGenerationExactly(d: Directory, base: Name, source: Bytes, observed: Option<nat>, generation: Name)
    requires generation != CurrentName(d, base)
    ensures var mirror := Contents(d, CurrentName(d, base));
            Capture(d, base, Some(source), observed, generation, Complete).1.value.name != CurrentName(d, base)
            <==> |source| < |mirror|
                 || exists i :: 0 <= i < |mirror| && i < |source| && (observed.Some? ==> i < observed.value) && mirror[i] != source[i]
  {
    var mirror, through := Contents(d, CurrentName(d, base)), Through(source, observed);
    var n := Least(|mirror|, through);
    if |mirror| <= |source| && mirror[..n] != source[..n] {
      var i :| 0 <= i < n && mirror[..n][i] != source[..n][i];
      assert mirror[i] != source[i];
    }
    if mirror[..n] == source[..n] {
      forall i | 0 <= i < n
        ensures mirror[i] == source[i]
      {
        assert mirror[..n][i] == source[..n][i];
      }
    }
  }

  // --- Histories ------------------------------------------------------------------------

  /** The transcript may be anything at each capture; the pointer may become anything in between. */
  datatype Act =
    | Captured(base: Name, source: Option<Bytes>, observed: Option<nat>, generation: Name, outcome: Outcome)
    | Repointed(base: Name, left: Option<Name>)

  function Do(d: Directory, act: Act): Directory {
    match act
    case Captured(base, source, observed, generation, outcome) => Capture(d, base, source, observed, generation, outcome).0
    case Repointed(base, left) => d.(current := SetPointer(d.current, base, left))
  }

  function RunFrom(d: Directory, acts: seq<Act>): Directory {
    if acts == [] then d else Do(RunFrom(d, acts[..|acts| - 1]), acts[|acts| - 1])
  }

  function Run(acts: seq<Act>): Directory {
    RunFrom(EMPTY, acts)
  }

  /** Generated names have not been used before. */
  predicate FreshNames(acts: seq<Act>) {
    forall i :: 0 <= i < |acts| && acts[i].Captured? ==> acts[i].generation !in Run(acts[..i]).files
  }

  lemma {:induction false} RunGrows(acts: seq<Act>, i: nat, j: nat)
    requires i <= j <= |acts|
    ensures Grows(Run(acts[..i]), Run(acts[..j]))
  {
    if i < j {
      RunGrows(acts, i, j - 1);
      assert acts[..j][..j - 1] == acts[..j - 1];
      var before, act := Run(acts[..j - 1]), acts[j - 1];
      if act.Captured? {
        CaptureGrows(before, act.base, act.source, act.observed, act.generation, act.outcome);
      }
    }
  }

  /**
   * Whatever happens to the transcripts and pointers, and wherever later
   * captures stop, every reference that was given out stands for the
   * transcript as it was observed then.
   */
  lemma ReferencesAreImmutable(acts: seq<Act>, i: nat, j: nat)
    requires FreshNames(acts) && i < j <= |acts|
    requires acts[i].Captured? && acts[i].source.Some? && acts[i].outcome.Complete?
    ensures var act := acts[i];
            var r := Capture(Run(acts[..i]), act.base, act.source, act.observed, act.generation, Complete).1;
            r.Ok? && StandsFor(Run(acts[..j]), r.value, act.source.value, act.observed)
  {
    var act := acts[i];
    CaptureHolds(Run(acts[..i]), act.base, act.source.value, act.observed, act.generation);
    assert acts[..i + 1][..i] == acts[..i];
    RunGrows(acts, i + 1, j);
    var r := Capture(Run(acts[..i]), act.base, act.source, act.observed, act.generation, Complete).1.value;
    var now, later := Run(acts[..i + 1]).files[r.name], Run(acts[..j]).files[r.name];
    assert later[..r.through] == now[..r.through];
  }

  // --- A transcript that only grows ---------------------------------------------------

  /** The current mirror of a transcript holds its first bytes, each of them once. */
  ghost predicate Mirrors(d: Directory, base: Name, source: Bytes, length: nat) {
    length <= |source| && Contents(d, CurrentName(d, base)) == source[..length]
  }

  /** How far the mirror reaches after one more capture; it may stop anywhere on the way. */
  function Further(length: nat, through: nat, outcome: Outcome): nat {
    if through <= length then length
    else if outcome.TornCopy? then Least(length + outcome.bytes, through)
    else through
  }

  /** How much of the transcript an event may see. */
  ghost function ObservedLength(source: Bytes, observed: Option<nat>): nat {
    if observed.Some? && observed.value <= |source| then observed.value else |source|
  }

  predicate Keeps(outcome: Outcome, name: Name) {
    outcome.TornPointer? ==> outcome.left == Some(name)
  }

  lemma PrefixIsUnchanged(source: Bytes, length: nat, through: nat)
    requires length <= |source| && through <= |source|
    ensures !Changed(source[..length], source, through)
  {
    assert source[..length][..Least(length, through)] == source[..Least(length, through)];
  }

  lemma GrowingStep(d: Directory, base: Name, source: Bytes, length: nat, longer: Bytes, observed: Option<nat>, generation: Name, outcome: Outcome)
    requires Mirrors(d, base, source, length) && source <= longer && Keeps(outcome, CurrentName(d, base))
    ensures var (next, r), through := Capture(d, base, Some(longer), observed, generation, outcome), ObservedLength(longer, observed);
            && r == (if outcome.Complete? then Ok(Reference(CurrentName(d, base), through)) else Err("torn"))
            && CurrentName(next, base) == CurrentName(d, base)
            && Mirrors(next, base, longer, Further(length, through, outcome))
            && OneFile(d, next, CurrentName(d, base))
  {
    hide Changed, Copied;
    assert longer[..length] == source[..length];
    PrefixIsUnchanged(longer, length, Through(longer, observed));
    CopiedFurther(d, base, longer, length, Through(longer, observed), outcome);
  }

  lemma CopiedFurther(d: Directory, base: Name, source: Bytes, length: nat, through: nat, outcome: Outcome)
    requires Mirrors(d, base, source, length) && through <= |source| && Keeps(outcome, CurrentName(d, base))
    ensures var (next, r) := Copied(d, base, CurrentName(d, base), source, Least(length, through), through, outcome);
            && r == (if outcome.Complete? then Ok(Reference(CurrentName(d, base), through)) else Err("torn"))
            && CurrentName(next, base) == CurrentName(d, base)
            && Mirrors(next, base, source, Further(length, through, outcome))
            && OneFile(d, next, CurrentName(d, base))
  {
    var name, from := CurrentName(d, base), Least(length, through);
    var to := if outcome.TornCopy? then from + Least(outcome.bytes, through - from) else through;
    var (next, r) := Copied(d, base, name, source, from, through, outcome);
    assert CurrentName(next, base) == name && next.files == d.files[name := Contents(d, name) + source[from..to]];
    assert source[..length] + source[from..to] == source[..Further(length, through, outcome)] by {
      if through <= length {
        assert source[from..to] == [];
      }
    }
  }

  /** Captures of one transcript that has only grown in between; a pointer write that stops leaves the pointer it was to write. */
  ghost predicate Growing(acts: seq<Act>, base: Name, source: Bytes, name: Name) {
    acts != [] ==>
      var rest, act := acts[..|acts| - 1], acts[|acts| - 1];
      && Growing(rest, base, source, name)
      && act.Captured? && act.base == base && act.source.Some? && Latest(rest, source) <= act.source.value && Keeps(act.outcome, name)
  }

  /** The transcript at the last of the captures. */
  function Latest(acts: seq<Act>, source: Bytes): Bytes {
    if acts != [] && acts[|acts| - 1].Captured? && acts[|acts| - 1].source.Some? then acts[|acts| - 1].source.value else source
  }

  ghost function Reached(length: nat, acts: seq<Act>): nat {
    if acts == [] then length
    else
      var before, act := Reached(length, acts[..|acts| - 1]), acts[|acts| - 1];
      if act.Captured? && act.source.Some? then Further(before, ObservedLength(act.source.value, act.observed), act.outcome) else before
  }

  /**
   * While a transcript only grows, one file holds it, each byte once, however
   * often it is captured and wherever captures stop; and each completed
   * capture refers to that file.
   */
  lemma {:induction false} GrowingIsStoredOnce(d: Directory, base: Name, source: Bytes, length: nat, acts: seq<Act>, i: nat)
    requires Mirrors(d, base, source, length) && Growing(acts, base, source, CurrentName(d, base))
    ensures var next, name := RunFrom(d, acts), CurrentName(d, base);
            && CurrentName(next, base) == name && OneFile(d, next, name)
            && Mirrors(next, base, Latest(acts, source), Reached(length, acts))
    ensures i < |acts| && acts[i].Captured? && acts[i].source.Some? && acts[i].outcome.Complete? ==>
              Capture(RunFrom(d, acts[..i]), base, acts[i].source, acts[i].observed, acts[i].generation, Complete).1
              == Ok(Reference(CurrentName(d, base), ObservedLength(acts[i].source.value, acts[i].observed)))
  {
    hide Mirrors, Capture, Further, Through;
    if acts != [] {
      var rest, act := acts[..|acts| - 1], acts[|acts| - 1];
      GrowingIsStoredOnce(d, base, source, length, rest, i);
      assert i < |rest| ==> rest[..i] == acts[..i];
      GrowingStep(RunFrom(d, rest), base, Latest(rest, source), Reached(length, rest), act.source.value, act.observed, act.generation, act.outcome);
    }
  }

  // --- Captures that follow a transcript in one file ---------------------------------------

  /** The file and the offset after a plain capture. */
  function Follow(mirror: Bytes, source: Bytes): (Bytes, nat) {
    var restart := |source| < |mirror|;
    var from := if restart then 0 else |mirror|;
    if from >= |source| then (mirror, |mirror|)
    else ((if restart then [] else mirror) + source[from..], |source|)
  }

  /** What is missing at the end is appended; a shorter transcript replaces the file, unless it is empty. */
  lemma FollowCases(mirror: Bytes, source: Bytes)
    ensures |source| >= |mirror| ==> Follow(mirror, source) == (mirror + source[|mirror|..], |source|)
    ensures 0 < |source| < |mirror| ==> Follow(mirror, source) == (source, |source|)
    ensures source == [] ==> Follow(mirror, source) == (mirror, |mirror|)
  {
    if |source| == |mirror| {
      assert mirror + source[|mirror|..] == mirror;
    }
    assert [] + source[0..] == source;
  }

  /** A plain capture stands for the transcript exactly when that was appended to, or replaced by a shorter one that is not empty. */
  lemma FollowHoldsExactly(mirror: Bytes, source: Bytes)
    ensures var (next, through) := Follow(mirror, source);
            next[..through] == source <==> mirror <= source || 0 < |source| < |mirror|
  {
    var (next, through) := Follow(mirror, source);
    assert next[..|next|] == next;
    if |source| >= |mirror| {
      assert source == source[..|mirror|] + source[|mirror|..];
      if next == source && |source| > |mirror| {
        assert next[..|mirror|] == mirror;
      }
    }
  }

  /** It keeps what earlier events refer to exactly when it does not start over. */
  lemma FollowKeepsExactly(mirror: Bytes, source: Bytes)
    ensures mirror <= Follow(mirror, source).0 <==> |source| >= |mirror| || source == []
  {}

  // --- In place -----------------------------------------------------------------------

  const BUFFER := 16 * 1024

  class MirrorStore {
    var directory: Directory

    constructor ()
      ensures directory == EMPTY
    {
      directory := EMPTY;
    }

    /** Compare the mirrored prefix with the transcript, one buffer at a time. */
    method PrefixChanged(mirror: Bytes, source: Bytes, length: nat) returns (changed: bool)
      requires length <= |mirror| && length <= |source|
      ensures changed <==> mirror[..length] != source[..length]
    {
      changed := false;
      var remaining := length;
      while remaining > 0
        invariant 0 <= remaining <= length && !changed
        invariant mirror[..length - remaining] == source[..length - remaining]
      {
        var at, size := length - remaining, Least(remaining, BUFFER);
        var sourceBuffer, mirrorBuffer := source[at..at + size], mirror[at..at + size];
        if sourceBuffer != mirrorBuffer {
          assert mirror[..length][at..at + size] == mirrorBuffer && source[..length][at..at + size] == sourceBuffer;
          changed := true;
          break;
        }
        assert mirror[..at + size] == mirror[..at] + mirrorBuffer && source[..at + size] == source[..at] + sourceBuffer;
        remaining := remaining - size;
      }
    }

    method CaptureGeneration(base: Name, source: Option<Bytes>, observed: Option<nat>, generation: Name, outcome: Outcome)
      returns (r: Result<Reference>)
      requires generation !in directory.files
      modifies this
      ensures (directory, r) == Capture(old(directory), base, source, observed, generation, outcome)
    {
      var path := CurrentName(directory, base);
      if source.None? {
        return Err("missing transcript");
      }
      var input := source.value;
      var through := if observed.Some? then Least(observed.value, |input|) else |input|;
      var mirrored := |Contents(directory, path)|;
      var changed := |input| < mirrored;
      if !changed && mirrored > 0 {
        changed := PrefixChanged(Contents(directory, path), input, Least(mirrored, through));
      }
      var from := 0;
      if changed {
        path := generation;
      } else {
        from := Least(mirrored, through);
      }
      r := CopyInto(base, path, input, from, through, outcome);
    }

    method CopyInto(base: Name, path: Name, input: Bytes, from: nat, through: nat, outcome: Outcome) returns (r: Result<Reference>)
      requires from <= through <= |input|
      modifies this
      ensures (directory, r) == Copied(old(directory), base, path, input, from, through, outcome)
    {
      var mirror := Contents(directory, path);
      if outcome.TornCopy? {
        var copied := input[from..from + Least(outcome.bytes, through - from)];
        directory := directory.(files := directory.files[path := mirror + copied]);
        return Err("torn");
      }
      var copied := input[from..through];
      directory := directory.(files := directory.files[path := mirror + copied]);
      if outcome.TornPointer? {
        directory := directory.(current := SetPointer(directory.current, base, outcome.left));
        return Err("torn");
      }
      directory := directory.(current := directory.current[base := path]);
      return Ok(Reference(path, from + |copied|));
    }

    /** `capture`: one file for the transcript, started over when the transcript is shorter. */
    method CaptureFollowing(base: Name, source: Option<Bytes>) returns (r: Result<Reference>)
      modifies this
      ensures source.None? ==> r.Err? && directory == old(directory)
      ensures source.Some? ==>
                var (next, through) := Follow(Contents(old(directory), base), source.value);
                r == Ok(Reference(base, through)) && Contents(directory, base) == next
      ensures directory.current == old(directory).current
      ensures forall name :: name != base ==> Contents(directory, name) == Contents(old(directory), name)
    {
      if source.None? {
        return Err("missing transcript");
      }
      var mirror, input := Contents(directory, base), source.value;
      var restart := |input| < |mirror|;
      var from := if restart then 0 else |mirror|;
      if from >= |input| {
        return Ok(Reference(base, |mirror|));
      }
      if restart {
        mirror := [];
      }
      var copied := input[from..];
      directory := directory.(files := directory.files[base := mirror + copied]);
      return Ok(Reference(base, from + |copied|));
    }
  }
}
