/** Framing of the wire: bytes arrive in chunks of any size, lines come out. */
module Wire {
  import opened Text

  newtype byte = x: int | 0 <= x < 0x100

  type Bytes = seq<byte>

  const Newline: byte := 0x0A

  // ------------------------------------------------------------- white space

  /** The length of the white-space character, in UTF-8, that `s` starts with. */
  function SpaceWidth(s: Bytes): (n: nat)
    ensures n <= |s|
  {
    if |s| >= 1 && (0x09 <= s[0] <= 0x0D || s[0] == 0x20) then 1
    else if |s| >= 2 && s[0] == 0xC2 && (s[1] == 0x85 || s[1] == 0xA0) then 2
    else if |s| >= 3 && WideSpace(s[0], s[1], s[2]) then 3
    else 0
  }

  predicate WideSpace(a: byte, b: byte, c: byte) {
    || (a == 0xE1 && b == 0x9A && c == 0x80)
    || (a == 0xE2 && b == 0x80 && (0x80 <= c <= 0x8A || c == 0xA8 || c == 0xA9 || c == 0xAF))
    || (a == 0xE2 && b == 0x81 && c == 0x9F)
    || (a == 0xE3 && b == 0x80 && c == 0x80)
  }

  /** The length of the white-space character that `s` ends with. */
  function LastSpaceWidth(s: Bytes): (n: nat)
    ensures n <= |s|
  {
    if |s| >= 1 && SpaceWidth(s[|s| - 1..]) == 1 then 1
    else if |s| >= 2 && SpaceWidth(s[|s| - 2..]) == 2 then 2
    else if |s| >= 3 && SpaceWidth(s[|s| - 3..]) == 3 then 3
    else 0
  }

  function TrimLeft(s: Bytes): Bytes
    decreases |s|
  {
    if SpaceWidth(s) > 0 then TrimLeft(s[SpaceWidth(s)..]) else s
  }

  function TrimRight(s: Bytes): Bytes
    decreases |s|
  {
    if LastSpaceWidth(s) > 0 then TrimRight(s[..|s| - LastSpaceWidth(s)]) else s
  }

  function TrimSpace(s: Bytes): Bytes {
    TrimRight(TrimLeft(s))
  }

  /** A run of white-space characters. */
  predicate AllSpace(s: Bytes)
    decreases |s|
  {
    s == [] || (SpaceWidth(s) > 0 && AllSpace(s[SpaceWidth(s)..]))
  }

  /** A prefix starts with the white space the whole starts with, if it starts with any. */
  lemma SpaceAhead(c: Bytes, rest: Bytes)
    requires SpaceWidth(c) > 0
    ensures SpaceWidth(c + rest) == SpaceWidth(c)
  {
  }

  lemma AllSpaceCons(c: Bytes, rest: Bytes)
    requires SpaceWidth(c) == |c| > 0 && AllSpace(rest)
    ensures AllSpace(c + rest)
  {
    SpaceAhead(c, rest);
    assert (c + rest)[|c|..] == rest;
  }

  lemma FirstSpace(s: Bytes)
    requires SpaceWidth(s) > 0
    ensures SpaceWidth(s[..SpaceWidth(s)]) == SpaceWidth(s)
  {
  }

  lemma {:induction false} TrimLeftSplits(s: Bytes) returns (front: Bytes, kept: Bytes)
    ensures s == front + kept && kept == TrimLeft(s) && AllSpace(front) && SpaceWidth(kept) == 0
    decreases |s|
  {
    var n := SpaceWidth(s);
    if n == 0 {
      front, kept := [], s;
    } else {
      var rest;
      rest, kept := TrimLeftSplits(s[n..]);
      front := Prepend(s, n, rest, kept);
    }
  }

  lemma Prepend(s: Bytes, n: nat, rest: Bytes, kept: Bytes) returns (front: Bytes)
    requires n == SpaceWidth(s) > 0 && s[n..] == rest + kept && AllSpace(rest)
    ensures s == front + kept && AllSpace(front)
  {
    FirstSpace(s);
    AllSpaceCons(s[..n], rest);
    front := s[..n] + rest;
    assert s == s[..n] + s[n..];
    Assoc(s[..n], rest, kept);
  }

  lemma {:induction false} TrimRightSplits(s: Bytes, back: Bytes) returns (all: Bytes)
    requires AllSpace(back)
    ensures s + back == TrimRight(s) + all && AllSpace(all) && LastSpaceWidth(TrimRight(s)) == 0
    decreases |s|
  {
    if LastSpaceWidth(s) == 0 {
      all := back;
    } else {
      var t, c := LastSpace(s);
      AllSpaceCons(c, back);
      Assoc(t, c, back);
      all := TrimRightSplits(t, c + back);
    }
  }

  lemma LastSpace(s: Bytes) returns (t: Bytes, c: Bytes)
    requires LastSpaceWidth(s) > 0
    ensures s == t + c && SpaceWidth(c) == |c| > 0 && TrimRight(s) == TrimRight(t)
  {
    var n := |s| - LastSpaceWidth(s);
    t, c := s[..n], s[n..];
  }

  lemma NoSpaceAhead(core: Bytes, back: Bytes)
    requires SpaceWidth(core + back) == 0
    ensures SpaceWidth(core) == 0
  {
    if SpaceWidth(core) > 0 { SpaceAhead(core, back); }
  }

  /** Trimming removes white-space characters at both ends, and all of them. */
  lemma {:induction false} TrimSpaceSplits(s: Bytes) returns (front: Bytes, back: Bytes)
    ensures s == front + TrimSpace(s) + back && AllSpace(front) && AllSpace(back)
    ensures SpaceWidth(TrimSpace(s)) == 0 && LastSpaceWidth(TrimSpace(s)) == 0
  {
    var left;
    front, left := TrimLeftSplits(s);
    back := SplitTail(left);
    Assoc(front, TrimSpace(s), back);
  }

  lemma SplitTail(left: Bytes) returns (back: Bytes)
    requires SpaceWidth(left) == 0
    ensures left == TrimRight(left) + back && AllSpace(back)
    ensures SpaceWidth(TrimRight(left)) == 0 && LastSpaceWidth(TrimRight(left)) == 0
  {
    back := TrimRightSplits(left, []);
    assert left + [] == left;
    NoSpaceAhead(TrimRight(left), back);
  }

  // ------------------------------------------------------------------- lines

  /** The position of the first newline. */
  function NewlineAt(s: Bytes): (i: Option<nat>)
    ensures i.Some? ==> i.value < |s| && s[i.value] == Newline && Newline !in s[..i.value]
    ensures i.None? ==> Newline !in s
  {
    if s == [] then None
    else if s[0] == Newline then Some(0)
    else
      var rest := NewlineAt(s[1..]);
      if rest.Some? then
        assert s[..rest.value + 1] == [s[0]] + s[1..][..rest.value];
        Some(rest.value + 1)
      else
        assert s == [s[0]] + s[1..];
        None
  }

  /** The newline-terminated lines of a stream. */
  function Lines(s: Bytes): seq<Bytes>
    decreases |s|
  {
    match NewlineAt(s)
    case None => []
    case Some(i) => [s[..i]] + Lines(s[i + 1..])
  }

  /** What follows the last newline. */
  function Tail(s: Bytes): Bytes
    decreases |s|
  {
    match NewlineAt(s)
    case None => s
    case Some(i) => Tail(s[i + 1..])
  }

  /** A line as it is passed on: trimmed, unless nothing is left of it. */
  function Kept(line: Bytes): seq<Bytes> {
    if TrimSpace(line) == [] then [] else [TrimSpace(line)]
  }

  function Gather(keep: Bytes -> seq<Bytes>, lines: seq<Bytes>): seq<Bytes> {
    if lines == [] then [] else keep(lines[0]) + Gather(keep, lines[1..])
  }

  /** The lines that are passed on. */
  function Passed(lines: seq<Bytes>): seq<Bytes> {
    Gather(Kept, lines)
  }

  function Terminated(lines: seq<Bytes>): Bytes {
    if lines == [] then [] else lines[0] + [Newline] + Terminated(lines[1..])
  }

  /** The reference for `Lines` and `Tail`: put together again they are the stream. */
  lemma {:induction false} LinesRebuild(s: Bytes)
    ensures Terminated(Lines(s)) + Tail(s) == s
    decreases |s|
  {
    match NewlineAt(s)
    case None => assert Terminated([]) + s == s;
    case Some(i) =>
      var rest := s[i + 1..];
      LinesRebuild(rest);
      TerminatedCons(s[..i], Lines(rest));
      Assoc(s[..i] + [Newline], Terminated(Lines(rest)), Tail(rest));
      Cut(s, i);
  }

  lemma Cut(s: Bytes, i: nat)
    requires i < |s|
    ensures s == s[..i] + [s[i]] + s[i + 1..]
  {
  }

  lemma TerminatedCons(line: Bytes, lines: seq<Bytes>)
    ensures Terminated([line] + lines) == line + [Newline] + Terminated(lines)
  {
    assert ([line] + lines)[1..] == lines;
  }

  /** No newline is left inside a line or the tail. */
  lemma {:induction false} LinesHaveNoNewline(s: Bytes)
    ensures Newline !in Tail(s) && forall line :: line in Lines(s) ==> Newline !in line
    decreases |s|
  {
    match NewlineAt(s)
    case None =>
    case Some(i) => LinesHaveNoNewline(s[i + 1..]);
  }

  /** That determines them: a stream has only one such decomposition. */
  lemma {:induction false} LinesUnique(lines: seq<Bytes>, tail: Bytes)
    requires Newline !in tail && forall i :: 0 <= i < |lines| ==> Newline !in lines[i]
    ensures Lines(Terminated(lines) + tail) == lines && Tail(Terminated(lines) + tail) == tail
  {
    var s := Terminated(lines) + tail;
    if lines == [] {
      assert s == tail;
    } else {
      var rest := Terminated(lines[1..]) + tail;
      Assoc(lines[0] + [Newline], Terminated(lines[1..]), tail);
      FirstNewline(s, lines[0], rest);
      CutLine(lines[0], rest);
      LinesUnique(lines[1..], tail);
    }
  }

  lemma CutLine(line: Bytes, rest: Bytes)
    ensures var s := line + [Newline] + rest; s[..|line|] == line && s[|line| + 1..] == rest
  {
  }

  lemma {:induction false} FirstNewline(s: Bytes, line: Bytes, rest: Bytes)
    requires s == line + [Newline] + rest && Newline !in line
    ensures NewlineAt(s) == Some(|line|)
  {
    if line == [] {
      assert s[0] == Newline;
    } else {
      assert s[0] == line[0] && line == [line[0]] + line[1..];
      FirstNewline(s[1..], line[1..], rest);
    }
  }

  // ------------------------------------------------- chunking independence

  /** Reading more of a stream adds the lines completed by what was read. */
  lemma {:induction false} LinesContinue(s: Bytes, t: Bytes)
    ensures Lines(s + t) == Lines(s) + Lines(Tail(s) + t)
    ensures Tail(s + t) == Tail(Tail(s) + t)
    decreases |s|
  {
    match NewlineAt(s)
    case None =>
    case Some(i) =>
      var rest := s[i + 1..];
      CutAppend(s, t, i);
      FirstNewline(s + t, s[..i], rest + t);
      FirstLine(s, i);
      FirstLine(s + t, i);
      LinesContinue(rest, t);
      Assoc([s[..i]], Lines(rest), Lines(Tail(rest) + t));
  }

  lemma FirstLine(s: Bytes, i: nat)
    requires NewlineAt(s) == Some(i)
    ensures Lines(s) == [s[..i]] + Lines(s[i + 1..]) && Tail(s) == Tail(s[i + 1..])
  {
  }

  lemma CutAppend(s: Bytes, t: Bytes, i: nat)
    requires i < |s|
    ensures s + t == s[..i] + [s[i]] + (s[i + 1..] + t)
    ensures (s + t)[..i] == s[..i] && (s + t)[i + 1..] == s[i + 1..] + t
  {
  }

  lemma {:induction false} GatherAppend(keep: Bytes -> seq<Bytes>, a: seq<Bytes>, b: seq<Bytes>)
    ensures Gather(keep, a + b) == Gather(keep, a) + Gather(keep, b)
  {
    if a == [] {
      assert a + b == b;
    } else {
      GatherAppend(keep, a[1..], b);
      assert (a + b)[0] == a[0] && (a + b)[1..] == a[1..] + b;
      Assoc(keep(a[0]), Gather(keep, a[1..]), Gather(keep, b));
    }
  }

  class WireBuffer {
    var buf: Bytes
    ghost var passed: seq<Bytes>  // every line passed on so far
    ghost var stream: Bytes       // every byte received so far

    /** Main result, kept by every method: however the stream was cut into chunks, the
        lines passed on are the trimmed nonempty lines of the whole stream, in order,
        and the buffer holds what follows its last newline. */
    ghost predicate Valid()
      reads this
    {
      buf == Tail(stream) && passed == Passed(Lines(stream))
    }

    constructor ()
      ensures Valid() && stream == []
    {
      buf, passed, stream := [], [], [];
    }

    method IndexNewline() returns (i: Option<nat>)
      ensures i == NewlineAt(buf)
    {
      for n := 0 to |buf|
        invariant Newline !in buf[..n]
      {
        if buf[n] == Newline {
          FirstNewline(buf, buf[..n], buf[n + 1..]);
          return Some(n);
        }
      }
      assert buf[..|buf|] == buf;
      return None;
    }

    /** Takes one chunk: passes on the lines it completes and keeps the rest. */
    method Append(chunk: Bytes)
      requires Valid()
      modifies this
      ensures Valid() && stream == old(stream) + chunk
    {
      PassedContinue(stream, chunk);
      stream := stream + chunk;
      buf := buf + chunk;
      PassLines();
    }

    method PassLines()
      modifies this`buf, this`passed
      ensures buf == Tail(old(buf)) && passed == old(passed) + Passed(Lines(old(buf)))
    {
      while true
        invariant Tail(buf) == Tail(old(buf))
        invariant passed + Passed(Lines(buf)) == old(passed) + Passed(Lines(old(buf)))
        decreases |buf|
      {
        var i := IndexNewline();
        if i.None? {
          return;
        }
        PassOn(i.value);
      }
    }

    /** Cuts off the first line and passes on what trimming leaves of it. */
    method PassOn(i: nat)
      requires NewlineAt(buf) == Some(i)
      modifies this`buf, this`passed
      ensures buf == old(buf)[i + 1..]
      ensures Tail(buf) == Tail(old(buf)) && passed + Passed(Lines(buf)) == old(passed) + Passed(Lines(old(buf)))
    {
      PassedOne(passed, buf, i);
      Emit(buf[..i]);
      buf := buf[i + 1..];
    }

    method Emit(line: Bytes)
      modifies this`passed
      ensures passed == old(passed) + Kept(line)
    {
      var trimmed := TrimSpace(line);
      if trimmed != [] {
        passed := passed + [trimmed];
      }
    }

    method AppendAll(chunks: seq<Bytes>)
      requires Valid()
      modifies this
      ensures Valid() && stream == old(stream) + Concat(chunks)
    {
      assert stream + Concat(chunks[..0]) == stream;
      for n := 0 to |chunks|
        invariant Valid() && stream == old(stream) + Concat(chunks[..n])
      {
        ConcatNext(old(stream), chunks, n);
        Append(chunks[n]);
      }
      assert chunks[..|chunks|] == chunks;
    }
  }

  lemma FirstPassed(s: Bytes, i: nat)
    requires NewlineAt(s) == Some(i)
    ensures Passed(Lines(s)) == Kept(s[..i]) + Passed(Lines(s[i + 1..]))
  {
    GatherFirst(Kept, s, i);
  }

  lemma PassedOne(before: seq<Bytes>, s: Bytes, i: nat)
    requires NewlineAt(s) == Some(i)
    ensures Tail(s[i + 1..]) == Tail(s)
    ensures before + Kept(s[..i]) + Passed(Lines(s[i + 1..])) == before + Passed(Lines(s))
  {
    FirstLine(s, i);
    FirstPassed(s, i);
    Assoc(before, Kept(s[..i]), Passed(Lines(s[i + 1..])));
  }

  lemma GatherFirst(keep: Bytes -> seq<Bytes>, s: Bytes, i: nat)
    requires NewlineAt(s) == Some(i)
    ensures Gather(keep, Lines(s)) == keep(s[..i]) + Gather(keep, Lines(s[i + 1..]))
  {
    FirstLine(s, i);
    assert Lines(s)[1..] == Lines(s[i + 1..]);
  }

  /** What is passed on: of several streams of lines each on its own, and of one line what
      trimming leaves, unless it is all white space. */
  lemma PassedExactly(a: seq<Bytes>, b: seq<Bytes>, line: Bytes)
    ensures Passed(a + b) == Passed(a) + Passed(b)
    ensures Passed([line]) == if AllSpace(line) then [] else [TrimSpace(line)]
  {
    GatherAppend(Kept, a, b);
    BlankLine(line);
    GatherOne(Kept, line);
  }

  lemma GatherOne(keep: Bytes -> seq<Bytes>, line: Bytes)
    ensures Gather(keep, [line]) == keep(line)
  {
    assert Gather(keep, [line]) == keep(line) + Gather(keep, []);
  }

  /** Nothing is left of a line exactly when it is all white space. */
  lemma BlankLine(line: Bytes)
    ensures TrimSpace(line) == [] <==> AllSpace(line)
  {
    if AllSpace(line) {
      TrimAllSpace(line);
    }
    if TrimSpace(line) == [] {
      var front, back := TrimSpaceSplits(line);
      NothingBetween(front, back);
      SpacesJoin(front, back);
    }
  }

  lemma NothingBetween(front: Bytes, back: Bytes)
    ensures front + [] + back == front + back
  {
  }

  lemma DropAppend(a: Bytes, b: Bytes, n: nat)
    requires n <= |a|
    ensures (a + b)[n..] == a[n..] + b
  {
  }

  lemma {:induction false} TrimAllSpace(s: Bytes)
    requires AllSpace(s)
    ensures TrimLeft(s) == []
    decreases |s|
  {
    if s != [] { TrimAllSpace(s[SpaceWidth(s)..]); }
  }

  lemma {:induction false} SpacesJoin(a: Bytes, b: Bytes)
    requires AllSpace(a) && AllSpace(b)
    ensures AllSpace(a + b)
    decreases |a|
  {
    if a == [] {
      assert a + b == b;
    } else {
      var n := SpaceWidth(a);
      SpacesJoin(a[n..], b);
      SpaceAhead(a, b);
      DropAppend(a, b, n);
    }
  }

  lemma {:induction false} PassedContinue(s: Bytes, chunk: Bytes)
    ensures Tail(s + chunk) == Tail(Tail(s) + chunk)
    ensures Passed(Lines(s + chunk)) == Passed(Lines(s)) + Passed(Lines(Tail(s) + chunk))
  {
    LinesContinue(s, chunk);
    GatherAppend(Kept, Lines(s), Lines(Tail(s) + chunk));
  }

  lemma ConcatNext(start: Bytes, chunks: seq<Bytes>, n: nat)
    requires n < |chunks|
    ensures start + Concat(chunks[..n + 1]) == start + Concat(chunks[..n]) + chunks[n]
  {
    assert chunks[..n + 1][..n] == chunks[..n];
  }

  function Concat(chunks: seq<Bytes>): Bytes {
    if chunks == [] then [] else Concat(chunks[..|chunks| - 1]) + chunks[|chunks| - 1]
  }
}
