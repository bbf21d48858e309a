/** The streaming filter that drops top-level `COMMENT ON EXTENSION` statements from a plain-SQL
    dump, proved equal to a line-by-line reading of the whole input however it is chunked. */
module SqlFilter {

  import opened Prelude

  const NEWLINE: byte := 10
  const EXTENSION_COMMENT := Ascii("COMMENT ON EXTENSION ")
  const COPY_START := Ascii("COPY ")
  const COPY_HEADER_END := Ascii("FROM stdin;")
  const COPY_END := Ascii("\\.")
  const STATEMENT_END := Ascii(";")

  function Ascii(s: string): Bytes {
    seq(|s|, i requires 0 <= i < |s| => (s[i] as int % 256) as byte)
  }

  /** What `bytes.rstrip()` strips. */
  predicate IsSpace(b: byte) {
    b == 32 || 9 <= b <= 13
  }

  function RStrip(s: Bytes): Bytes {
    if s != [] && IsSpace(s[|s| - 1]) then RStrip(s[..|s| - 1]) else s
  }

  /** Only trailing whitespace goes, and all of it. */
  lemma {:induction false} RStripExactly(s: Bytes)
    ensures |RStrip(s)| <= |s| && RStrip(s) == s[..|RStrip(s)|]
    ensures forall j | |RStrip(s)| <= j < |s| :: IsSpace(s[j])
    ensures RStrip(s) != [] ==> !IsSpace(s[|RStrip(s)| - 1])
  {
    if s != [] && IsSpace(s[|s| - 1]) { RStripExactly(s[..|s| - 1]); }
  }

  /** A statement ends on the line whose last byte that is not whitespace is a semicolon. */
  lemma EndsStatementExactly(line: Bytes)
    ensures EndsStatement(line) <==> exists k :: 0 <= k < |line| && line[k] == 59 && forall j | k < j < |line| :: IsSpace(line[j])
  {
    var r := RStrip(line);
    RStripExactly(line);
    assert STATEMENT_END == [59];
    if EndsStatement(line) {
      assert r[|r| - 1..][0] == 59 && line[|r| - 1] == 59;
    }
    if k :| 0 <= k < |line| && line[k] == 59 && forall j | k < j < |line| :: IsSpace(line[j]) {
      assert k == |r| - 1;
      assert r[|r| - 1..] == [59];
    }
  }

  predicate StartsWith(s: Bytes, p: Bytes) {
    |p| <= |s| && s[..|p|] == p
  }

  predicate EndsWith(s: Bytes, p: Bytes) {
    |p| <= |s| && s[|s| - |p|..] == p
  }

  predicate EndsStatement(line: Bytes) {
    EndsWith(RStrip(line), STATEMENT_END)
  }

  predicate StartsComment(line: Bytes) {
    StartsWith(line, EXTENSION_COMMENT)
  }

  predicate IsCopyHeader(line: Bytes) {
    StartsWith(line, COPY_START) && EndsWith(RStrip(line), COPY_HEADER_END)
  }

  // ---------------------------------------------------------------- line-by-line specification

  /** Where the reader stands between two lines. */
  datatype Mode = Mode(inCopy: bool, skipping: bool)

  const TOP := Mode(false, false)

  predicate Keeps(m: Mode, line: Bytes) {
    m.inCopy || (!m.skipping && !StartsComment(line))
  }

  function Next(m: Mode, line: Bytes): Mode {
    if m.inCopy then m.(inCopy := line != COPY_END)
    else if m.skipping || StartsComment(line) then m.(skipping := !EndsStatement(line))
    else m.(inCopy := IsCopyHeader(line))
  }

  function ModeAfter(m: Mode, lines: seq<Bytes>): Mode
    decreases |lines|
  {
    if lines == [] then m else ModeAfter(Next(m, lines[0]), lines[1..])
  }

  function KeptLines(m: Mode, lines: seq<Bytes>): seq<Bytes>
    decreases |lines|
  {
    if lines == [] then [] else
    var rest := KeptLines(Next(m, lines[0]), lines[1..]);
    if Keeps(m, lines[0]) then [lines[0]] + rest else rest
  }

  function Unlines(lines: seq<Bytes>): Bytes {
    if lines == [] then [] else lines[0] + [NEWLINE] + Unlines(lines[1..])
  }

  /** The first newline, or the length when there is none. */
  function LineEnd(s: Bytes): (k: nat)
    ensures k <= |s|
  {
    if s == [] || s[0] == NEWLINE then 0 else 1 + LineEnd(s[1..])
  }

  /** The complete lines of the input, without their newlines. */
  function Lines(s: Bytes): seq<Bytes> {
    var k := LineEnd(s);
    if k == |s| then [] else [s[..k]] + Lines(s[k + 1..])
  }

  /** What follows the last newline. */
  function Tail(s: Bytes): Bytes {
    var k := LineEnd(s);
    if k == |s| then s else Tail(s[k + 1..])
  }

  /** The whole dump filtered at once. */
  function Filter(s: Bytes): Bytes {
    Unlines(KeptLines(TOP, Lines(s))) + Unfinished(ModeAfter(TOP, Lines(s)), Tail(s))
  }

  /** What becomes of a last line without a newline. */
  function Unfinished(m: Mode, tail: Bytes): Bytes {
    if tail != [] && Keeps(m, tail) then tail else []
  }

  function Flatten(chunks: seq<Bytes>): Bytes {
    if chunks == [] then [] else Flatten(chunks[..|chunks| - 1]) + chunks[|chunks| - 1]
  }

  // ---------------------------------------------------------------- splitting facts

  lemma {:induction false} LineEndFacts(s: Bytes)
    ensures var k := LineEnd(s); NEWLINE !in s[..k] && (k < |s| ==> s[k] == NEWLINE)
  {
    if s != [] && s[0] != NEWLINE {
      LineEndFacts(s[1..]);
      var k := LineEnd(s[1..]);
      assert s[..k + 1] == [s[0]] + s[1..][..k];
    }
  }

  lemma {:induction false} LineEndUnique(s: Bytes, k: nat)
    requires k <= |s| && NEWLINE !in s[..k] && (k < |s| ==> s[k] == NEWLINE)
    ensures LineEnd(s) == k
  {
    if k > 0 {
      assert s[..k] == [s[0]] + s[1..][..k - 1];
      LineEndUnique(s[1..], k - 1);
    }
  }

  lemma {:induction false} LinesOfConcat(s: Bytes, x: Bytes)
    requires NEWLINE !in x
    ensures Lines(s + x) == Lines(s) && Tail(s + x) == Tail(s) + x
  {
    LineEndFacts(s);
    var k := LineEnd(s);
    if k == |s| {
      assert (s + x)[..|s + x|] == s + x && s[..k] == s;
      LineEndUnique(s + x, |s + x|);
    } else {
      assert (s + x)[..k] == s[..k];
      LineEndUnique(s + x, k);
      assert (s + x)[k + 1..] == s[k + 1..] + x;
      LinesOfConcat(s[k + 1..], x);
    }
  }

  lemma {:induction false} LinesOfNewline(s: Bytes)
    ensures Lines(s + [NEWLINE]) == Lines(s) + [Tail(s)] && Tail(s + [NEWLINE]) == []
  {
    LineEndFacts(s);
    var k := LineEnd(s);
    var t := s + [NEWLINE];
    assert t[..k] == s[..k];
    LineEndUnique(t, k);
    if k == |s| {
      assert s[..k] == s && t[k + 1..] == [];
      assert Lines(t) == [s] + Lines([]);
    } else {
      assert t[k + 1..] == s[k + 1..] + [NEWLINE];
      LinesOfNewline(s[k + 1..]);
    }
  }

  lemma {:induction false} TailHasNoNewline(s: Bytes)
    ensures NEWLINE !in Tail(s)
  {
    LineEndFacts(s);
    var k := LineEnd(s);
    if k == |s| { assert s[..k] == s; } else { TailHasNoNewline(s[k + 1..]); }
  }

  lemma {:induction false} LinesHaveNoNewline(s: Bytes)
    ensures forall i | 0 <= i < |Lines(s)| :: NEWLINE !in Lines(s)[i]
  {
    LineEndFacts(s);
    var k := LineEnd(s);
    if k < |s| {
      LinesHaveNoNewline(s[k + 1..]);
      var rest := Lines(s[k + 1..]);
      assert Lines(s) == [s[..k]] + rest;
    }
  }

  lemma Associate<T>(a: seq<T>, b: seq<T>, c: seq<T>)
    ensures (a + b) + c == a + (b + c)
  {
  }

  lemma FirstLine(line: Bytes, rest: Bytes)
    requires NEWLINE !in line
    ensures var s := line + [NEWLINE] + rest; Lines(s) == [line] + Lines(rest) && Tail(s) == Tail(rest)
  {
    var s := line + [NEWLINE] + rest;
    LineEndUnique(s, |line|);
    assert s[..|line|] == line && s[|line| + 1..] == rest;
  }

  lemma UnlinesFirst(line: Bytes, lines: seq<Bytes>)
    ensures Unlines([line] + lines) == line + [NEWLINE] + Unlines(lines)
  {
    assert ([line] + lines)[1..] == lines;
  }

  lemma {:induction false} LinesOfUnlines(lines: seq<Bytes>, tail: Bytes)
    requires NEWLINE !in tail && forall l | l in lines :: NEWLINE !in l
    ensures Lines(Unlines(lines) + tail) == lines && Tail(Unlines(lines) + tail) == tail
  {
    if lines == [] {
      assert Unlines(lines) + tail == tail;
      LineEndUnique(tail, |tail|);
    } else {
      var line, rest := lines[0], lines[1..];
      assert lines == [line] + rest;
      LinesOfUnlines(rest, tail);
      UnlinesFirst(line, rest);
      Associate(line + [NEWLINE], Unlines(rest), tail);
      FirstLine(line, Unlines(rest) + tail);
    }
  }

  lemma {:induction false} FilterAppend(m: Mode, lines: seq<Bytes>, line: Bytes)
    ensures ModeAfter(m, lines + [line]) == Next(ModeAfter(m, lines), line)
    ensures KeptLines(m, lines + [line])
         == KeptLines(m, lines) + if Keeps(ModeAfter(m, lines), line) then [line] else []
    decreases |lines|
  {
    if lines == [] {
      assert lines + [line] == [line];
    } else {
      assert (lines + [line])[1..] == lines[1..] + [line];
      FilterAppend(Next(m, lines[0]), lines[1..], line);
    }
  }

  lemma {:induction false} FilterSplit(m: Mode, a: seq<Bytes>, b: seq<Bytes>)
    ensures ModeAfter(m, a + b) == ModeAfter(ModeAfter(m, a), b)
    ensures KeptLines(m, a + b) == KeptLines(m, a) + KeptLines(ModeAfter(m, a), b)
    decreases |a|
  {
    if a == [] {
      assert a + b == b;
    } else {
      assert (a + b)[1..] == a[1..] + b;
      FilterSplit(Next(m, a[0]), a[1..], b);
    }
  }

  lemma {:induction false} UnlinesAppend(lines: seq<Bytes>, line: Bytes)
    ensures Unlines(lines + [line]) == Unlines(lines) + line + [NEWLINE]
  {
    if lines == [] {
      assert lines + [line] == [line] && [line][1..] == [];
      assert Unlines([line]) == line + [NEWLINE] + Unlines([]);
    } else {
      assert (lines + [line])[1..] == lines[1..] + [line];
      UnlinesAppend(lines[1..], line);
    }
  }

  // ---------------------------------------------------------------- the streaming code

  /** Everything a reader has settled after consuming `read`: `written` is what it has yielded. */
  ghost predicate CaughtUp(read: Bytes, pending: Bytes, m: Mode, written: Bytes) {
    && pending == Tail(read)
    && m == ModeAfter(TOP, Lines(read))
    && written == Unlines(KeptLines(TOP, Lines(read)))
  }

  lemma CaughtUpPartial(read: Bytes, pending: Bytes, m: Mode, written: Bytes, x: Bytes)
    requires CaughtUp(read, pending, m, written) && NEWLINE !in x
    ensures CaughtUp(read + x, pending + x, m, written)
  {
    LinesOfConcat(read, x);
  }

  lemma CaughtUpLine(read: Bytes, line: Bytes, m: Mode, written: Bytes)
    requires CaughtUp(read, line, m, written)
    ensures CaughtUp(read + [NEWLINE], [], Next(m, line), if Keeps(m, line) then written + line + [NEWLINE] else written)
  {
    LinesOfNewline(read);
    FilterAppend(TOP, Lines(read), line);
    UnlinesAppend(KeptLines(TOP, Lines(read)), line);
    assert KeptLines(TOP, Lines(read)) + [] == KeptLines(TOP, Lines(read));
  }

  /** `chunk.find(b"\n", start)`. */
  method FindNewline(chunk: Bytes, start: nat) returns (at: int)
    requires start <= |chunk|
    ensures NextNewline(chunk, start, at)
  {
    at := start;
    while at < |chunk|
      invariant start <= at <= |chunk| && NEWLINE !in chunk[start..at]
    {
      if chunk[at] == NEWLINE { return; }
      at := at + 1;
    }
    at := -1;
  }

  /** The inner `keep` closure: the verdict on one line, and the flags it leaves. */
  method KeepLine(line: Bytes, inCopy: bool, skipping: bool) returns (keep: bool, inCopy': bool, skipping': bool)
    ensures keep == Keeps(Mode(inCopy, skipping), line)
    ensures Mode(inCopy', skipping') == Next(Mode(inCopy, skipping), line)
  {
    keep, inCopy', skipping' := true, inCopy, skipping;
    if inCopy {
      inCopy' := line != COPY_END;
    } else if skipping {
      skipping' := !EndsStatement(line);
      keep := false;
    } else if StartsWith(line, EXTENSION_COMMENT) {
      skipping' := !EndsStatement(line);
      keep := false;
    } else if StartsWith(line, COPY_START) && EndsWith(RStrip(line), COPY_HEADER_END) {
      inCopy' := true;
    }
  }

  /** Consuming the rest of a line and its newline settles that line. */
  lemma CaughtUpThrough(read: Bytes, pending: Bytes, m: Mode, written: Bytes, x: Bytes, read': Bytes, written': Bytes)
    requires CaughtUp(read, pending, m, written) && NEWLINE !in x && read' == read + x + [NEWLINE]
    requires written' == if Keeps(m, pending + x) then written + (pending + x) + [NEWLINE] else written
    ensures CaughtUp(read', [], Next(m, pending + x), written')
  {
    CaughtUpPartial(read, pending, m, written, x);
    CaughtUpLine(read + x, pending + x, m, written);
  }

  lemma Regroup(a: Bytes, b: Bytes, c: Bytes, d: Bytes)
    ensures (a + b) + c + d == a + (b + c + d)
  {
  }

  lemma SliceThrough(read: Bytes, chunk: Bytes, start: nat, newline: nat)
    requires start <= newline < |chunk| && chunk[newline] == NEWLINE
    ensures read + chunk[..newline + 1] == (read + chunk[..start]) + chunk[start..newline] + [NEWLINE]
  {
    assert chunk[..newline + 1] == chunk[..start] + chunk[start..newline] + [NEWLINE];
  }

  /** What is settled within a chunk, up to `start`. */
  ghost predicate Within(read: Bytes, chunk: Bytes, start: nat, pending: Bytes, m: Mode, written: Bytes, out: Bytes) {
    start <= |chunk| && CaughtUp(read + chunk[..start], pending, m, written + out) && EndsLine(out)
  }

  predicate EndsLine(out: Bytes) {
    out == [] || out[|out| - 1] == NEWLINE
  }

  /** `newline` is the first newline from `start` on, or -1. */
  ghost predicate NextNewline(chunk: Bytes, start: nat, newline: int) {
    && start <= |chunk|
    && (newline == -1 ==> NEWLINE !in chunk[start..])
    && (newline != -1 ==> start <= newline < |chunk| && chunk[newline] == NEWLINE && NEWLINE !in chunk[start..newline])
  }

  lemma WithinStep(read: Bytes, chunk: Bytes, start: nat, newline: nat, pending: Bytes, m: Mode, written: Bytes, out: Bytes)
    requires Within(read, chunk, start, pending, m, written, out) && NextNewline(chunk, start, newline)
    ensures var line := pending + chunk[start..newline];
      Within(read, chunk, newline + 1, [], Next(m, line), written, if Keeps(m, line) then out + line + [NEWLINE] else out)
  {
    var x := chunk[start..newline];
    SliceThrough(read, chunk, start, newline);
    Regroup(written, out, pending + x, [NEWLINE]);
    CaughtUpThrough(read + chunk[..start], pending, m, written + out, x, read + chunk[..newline + 1],
      if Keeps(m, pending + x) then (written + out) + (pending + x) + [NEWLINE] else written + out);
  }

  lemma WithinEnd(read: Bytes, chunk: Bytes, start: nat, pending: Bytes, m: Mode, written: Bytes, out: Bytes)
    requires Within(read, chunk, start, pending, m, written, out) && NextNewline(chunk, start, -1)
    ensures CaughtUp(read + chunk, pending + chunk[start..], m, written + out) && EndsLine(out)
  {
    CaughtUpPartial(read + chunk[..start], pending, m, written + out, chunk[start..]);
    assert chunk == chunk[..start] + chunk[start..];
    assert (read + chunk[..start]) + chunk[start..] == read + chunk;
  }

  lemma WithinStart(read: Bytes, chunk: Bytes, pending: Bytes, m: Mode, written: Bytes)
    requires CaughtUp(read, pending, m, written)
    ensures Within(read, chunk, 0, pending, m, written, [])
  {
    assert read + chunk[..0] == read && written + [] == written;
  }

  /** One chunk: complete lines are judged, the rest is carried over. */
  method FilterChunk(chunk: Bytes, pending: Bytes, inCopy: bool, skipping: bool, ghost read: Bytes, ghost written: Bytes)
    returns (out: Bytes, pending': Bytes, inCopy': bool, skipping': bool)
    requires CaughtUp(read, pending, Mode(inCopy, skipping), written)
    ensures CaughtUp(read + chunk, pending', Mode(inCopy', skipping'), written + out)
    ensures EndsLine(out)
  {
    out, pending', inCopy', skipping' := [], pending, inCopy, skipping;
    var start := 0;
    var newline := FindNewline(chunk, start);
    WithinStart(read, chunk, pending, Mode(inCopy, skipping), written);
    while newline != -1
      invariant 0 <= start && NextNewline(chunk, start, newline)
      invariant Within(read, chunk, start, pending', Mode(inCopy', skipping'), written, out)
      decreases |chunk| - start
    {
      WithinStep(read, chunk, start, newline, pending', Mode(inCopy', skipping'), written, out);
      var line := pending' + chunk[start..newline];
      pending' := [];
      var keep;
      keep, inCopy', skipping' := KeepLine(line, inCopy', skipping');
      if keep { out := out + line + [NEWLINE]; }
      start := newline + 1;
      newline := FindNewline(chunk, start);
    }
    WithinEnd(read, chunk, start, pending', Mode(inCopy', skipping'), written, out);
    pending' := pending' + chunk[start..];
  }

  ghost predicate WholeLines(chunks: seq<Bytes>) {
    forall i | 0 <= i < |chunks| :: chunks[i] != [] && chunks[i][|chunks[i]| - 1] == NEWLINE
  }

  /** The `async for` loop: everything but the unfinished last line. */
  method FilterChunks(source: seq<Bytes>) returns (yielded: seq<Bytes>, pending: Bytes, inCopy: bool, skipping: bool)
    ensures CaughtUp(Flatten(source), pending, Mode(inCopy, skipping), Flatten(yielded))
    ensures WholeLines(yielded)
  {
    yielded, pending, inCopy, skipping := [], [], false, false;
    ghost var read, written: Bytes := [], [];
    CaughtUpAtStart();
    for i := 0 to |source|
      invariant read == Flatten(source[..i]) && written == Flatten(yielded)
      invariant CaughtUp(read, pending, Mode(inCopy, skipping), written)
      invariant WholeLines(yielded)
    {
      var out;
      out, pending, inCopy, skipping := FilterChunk(source[i], pending, inCopy, skipping, read, written);
      FlattenNext(source, i);
      FlattenAppend(yielded, out);
      read, written := read + source[i], written + out;
      if out != [] { yielded := yielded + [out]; }
    }
    assert source[..|source|] == source;
  }

  /** The filter over any chunking: its concatenated output is the whole-input specification,
      no empty chunk is yielded, and every chunk but the last ends at a line boundary. */
  method SkipExtensionComments(source: seq<Bytes>) returns (yielded: seq<Bytes>)
    ensures Flatten(yielded) == Filter(Flatten(source))
    ensures forall i | 0 <= i < |yielded| :: yielded[i] != []
    ensures |yielded| > 0 ==> WholeLines(yielded[..|yielded| - 1])
  {
    var pending, inCopy, skipping;
    yielded, pending, inCopy, skipping := FilterChunks(source);
    ghost var lines := yielded;
    if pending != [] {
      var keep, _, _ := KeepLine(pending, inCopy, skipping);
      FlattenAppend(yielded, pending);
      if keep {
        yielded := yielded + [pending];
        assert yielded[..|yielded| - 1] == lines;
      }
    }
  }

  lemma FlattenNext(source: seq<Bytes>, i: nat)
    requires i < |source|
    ensures Flatten(source[..i + 1]) == Flatten(source[..i]) + source[i]
  {
    assert source[..i + 1] == source[..i] + [source[i]];
    FlattenAppend(source[..i], source[i]);
  }

  lemma CaughtUpAtStart()
    ensures CaughtUp([], [], TOP, [])
  {
    assert LineEnd([]) == 0;
  }

  lemma FlattenAppend(chunks: seq<Bytes>, chunk: Bytes)
    ensures Flatten(chunks + [chunk]) == Flatten(chunks) + chunk
  {
    assert (chunks + [chunk])[..|chunks|] == chunks;
  }

  // ---------------------------------------------------------------- what the filter means

  function WithoutSkipping(m: Mode): Mode {
    m.(skipping := false)
  }

  lemma {:induction false} KeptLinesStable(m: Mode, lines: seq<Bytes>)
    requires m.skipping ==> !m.inCopy
    ensures var kept := KeptLines(m, lines);
      && KeptLines(WithoutSkipping(m), kept) == kept
      && ModeAfter(WithoutSkipping(m), kept) == WithoutSkipping(ModeAfter(m, lines))
      && (ModeAfter(m, lines).skipping ==> !ModeAfter(m, lines).inCopy)
    decreases |lines|
  {
    if lines != [] {
      KeptLinesStable(Next(m, lines[0]), lines[1..]);
      if Keeps(m, lines[0]) {
        var kept := KeptLines(m, lines);
        assert kept[0] == lines[0] && kept[1..] == KeptLines(Next(m, lines[0]), lines[1..]);
      }
    }
  }

  lemma {:induction false} KeptLinesMember(m: Mode, lines: seq<Bytes>)
    ensures forall l | l in KeptLines(m, lines) :: l in lines
    decreases |lines|
  {
    if lines != [] { KeptLinesMember(Next(m, lines[0]), lines[1..]); }
  }

  /** Filtering twice is filtering once. */
  lemma FilterIdempotent(s: Bytes)
    ensures Filter(Filter(s)) == Filter(s)
  {
    var lines, tail := Lines(s), Tail(s);
    var m := ModeAfter(TOP, lines);
    var tail' := if tail != [] && Keeps(m, tail) then tail else [];
    var kept := KeptLines(TOP, lines);
    TailHasNoNewline(s);
    LinesHaveNoNewline(s);
    KeptLinesMember(TOP, lines);
    LinesOfUnlines(kept, tail');
    KeptLinesStable(TOP, lines);
    assert Filter(s) == Unlines(kept) + tail';
  }

  ghost predicate KeptAt(lines: seq<Bytes>, i: nat)
    requires i < |lines|
  {
    Keeps(ModeAfter(TOP, lines[..i]), lines[i])
  }

  // Top level, read off the lines themselves.

  /** A comment statement beginning on line `s` has not ended before line `i`. */
  ghost predicate CommentOpen(lines: seq<Bytes>, s: nat, i: nat)
    requires s < i <= |lines|
  {
    StartsComment(lines[s]) && forall j | s <= j < i :: !EndsStatement(lines[j])
  }

  /** The rows of a COPY whose header is line `h` have not ended before line `i`. */
  ghost predicate CopyOpen(lines: seq<Bytes>, h: nat, i: nat)
    requires h < i <= |lines|
  {
    !StartsComment(lines[h]) && IsCopyHeader(lines[h]) && forall j | h < j < i :: lines[j] != COPY_END
  }

  /** Line `i` is inside no comment and no COPY that began at top level. */
  ghost predicate AtTop(lines: seq<Bytes>, i: nat)
    requires i <= |lines|
    decreases i
  {
    forall s: nat | s < i :: AtTop(lines, s) ==> !CommentOpen(lines, s, i) && !CopyOpen(lines, s, i)
  }

  ghost predicate InsideComment(lines: seq<Bytes>, i: nat)
    requires i <= |lines|
  {
    exists s: nat | s < i :: AtTop(lines, s) && CommentOpen(lines, s, i)
  }

  ghost predicate InsideCopy(lines: seq<Bytes>, i: nat)
    requires i <= |lines|
  {
    exists h: nat | h < i :: AtTop(lines, h) && CopyOpen(lines, h, i)
  }

  lemma TopIsOutside(lines: seq<Bytes>, i: nat)
    requires i <= |lines|
    ensures AtTop(lines, i) <==> !InsideComment(lines, i) && !InsideCopy(lines, i)
  {
  }

  lemma InsideCommentNext(lines: seq<Bytes>, i: nat)
    requires i < |lines|
    ensures InsideComment(lines, i + 1) <==>
      !EndsStatement(lines[i]) && (InsideComment(lines, i) || (AtTop(lines, i) && StartsComment(lines[i])))
  {
    if InsideComment(lines, i + 1) {
      var s: nat :| s < i + 1 && AtTop(lines, s) && CommentOpen(lines, s, i + 1);
      assert s < i ==> CommentOpen(lines, s, i);
    }
    if !EndsStatement(lines[i]) {
      if InsideComment(lines, i) {
        var s: nat :| s < i && AtTop(lines, s) && CommentOpen(lines, s, i);
        assert CommentOpen(lines, s, i + 1);
      }
      assert StartsComment(lines[i]) ==> CommentOpen(lines, i, i + 1);
    }
  }

  lemma InsideCopyNext(lines: seq<Bytes>, i: nat)
    requires i < |lines|
    ensures InsideCopy(lines, i + 1) <==>
      (InsideCopy(lines, i) && lines[i] != COPY_END) || (AtTop(lines, i) && !StartsComment(lines[i]) && IsCopyHeader(lines[i]))
  {
    if InsideCopy(lines, i + 1) {
      var h: nat :| h < i + 1 && AtTop(lines, h) && CopyOpen(lines, h, i + 1);
      assert h < i ==> CopyOpen(lines, h, i);
    }
    if InsideCopy(lines, i) && lines[i] != COPY_END {
      var h: nat :| h < i && AtTop(lines, h) && CopyOpen(lines, h, i);
      assert CopyOpen(lines, h, i + 1);
    }
    assert !StartsComment(lines[i]) && IsCopyHeader(lines[i]) ==> CopyOpen(lines, i, i + 1);
  }

  /** Both flags say exactly what the lines before say: `skipping` that a comment begun at top level is
      still open, `in_copy` that a COPY begun at top level is. */
  lemma {:induction false} FlagsExactly(lines: seq<Bytes>, i: nat)
    requires i <= |lines|
    ensures var m := ModeAfter(TOP, lines[..i]);
      && (m.skipping <==> InsideComment(lines, i))
      && (m.inCopy <==> InsideCopy(lines, i))
      && (m == TOP <==> AtTop(lines, i))
      && !(m.inCopy && m.skipping)
  {
    TopIsOutside(lines, i);
    if i > 0 {
      FlagsExactly(lines, i - 1);
      ModeStep(lines, i - 1);
      InsideCommentNext(lines, i - 1);
      InsideCopyNext(lines, i - 1);
    }
  }

  /** Line `i` belongs to a comment statement that starts at top level, on line `start`. */
  ghost predicate InComment(lines: seq<Bytes>, start: nat, i: nat)
    requires i < |lines|
  {
    && start <= i && AtTop(lines, start) && StartsComment(lines[start])
    && forall j | start <= j < i :: !EndsStatement(lines[j])
  }

  ghost predicate Commented(lines: seq<Bytes>, i: nat)
    requires i < |lines|
  {
    exists s: nat :: InComment(lines, s, i)
  }

  lemma ModeStep(lines: seq<Bytes>, i: nat)
    requires i < |lines|
    ensures ModeAfter(TOP, lines[..i + 1]) == Next(ModeAfter(TOP, lines[..i]), lines[i])
  {
    assert lines[..i + 1] == lines[..i] + [lines[i]];
    FilterAppend(TOP, lines[..i], lines[i]);
  }

  /** A line is dropped exactly when it belongs to a top-level extension comment, from the line
      that opens it through the line that ends with a semicolon. */
  lemma DroppedExactly(lines: seq<Bytes>, i: nat)
    requires i < |lines|
    ensures !KeptAt(lines, i) <==> Commented(lines, i)
  {
    FlagsExactly(lines, i);
    if InsideComment(lines, i) {
      var s: nat :| s < i && AtTop(lines, s) && CommentOpen(lines, s, i);
      assert InComment(lines, s, i);
    }
    if AtTop(lines, i) && StartsComment(lines[i]) { assert InComment(lines, i, i); }
    if s: nat :| InComment(lines, s, i) {
      if s < i { assert CommentOpen(lines, s, i) && InsideComment(lines, i); }
    }
  }

  /** Before any COPY every line that starts an extension comment is dropped. */
  lemma CommentsBeforeCopyDropped(lines: seq<Bytes>, i: nat)
    requires i < |lines| && StartsComment(lines[i]) && forall h | 0 <= h < i :: !IsCopyHeader(lines[h])
    ensures !KeptAt(lines, i)
  {
    FlagsExactly(lines, i);
  }

  /** The lines outside every top-level comment. */
  ghost function Surviving(lines: seq<Bytes>, n: nat): seq<Bytes>
    requires n <= |lines|
  {
    if n == 0 then [] else
    if Commented(lines, n - 1) then Surviving(lines, n - 1) else Surviving(lines, n - 1) + [lines[n - 1]]
  }

  lemma {:induction false} KeptAreSurviving(lines: seq<Bytes>, n: nat)
    requires n <= |lines|
    ensures KeptLines(TOP, lines[..n]) == Surviving(lines, n)
  {
    if n > 0 {
      KeptAreSurviving(lines, n - 1);
      DroppedExactly(lines, n - 1);
      assert lines[..n] == lines[..n - 1] + [lines[n - 1]];
      FilterAppend(TOP, lines[..n - 1], lines[n - 1]);
    }
  }

  /** All the lines of the input, an unfinished last one included. */
  function AllLines(s: Bytes): seq<Bytes> {
    if Tail(s) == [] then Lines(s) else Lines(s) + [Tail(s)]
  }

  /** The filter's output, with no machine in sight: the lines outside every top-level extension comment,
      each with its newline if it had one. */
  lemma FilterExactly(s: Bytes)
    ensures var lines, n := AllLines(s), |Lines(s)|;
      Filter(s) == Unlines(Surviving(lines, n)) + if n < |lines| && !Commented(lines, n) then Tail(s) else []
  {
    var lines, n := AllLines(s), |Lines(s)|;
    assert lines[..n] == Lines(s);
    KeptAreSurviving(lines, n);
    if n < |lines| { DroppedExactly(lines, n); }
  }

  /** A COPY header, rows that may say anything, and the terminator. */
  ghost predicate IsCopyBlock(block: seq<Bytes>) {
    && |block| > 1 && IsCopyHeader(block[0]) && !StartsComment(block[0])
    && block[|block| - 1] == COPY_END
    && forall j | 0 < j < |block| - 1 :: block[j] != COPY_END
  }

  /** The first line of whole lines, and the rest of them. */
  lemma TakeLine(s: Bytes) returns (line: Bytes, rest: Bytes)
    requires s != [] && Tail(s) == []
    ensures NEWLINE !in line && s == line + [NEWLINE] + rest && Tail(rest) == []
  {
    var k := LineEnd(s);
    LineEndFacts(s);
    line, rest := s[..k], s[k + 1..];
  }

  lemma {:induction false} LinesConcat(a: Bytes, b: Bytes)
    requires Tail(a) == []
    ensures Lines(a + b) == Lines(a) + Lines(b) && Tail(a + b) == Tail(b)
    decreases |a|
  {
    if a == [] {
      assert a + b == b;
    } else {
      var line, rest := TakeLine(a);
      LinesConcat(rest, b);
      FirstLine(line, rest);
      FirstLine(line, rest + b);
      Associate(line + [NEWLINE], rest, b);
      Associate([line], Lines(rest), Lines(b));
    }
  }

  lemma {:induction false} UnlinesConcat(a: seq<Bytes>, b: seq<Bytes>)
    ensures Unlines(a + b) == Unlines(a) + Unlines(b)
  {
    if a == [] {
      assert a + b == b;
    } else {
      assert (a + b)[1..] == a[1..] + b;
      UnlinesConcat(a[1..], b);
    }
  }

  lemma {:induction false} UnlinesOfLines(s: Bytes)
    requires Tail(s) == []
    ensures Unlines(Lines(s)) == s
    decreases |s|
  {
    if s != [] {
      var line, rest := TakeLine(s);
      UnlinesOfLines(rest);
      FirstLine(line, rest);
      UnlinesFirst(line, Lines(rest));
    }
  }

  lemma FilterWhole(s: Bytes)
    requires Tail(s) == []
    ensures Filter(s) == Unlines(KeptLines(TOP, Lines(s)))
  {
  }

  lemma EndsAtTop(lines: seq<Bytes>)
    ensures AtTop(lines, |lines|) <==> ModeAfter(TOP, lines) == TOP
  {
    FlagsExactly(lines, |lines|);
    assert lines[..|lines|] == lines;
  }

  /** Whole lines that end back at top level are filtered apart from what follows them. */
  lemma FilterFrom(a: Bytes, b: Bytes)
    requires Tail(a) == [] && AtTop(Lines(a), |Lines(a)|)
    ensures Filter(a + b) == Filter(a) + Filter(b)
  {
    EndsAtTop(Lines(a));
    LinesConcat(a, b);
    FilterSplit(TOP, Lines(a), Lines(b));
    FilterWhole(a);
    UnlinesConcat(KeptLines(TOP, Lines(a)), KeptLines(TOP, Lines(b)));
    Associate(Unlines(KeptLines(TOP, Lines(a))), Unlines(KeptLines(TOP, Lines(b))), Unfinished(ModeAfter(TOP, Lines(b)), Tail(b)));
  }

  /** A COPY block anywhere at top level passes byte for byte, whatever its rows say, and what follows it
      is filtered as if it stood alone. */
  lemma CopyBlockPasses(before: Bytes, block: Bytes, after: Bytes)
    requires Tail(before) == [] && AtTop(Lines(before), |Lines(before)|)
    requires Tail(block) == [] && IsCopyBlock(Lines(block))
    ensures Filter(before + block + after) == Filter(before) + block + Filter(after)
  {
    BlockUnchanged(block);
    FilterFrom(block, after);
    FilterFrom(before, block + after);
    Associate(before, block, after);
    Associate(Filter(before), block, Filter(after));
  }

  lemma BlockUnchanged(block: Bytes)
    requires Tail(block) == [] && IsCopyBlock(Lines(block))
    ensures Filter(block) == block && AtTop(Lines(block), |Lines(block)|)
  {
    BlockPasses(Lines(block));
    EndsAtTop(Lines(block));
    UnlinesOfLines(block);
    FilterWhole(block);
  }

  lemma BlockPasses(block: seq<Bytes>)
    requires IsCopyBlock(block)
    ensures KeptLines(TOP, block) == block && ModeAfter(TOP, block) == TOP
  {
    assert block == [block[0]] + block[1..];
    RowsPass(block[1..]);
  }

  lemma {:induction false} RowsPass(rows: seq<Bytes>)
    requires rows != [] && rows[|rows| - 1] == COPY_END
    requires forall j | 0 <= j < |rows| - 1 :: rows[j] != COPY_END
    ensures KeptLines(Mode(true, false), rows) == rows
    ensures ModeAfter(Mode(true, false), rows) == TOP
  {
    assert rows == [rows[0]] + rows[1..];
    if |rows| > 1 { RowsPass(rows[1..]); }
  }
}
