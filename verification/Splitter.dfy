/** Splitting long text into chunks under a limit: at blank lines first, then at newlines, and inside
    a line only when the line alone is too long. */
module Splitter {

  lemma Regroup<T>(a: seq<T>, b: seq<T>, c: seq<T>)
    ensures a + (b + c) == (a + b) + c
  {
  }

  // ---------------------------------------------------------------- str.split

  /** The first place at or after `i` where the separator is, or -1. */
  function FindFrom(text: string, sep: string, i: nat): int
    decreases |text| - i
  {
    if i + |sep| > |text| || i == |text| then -1 else if text[i..i + |sep|] == sep then i else FindFrom(text, sep, i + 1)
  }

  lemma {:induction false} FindIsThere(text: string, sep: string, i: nat)
    ensures var r := FindFrom(text, sep, i); r >= 0 ==> i <= r && r + |sep| <= |text| && text[r..r + |sep|] == sep
    decreases |text| - i
  {
    if i < |text| { FindIsThere(text, sep, i + 1); }
  }

  lemma CutAround(text: string, sep: string, i: nat)
    requires i + |sep| <= |text| && text[i..i + |sep|] == sep
    ensures text == text[..i] + sep + text[i + |sep|..]
  {
  }

  lemma {:induction false} FindIsFirst(text: string, sep: string, i: nat, k: nat)
    requires i <= k && k + |sep| <= |text| && k < |text|
    requires var r := FindFrom(text, sep, i); r < 0 || k < r
    ensures text[k..k + |sep|] != sep
    decreases |text| - i
  {
    if i < k { FindIsFirst(text, sep, i + 1, k); }
  }

  /** Where the part that `i` is in ends: at the next separator, or with the text. */
  function EndFrom(text: string, sep: string, i: nat): (e: nat)
    requires sep != "" && i <= |text|
    ensures i <= e <= |text| && (e < |text| ==> e + |sep| <= |text|)
  {
    FindIsThere(text, sep, i);
    var r := FindFrom(text, sep, i);
    if r < 0 then |text| else r
  }

  lemma SeparatorAtEnd(text: string, sep: string, i: nat)
    requires sep != "" && i <= |text|
    ensures var e := EndFrom(text, sep, i); e < |text| ==> e + |sep| <= |text| && text[e..e + |sep|] == sep
  {
    FindIsThere(text, sep, i);
  }

  /** The parts of the text from `i` on. */
  function SplitFrom(text: string, sep: string, i: nat): (parts: seq<string>)
    requires sep != "" && i <= |text|
    ensures parts != []
    decreases |text| - i
  {
    var e := EndFrom(text, sep, i);
    if e == |text| then [text[i..]] else [text[i..e]] + SplitFrom(text, sep, e + |sep|)
  }

  function Split(text: string, sep: string): seq<string>
    requires sep != ""
  {
    SplitFrom(text, sep, 0)
  }

  function Join(parts: seq<string>, sep: string): string
    requires parts != []
  {
    if |parts| == 1 then parts[0] else parts[0] + sep + Join(parts[1..], sep)
  }

  lemma {:induction false} JoinSplitFrom(text: string, sep: string, i: nat)
    requires sep != "" && i <= |text|
    ensures Join(SplitFrom(text, sep, i), sep) == text[i..]
    decreases |text| - i
  {
    var e := EndFrom(text, sep, i);
    if e < |text| {
      var rest := SplitFrom(text, sep, e + |sep|);
      JoinSplitFrom(text, sep, e + |sep|);
      assert ([text[i..e]] + rest)[1..] == rest;
      SeparatorAtEnd(text, sep, i);
      CutBetween(text, sep, i, e);
    }
  }

  lemma CutBetween(text: string, sep: string, i: nat, e: nat)
    requires i <= e && e + |sep| <= |text| && text[e..e + |sep|] == sep
    ensures text[i..] == text[i..e] + sep + text[e + |sep|..]
  {
  }

  /** Splitting loses nothing. */
  lemma JoinSplit(text: string, sep: string)
    requires sep != ""
    ensures Split(text, sep) != [] && Join(Split(text, sep), sep) == text
  {
    JoinSplitFrom(text, sep, 0);
    assert text[0..] == text;
  }

  lemma NoneBeforeEnd(text: string, c: char, i: nat)
    requires i <= |text|
    ensures c !in text[i..EndFrom(text, [c], i)]
  {
    forall k | i <= k < EndFrom(text, [c], i) ensures text[k] != c {
      FindIsFirst(text, [c], i, k);
      assert text[k..k + 1] == [text[k]];
    }
  }

  lemma {:induction false} SplitHasNone(text: string, c: char, i: nat)
    requires i <= |text|
    ensures forall k | 0 <= k < |SplitFrom(text, [c], i)| :: c !in SplitFrom(text, [c], i)[k]
    decreases |text| - i
  {
    NoneBeforeEnd(text, c, i);
    var e := EndFrom(text, [c], i);
    if e < |text| {
      SplitHasNone(text, c, e + 1);
    } else {
      assert text[i..] == text[i..e];
    }
  }

  // ---------------------------------------------------------------- lines and their pieces

  const NL: string := "\n"

  function FirstNewline(s: string): nat {
    if s == "" || s[0] == '\n' then 0 else 1 + FirstNewline(s[1..])
  }

  lemma {:induction false} FirstNewlineFacts(s: string)
    ensures FirstNewline(s) <= |s| && '\n' !in s[..FirstNewline(s)]
    ensures FirstNewline(s) < |s| ==> s[FirstNewline(s)] == '\n'
  {
    if s != "" && s[0] != '\n' {
      FirstNewlineFacts(s[1..]);
      assert s[..FirstNewline(s)] == [s[0]] + s[1..][..FirstNewline(s) - 1];
    }
  }

  lemma {:induction false} FirstNewlineIs(a: string, b: string)
    requires '\n' !in a && (b == "" || b[0] == '\n')
    ensures FirstNewline(a + b) == |a|
  {
    if a == "" {
      assert a + b == b;
    } else {
      FirstNewlineIs(a[1..], b);
      assert (a + b)[1..] == a[1..] + b;
    }
  }

  /** A line cut every `max` characters; an empty line is no piece at all. */
  function Pieces(line: string, max: nat): seq<string>
    requires max > 0
    decreases |line|
  {
    if line == "" then [] else if |line| <= max then [line] else [line[..max]] + Pieces(line[max..], max)
  }

  /** The pieces of all the lines of a text, in order. */
  function Broken(text: string, max: nat): seq<string>
    requires max > 0
    decreases |text|
  {
    FirstNewlineFacts(text);
    var i := FirstNewline(text);
    if i == |text| then Pieces(text, max) else Pieces(text[..i], max) + Broken(text[i + 1..], max)
  }

  lemma BrokenLine(line: string, max: nat)
    requires max > 0 && '\n' !in line
    ensures Broken(line, max) == Pieces(line, max)
  {
    FirstNewlineIs(line, "");
    assert line + "" == line;
  }

  lemma BrokenFirst(line: string, rest: string, max: nat)
    requires max > 0 && '\n' !in line
    ensures Broken(line + NL + rest, max) == Pieces(line, max) + Broken(rest, max)
  {
    var text := line + NL + rest;
    assert text == line + (NL + rest);
    FirstNewlineIs(line, NL + rest);
    assert text[..|line|] == line && text[|line| + 1..] == rest;
  }

  /** Pieces never reach across a newline. */
  lemma {:induction false} BrokenAtNewline(a: string, b: string, max: nat)
    requires max > 0
    ensures Broken(a + NL + b, max) == Broken(a, max) + Broken(b, max)
    decreases |a|
  {
    FirstNewlineFacts(a);
    var i := FirstNewline(a);
    if i == |a| {
      assert a[..i] == a;
      BrokenLine(a, max);
      BrokenFirst(a, b, max);
    } else {
      var line, rest := a[..i], a[i + 1..];
      CutAround(a, NL, i);
      BrokenAtNewline(rest, b, max);
      BrokenFirst(line, rest, max);
      BrokenFirst(line, rest + NL + b, max);
      Glue(line, rest, b);
      Regroup(Pieces(line, max), Broken(rest, max), Broken(b, max));
    }
  }

  lemma Glue(a: string, b: string, c: string)
    ensures (a + NL + b) + NL + c == a + NL + (b + NL + c)
  {
  }

  predicate Separator(sep: string) {
    sep == NL || sep == NL + NL
  }

  lemma BrokenAt(a: string, sep: string, b: string, max: nat)
    requires max > 0 && Separator(sep)
    ensures Broken(a + sep + b, max) == Broken(a, max) + Broken(b, max)
  {
    if sep == NL {
      BrokenAtNewline(a, b, max);
    } else {
      assert a + sep + b == a + NL + ("" + NL + b);
      BrokenAtNewline(a, "" + NL + b, max);
      BrokenAtNewline("", b, max);
      assert Broken("", max) == [];
    }
  }

  function AllBroken(texts: seq<string>, max: nat): seq<string>
    requires max > 0
  {
    if texts == [] then [] else AllBroken(texts[..|texts| - 1], max) + Broken(texts[|texts| - 1], max)
  }

  lemma AllBrokenAppend(texts: seq<string>, text: string, max: nat)
    requires max > 0
    ensures AllBroken(texts + [text], max) == AllBroken(texts, max) + Broken(text, max)
  {
    assert (texts + [text])[..|texts|] == texts;
  }

  lemma {:induction false} AllBrokenConcat(s: seq<string>, t: seq<string>, max: nat)
    requires max > 0
    ensures AllBroken(s + t, max) == AllBroken(s, max) + AllBroken(t, max)
  {
    if t == [] {
      assert s + t == s;
    } else {
      var init, last := t[..|t| - 1], t[|t| - 1];
      AllBrokenConcat(s, init, max);
      assert s + t == (s + init) + [last] && t == init + [last];
      AllBrokenAppend(s + init, last, max);
      AllBrokenAppend(init, last, max);
      Regroup(AllBroken(s, max), AllBroken(init, max), Broken(last, max));
    }
  }

  lemma AllBrokenOne(text: string, max: nat)
    requires max > 0
    ensures AllBroken([text], max) == Broken(text, max)
  {
    assert [text][..0] == [];
  }

  lemma {:induction false} SplitKeepsPieces(text: string, sep: string, i: nat, max: nat)
    requires max > 0 && Separator(sep) && i <= |text|
    ensures AllBroken(SplitFrom(text, sep, i), max) == Broken(text[i..], max)
    decreases |text| - i
  {
    var e := EndFrom(text, sep, i);
    if e == |text| {
      AllBrokenOne(text[i..], max);
    } else {
      SplitKeepsPieces(text, sep, e + |sep|, max);
      SeparatorAtEnd(text, sep, i);
      CutBetween(text, sep, i, e);
      PartAndRest(text[i..e], sep, text[e + |sep|..], SplitFrom(text, sep, e + |sep|), max);
    }
  }

  lemma PartAndRest(part: string, sep: string, rest: string, parts: seq<string>, max: nat)
    requires max > 0 && Separator(sep) && AllBroken(parts, max) == Broken(rest, max)
    ensures AllBroken([part] + parts, max) == Broken(part + sep + rest, max)
  {
    BrokenAt(part, sep, rest, max);
    AllBrokenOne(part, max);
    AllBrokenConcat([part], parts, max);
  }

  // ---------------------------------------------------------------- the splitters

  /** Chunks a splitter may leave: within the limit and never empty. */
  ghost predicate Chunks(chunks: seq<string>, max: nat) {
    forall i | 0 <= i < |chunks| :: 0 < |chunks[i]| <= max
  }

  /** Chunks so far and the chunk being filled stand for the first `i` parts. */
  ghost predicate Filled(chunks: seq<string>, current: string, parts: seq<string>, i: nat, max: nat) {
    && max > 0 && i <= |parts| && Chunks(chunks, max) && |current| <= max
    && AllBroken(chunks, max) + Broken(current, max) == AllBroken(parts[..i], max)
  }

  lemma PartsNext(parts: seq<string>, i: nat, max: nat)
    requires max > 0 && i < |parts|
    ensures AllBroken(parts[..i + 1], max) == AllBroken(parts[..i], max) + Broken(parts[i], max)
  {
    assert parts[..i + 1] == parts[..i] + [parts[i]];
    AllBrokenAppend(parts[..i], parts[i], max);
  }

  function Candidate(current: string, sep: string, part: string): string {
    if current != "" then current + sep + part else part
  }

  lemma CandidateBroken(current: string, sep: string, part: string, max: nat)
    requires max > 0 && Separator(sep)
    ensures Broken(Candidate(current, sep, part), max) == Broken(current, max) + Broken(part, max)
  {
    if current == "" {
      assert Broken(current, max) == [];
    } else {
      BrokenAt(current, sep, part, max);
    }
  }

  /** The chunk being filled takes another part. */
  lemma Extend(chunks: seq<string>, current: string, parts: seq<string>, i: nat, sep: string, max: nat)
    requires Filled(chunks, current, parts, i, max) && i < |parts| && Separator(sep)
    requires |Candidate(current, sep, parts[i])| <= max
    ensures Filled(chunks, Candidate(current, sep, parts[i]), parts, i + 1, max)
  {
    PartsNext(parts, i, max);
    CandidateBroken(current, sep, parts[i], max);
    Regroup(AllBroken(chunks, max), Broken(current, max), Broken(parts[i], max));
  }

  function Closed(chunks: seq<string>, current: string): seq<string> {
    if current != "" then chunks + [current] else chunks
  }

  /** Closing off the chunk being filled. */
  lemma CloseOff(chunks: seq<string>, current: string, parts: seq<string>, i: nat, max: nat)
    requires Filled(chunks, current, parts, i, max)
    ensures Chunks(Closed(chunks, current), max) && AllBroken(Closed(chunks, current), max) == AllBroken(parts[..i], max)
  {
    if current == "" {
      assert Broken(current, max) == [];
    } else {
      AllBrokenAppend(chunks, current, max);
    }
  }

  /** A whole part starts the next chunk. */
  lemma StartWith(chunks: seq<string>, parts: seq<string>, i: nat, max: nat)
    requires max > 0 && i < |parts| && Chunks(chunks, max) && AllBroken(chunks, max) == AllBroken(parts[..i], max)
    requires |parts[i]| <= max
    ensures Filled(chunks, parts[i], parts, i + 1, max)
  {
    PartsNext(parts, i, max);
  }

  /** What is left of line `i` while it is being cut. */
  ghost predicate Cutting(chunks: seq<string>, line: string, lines: seq<string>, i: nat, max: nat) {
    && max > 0 && i < |lines| && Chunks(chunks, max) && '\n' !in line
    && AllBroken(chunks, max) + Pieces(line, max) == AllBroken(lines[..i + 1], max)
  }

  lemma BeginCut(chunks: seq<string>, lines: seq<string>, i: nat, max: nat)
    requires max > 0 && i < |lines| && Chunks(chunks, max) && AllBroken(chunks, max) == AllBroken(lines[..i], max)
    requires '\n' !in lines[i]
    ensures Cutting(chunks, lines[i], lines, i, max)
  {
    PartsNext(lines, i, max);
    BrokenLine(lines[i], max);
  }

  lemma CutPiece(chunks: seq<string>, line: string, lines: seq<string>, i: nat, max: nat)
    requires Cutting(chunks, line, lines, i, max) && |line| > max
    ensures Cutting(chunks + [line[..max]], line[max..], lines, i, max)
  {
    var piece, rest := line[..max], line[max..];
    AllBrokenAppend(chunks, piece, max);
    BrokenLine(piece, max);
    Regroup(AllBroken(chunks, max), [piece], Pieces(rest, max));
  }

  lemma EndCut(chunks: seq<string>, line: string, lines: seq<string>, i: nat, max: nat)
    requires Cutting(chunks, line, lines, i, max) && |line| <= max
    ensures Filled(chunks, line, lines, i + 1, max)
  {
    BrokenLine(line, max);
  }

  // ---------------------------------------------------------------- where the chunks lie

  /** Nothing but newlines from `a` to `b`. */
  predicate Blank(text: string, a: nat, b: nat) {
    b <= |text| && forall k | a <= k < b :: IsNewline(text, k)
  }

  predicate IsNewline(text: string, k: nat) {
    k < |text| && text[k] == '\n'
  }

  predicate LiesAt(text: string, p: nat, chunk: string) {
    p + |chunk| <= |text| && text[p..p + |chunk|] == chunk
  }

  predicate SeparatorAt(text: string, sep: string, k: nat) {
    LiesAt(text, k, sep)
  }

  /** No separator starts from `a` up to `b`: they are in one part. */
  ghost predicate OnePart(text: string, sep: string, a: nat, b: nat) {
    forall k | a <= k < b :: !SeparatorAt(text, sep, k)
  }

  /** A chunk lies at `p`, with nothing but newlines between it and `next`, where the following one starts.
      It could not have been longer: the part the following one starts in goes on past the limit, and
      where that one follows at once the chunk is full. */
  ghost predicate Spot(text: string, sep: string, chunk: string, p: nat, next: nat, max: nat) {
    && LiesAt(text, p, chunk) && p + |chunk| <= next <= |text| && Blank(text, p + |chunk|, next)
    && p + max < |text| && OnePart(text, sep, next, p + max + 1) && (p + |chunk| == next ==> |chunk| == max)
  }

  function Following(starts: seq<nat>, k: nat, c: nat): nat {
    if k + 1 < |starts| then starts[k + 1] else c
  }

  /** Where the first chunk starts, or the next if there is none. */
  function FirstStart(starts: seq<nat>, c: nat): nat {
    if starts == [] then c else starts[0]
  }

  /** Closed chunks lie in the text in order, up to `c`, where the next one starts. */
  ghost predicate Placed(text: string, sep: string, chunks: seq<string>, starts: seq<nat>, c: nat, max: nat) {
    && |starts| == |chunks| && c <= |text| && Blank(text, 0, FirstStart(starts, c))
    && forall k | 0 <= k < |chunks| :: SpotAt(text, sep, chunks, starts, k, c, max)
  }

  /** Chunk `k` lies where it should before the one that follows it. */
  ghost predicate SpotAt(text: string, sep: string, chunks: seq<string>, starts: seq<nat>, k: nat, c: nat, max: nat)
    requires k < |chunks| == |starts|
  {
    Spot(text, sep, chunks[k], starts[k], Following(starts, k, c), max)
  }

  /** All the chunks of a text: nothing but newlines is left out, before, between or after them, and none
      but the last could have been longer. */
  ghost predicate Laid(text: string, sep: string, chunks: seq<string>, starts: seq<nat>, max: nat) {
    && |starts| == |chunks| && Blank(text, 0, FirstStart(starts, |text|))
    && (forall k | 0 <= k < |chunks| - 1 :: SpotAt(text, sep, chunks, starts, k, |text|, max))
    && (chunks != [] ==> var n := |chunks| - 1;
         LiesAt(text, starts[n], chunks[n]) && Blank(text, starts[n] + |chunks[n]|, |text|))
  }

  lemma SpotSlides(text: string, sep: string, chunk: string, p: nat, c: nat, c': nat, max: nat)
    requires Spot(text, sep, chunk, p, c, max) && c <= c' && Blank(text, c, c')
    ensures Spot(text, sep, chunk, p, c', max)
  {
  }

  /** Newlines at the start of the next chunk may as well be left out. */
  lemma Slide(text: string, sep: string, chunks: seq<string>, starts: seq<nat>, c: nat, c': nat, max: nat)
    requires Placed(text, sep, chunks, starts, c, max) && c <= c' && Blank(text, c, c')
    ensures Placed(text, sep, chunks, starts, c', max)
  {
    forall k | 0 <= k < |chunks| ensures SpotAt(text, sep, chunks, starts, k, c', max) {
      assert SpotAt(text, sep, chunks, starts, k, c, max);
      if k == |chunks| - 1 { SpotSlides(text, sep, chunks[k], starts[k], c, c', max); }
    }
  }

  lemma PlaceNext(text: string, sep: string, chunks: seq<string>, starts: seq<nat>, p: nat, chunk: string, c: nat, max: nat)
    requires Placed(text, sep, chunks, starts, p, max) && Spot(text, sep, chunk, p, c, max)
    ensures Placed(text, sep, chunks + [chunk], starts + [p], c, max)
  {
    var chunks', starts' := chunks + [chunk], starts + [p];
    forall k | 0 <= k < |chunks'| ensures SpotAt(text, sep, chunks', starts', k, c, max) {
      if k < |chunks| { assert SpotAt(text, sep, chunks, starts, k, p, max); }
    }
  }

  lemma PlaceLast(text: string, sep: string, chunks: seq<string>, starts: seq<nat>, p: nat, chunk: string, max: nat)
    requires Placed(text, sep, chunks, starts, p, max) && LiesAt(text, p, chunk) && Blank(text, p + |chunk|, |text|)
    ensures Laid(text, sep, chunks + [chunk], starts + [p], max)
  {
    var chunks', starts' := chunks + [chunk], starts + [p];
    forall k | 0 <= k < |chunks| ensures SpotAt(text, sep, chunks', starts', k, |text|, max) {
      assert SpotAt(text, sep, chunks, starts, k, p, max);
    }
  }

  lemma AllPlaced(text: string, sep: string, chunks: seq<string>, starts: seq<nat>, p: nat, max: nat)
    requires Placed(text, sep, chunks, starts, p, max) && Blank(text, p, |text|)
    ensures Laid(text, sep, chunks, starts, max)
  {
    forall k | 0 <= k < |chunks| - 1 ensures SpotAt(text, sep, chunks, starts, k, |text|, max) {
      assert SpotAt(text, sep, chunks, starts, k, p, max);
    }
    if chunks != [] {
      var n := |chunks| - 1;
      assert SpotAt(text, sep, chunks, starts, n, p, max);
    }
  }

  /** A text, its parts, and where each of them starts. */
  datatype Layout = Layout(text: string, sep: string, parts: seq<string>, at: seq<nat>, max: nat)

  /** Part `k` is where it should be: after the one before it and a separator, up to the next separator. */
  ghost predicate PartAt(text: string, sep: string, parts: seq<string>, at: seq<nat>, base: nat, k: nat)
    requires k < |parts| == |at|
  {
    && IsPart(text, sep, at[k], parts[k]) && (k == 0 ==> at[k] == base)
    && (k + 1 < |parts| ==> at[k + 1] == at[k] + |parts[k]| + |sep| && LiesAt(text, at[k] + |parts[k]|, sep))
    && (k + 1 == |parts| ==> at[k] + |parts[k]| == |text|)
  }

  ghost predicate Sound(g: Layout) {
    && Separator(g.sep) && g.max > 0 && |g.at| == |g.parts| && g.parts != []
    && forall k | 0 <= k < |g.parts| :: PartAt(g.text, g.sep, g.parts, g.at, 0, k)
  }

  lemma PartAtLater(text: string, sep: string, head: string, later: seq<string>, i: nat, rest: seq<nat>, next: nat, k: nat)
    requires k < |later| == |rest| && PartAt(text, sep, later, rest, next, k)
    ensures PartAt(text, sep, [head] + later, [i] + rest, i, k + 1)
  {
  }

  lemma PartAtFirst(text: string, sep: string, head: string, later: seq<string>, i: nat, rest: seq<nat>)
    requires later != [] && |rest| == |later| && IsPart(text, sep, i, head)
    requires rest[0] == i + |head| + |sep| && LiesAt(text, i + |head|, sep)
    ensures PartAt(text, sep, [head] + later, [i] + rest, i, 0)
  {
  }

  lemma {:induction false} Positions(text: string, sep: string, i: nat) returns (at: seq<nat>)
    requires Separator(sep) && i <= |text|
    ensures var parts := SplitFrom(text, sep, i);
      |at| == |parts| && forall k | 0 <= k < |parts| :: PartAt(text, sep, parts, at, i, k)
    decreases |text| - i
  {
    var e := EndFrom(text, sep, i);
    SeparatorAtEnd(text, sep, i);
    if e == |text| {
      at := [i];
      LastPart(text, sep, i);
    } else {
      var head, next := text[i..e], e + |sep|;
      PartFrom(text, sep, i);
      var rest := Positions(text, sep, next);
      var later := SplitFrom(text, sep, next);
      at := [i] + rest;
      PositionsJoin(text, sep, head, later, i, rest, next);
    }
  }

  lemma PartFrom(text: string, sep: string, i: nat)
    requires sep != "" && i <= |text|
    ensures IsPart(text, sep, i, text[i..EndFrom(text, sep, i)])
  {
    forall k | i <= k < EndFrom(text, sep, i) ensures !SeparatorAt(text, sep, k) {
      if k + |sep| <= |text| { FindIsFirst(text, sep, i, k); }
    }
  }

  lemma LastPart(text: string, sep: string, i: nat)
    requires sep != "" && i <= |text| && EndFrom(text, sep, i) == |text|
    ensures PartAt(text, sep, [text[i..]], [i], i, 0)
  {
    PartFrom(text, sep, i);
    assert text[i..] == text[i..|text|];
  }

  lemma PositionsJoin(text: string, sep: string, head: string, later: seq<string>, i: nat, rest: seq<nat>, next: nat)
    requires later != [] && |rest| == |later| && forall k | 0 <= k < |later| :: PartAt(text, sep, later, rest, next, k)
    requires IsPart(text, sep, i, head) && next == i + |head| + |sep| && LiesAt(text, i + |head|, sep)
    ensures var parts, at := [head] + later, [i] + rest; forall k | 0 <= k < |parts| :: PartAt(text, sep, parts, at, i, k)
  {
    var parts, at := [head] + later, [i] + rest;
    assert PartAt(text, sep, later, rest, next, 0);
    forall k | 0 <= k < |parts| ensures PartAt(text, sep, parts, at, i, k) {
      if k == 0 {
        PartAtFirst(text, sep, head, later, i, rest);
      } else {
        PartAtLater(text, sep, head, later, i, rest, next, k - 1);
      }
    }
  }

  lemma LayOut(text: string, sep: string, max: nat) returns (g: Layout)
    requires Separator(sep) && max > 0
    ensures Sound(g) && g.text == text && g.sep == sep && g.parts == Split(text, sep) && g.max == max
  {
    var at := Positions(text, sep, 0);
    g := Layout(text, sep, Split(text, sep), at, max);
  }

  /** Where the part before `i` ends. */
  function Reached(g: Layout, i: nat): nat
    requires |g.at| == |g.parts| && i <= |g.parts|
  {
    if i == 0 then 0 else g.at[i - 1] + |g.parts[i - 1]|
  }

  lemma SeparatorIsBlank(text: string, sep: string, e: nat)
    requires Separator(sep) && LiesAt(text, e, sep)
    ensures Blank(text, e, e + |sep|)
  {
    forall k | e <= k < e + |sep| ensures IsNewline(text, k) {
      assert text[e..e + |sep|][k - e] == text[k];
    }
  }

  /** What is known of the next part. */
  lemma PartNext(g: Layout, i: nat)
    requires Sound(g) && i < |g.parts|
    ensures var e, pos := Reached(g, i), g.at[i];
      && e <= pos && Blank(g.text, e, pos) && IsPart(g.text, g.sep, pos, g.parts[i])
      && (i > 0 ==> pos == e + |g.sep| && LiesAt(g.text, e, g.sep)) && (i == 0 ==> pos == e == 0)
      && Reached(g, i + 1) == pos + |g.parts[i]| <= |g.text|
      && (Reached(g, i + 1) < |g.text| <==> i + 1 < |g.parts|)
      && (i + 1 < |g.parts| ==> LiesAt(g.text, Reached(g, i + 1), g.sep))
  {
    assert PartAt(g.text, g.sep, g.parts, g.at, 0, i);
    if i > 0 {
      assert PartAt(g.text, g.sep, g.parts, g.at, 0, i - 1);
      SeparatorIsBlank(g.text, g.sep, Reached(g, i));
    }
  }

  /** A paragraph that another follows does not end in a newline: the separator would have been found earlier. */
  lemma NoNewlineBeforeNext(text: string, pos: nat, par: string)
    requires IsPart(text, NL + NL, pos, par) && par != "" && LiesAt(text, pos + |par|, NL + NL)
    ensures !IsNewline(text, pos + |par| - 1)
  {
    var e := pos + |par|;
    assert !SeparatorAt(text, NL + NL, e - 1);
    assert text[e..e + 2][0] == '\n';
    assert text[e - 1..e + 1] == [text[e - 1], text[e]];
  }

  /** The chunk being filled lies at `c`, the closed ones before it, and nothing but newlines is between it
      and `e`, the end of the part before; while there are `more` parts it reaches up to there. */
  ghost predicate Filling(text: string, sep: string, chunks: seq<string>, starts: seq<nat>, current: string, c: nat, e: nat,
                          more: bool, max: nat) {
    && Placed(text, sep, chunks, starts, c, max) && LiesAt(text, c, current) && c + |current| <= e
    && Blank(text, c + |current|, e) && (more ==> c + |current| == e)
  }

  lemma LiesTogether(text: string, p: nat, a: string, b: string)
    requires LiesAt(text, p, a) && LiesAt(text, p + |a|, b)
    ensures LiesAt(text, p, a + b)
  {
    assert text[p..p + |a + b|] == text[p..p + |a|] + text[p + |a|..p + |a| + |b|];
  }

  lemma FillMore(g: Layout, i: nat, chunks: seq<string>, starts: seq<nat>, current: string, c: nat)
    requires Sound(g) && i < |g.parts| && Filling(g.text, g.sep, chunks, starts, current, c, Reached(g, i), true, g.max)
    ensures Filling(g.text, g.sep, chunks, starts, Candidate(current, g.sep, g.parts[i]), if current != "" then c else g.at[i],
                    Reached(g, i + 1), true, g.max)
  {
    PartNext(g, i);
    if current == "" {
      Slide(g.text, g.sep, chunks, starts, c, g.at[i], g.max);
    } else {
      LiesTogether(g.text, c, current, g.sep);
      LiesTogether(g.text, c, current + g.sep, g.parts[i]);
    }
  }

  /** Closing off what does not fit together with the next part. */
  lemma PlaceFilled(g: Layout, i: nat, chunks: seq<string>, starts: seq<nat>, current: string, c: nat)
    requires Sound(g) && i < |g.parts| && Filling(g.text, g.sep, chunks, starts, current, c, Reached(g, i), true, g.max)
    requires |Candidate(current, g.sep, g.parts[i])| > g.max
    ensures Placed(g.text, g.sep, Closed(chunks, current), ClosedStarts(starts, current, c), g.at[i], g.max)
  {
    PartNext(g, i);
    if current == "" {
      Slide(g.text, g.sep, chunks, starts, c, g.at[i], g.max);
    } else {
      PlaceNext(g.text, g.sep, chunks, starts, c, current, g.at[i], g.max);
    }
  }

  function ClosedStarts(starts: seq<nat>, current: string, c: nat): seq<nat> {
    if current != "" then starts + [c] else starts
  }

  function Shifted(starts: seq<nat>, base: nat): seq<nat> {
    seq(|starts|, i requires 0 <= i < |starts| => starts[i] + base)
  }

  /** The part that starts at `pos`. */
  ghost predicate IsPart(text: string, sep: string, pos: nat, par: string) {
    LiesAt(text, pos, par) && OnePart(text, sep, pos, pos + |par|)
  }

  lemma LiesWithin(text: string, pos: nat, par: string, p: nat, chunk: string)
    requires LiesAt(text, pos, par) && LiesAt(par, p, chunk)
    ensures LiesAt(text, pos + p, chunk)
  {
    forall k | 0 <= k < |chunk| ensures text[pos + p..pos + p + |chunk|][k] == chunk[k] {
      assert chunk[k] == par[p..p + |chunk|][k] == par[p + k] == text[pos..pos + |par|][p + k];
    }
  }

  lemma BlankWithin(text: string, pos: nat, par: string, a: nat, b: nat)
    requires LiesAt(text, pos, par) && Blank(par, a, b)
    ensures Blank(text, pos + a, pos + b)
  {
    forall k | pos + a <= k < pos + b ensures IsNewline(text, k) {
      assert IsNewline(par, k - pos) && par[k - pos] == text[pos..pos + |par|][k - pos];
    }
  }

  lemma SpotInText(text: string, sep: string, inner: string, pos: nat, par: string, chunk: string, p: nat, next: nat, max: nat)
    requires IsPart(text, sep, pos, par) && Spot(par, inner, chunk, p, next, max)
    ensures Spot(text, sep, chunk, pos + p, pos + next, max)
  {
    LiesWithin(text, pos, par, p, chunk);
    BlankWithin(text, pos, par, p + |chunk|, next);
  }

  lemma FollowingJoined(starts: seq<nat>, more: seq<nat>, k: nat, c: nat)
    requires k < |starts + more|
    ensures Following(starts + more, k, c)
         == if k < |starts| then Following(starts, k, FirstStart(more, c)) else Following(more, k - |starts|, c)
  {
  }

  lemma PlaceMore(text: string, sep: string, chunks: seq<string>, starts: seq<nat>, sub: seq<string>, ss: seq<nat>, c: nat, max: nat)
    requires Placed(text, sep, chunks, starts, FirstStart(ss, c), max) && |ss| == |sub| && c <= |text|
    requires forall k | 0 <= k < |sub| :: SpotAt(text, sep, sub, ss, k, c, max)
    ensures Placed(text, sep, chunks + sub, starts + ss, c, max)
  {
    var chunks', starts' := chunks + sub, starts + ss;
    forall k | 0 <= k < |chunks'| ensures SpotAt(text, sep, chunks', starts', k, c, max) {
      FollowingJoined(starts, ss, k, c);
      if k < |chunks| {
        assert SpotAt(text, sep, chunks, starts, k, FirstStart(ss, c), max);
      } else {
        assert SpotAt(text, sep, sub, ss, k - |chunks|, c, max);
      }
    }
  }

  /** Chunks of a paragraph, placed by its lines, are placed in the text by its paragraphs. */
  lemma PlaceSub(text: string, sep: string, inner: string, pos: nat, par: string, chunks: seq<string>, starts: seq<nat>,
                 sub: seq<string>, ss: seq<nat>, c: nat, max: nat)
    requires Placed(text, sep, chunks, starts, pos, max) && IsPart(text, sep, pos, par) && Placed(par, inner, sub, ss, c, max)
    ensures Placed(text, sep, chunks + sub, starts + Shifted(ss, pos), pos + c, max)
  {
    var shifted, next := Shifted(ss, pos), pos + c;
    BlankWithin(text, pos, par, 0, FirstStart(ss, c));
    Slide(text, sep, chunks, starts, pos, pos + FirstStart(ss, c), max);
    forall k | 0 <= k < |sub| ensures SpotAt(text, sep, sub, shifted, k, next, max) {
      assert SpotAt(par, inner, sub, ss, k, c, max);
      SpotInText(text, sep, inner, pos, par, sub[k], ss[k], Following(ss, k, c), max);
    }
    PlaceMore(text, sep, chunks, starts, sub, shifted, next, max);
  }

  lemma FillLastSub(text: string, sep: string, pos: nat, par: string, chunks: seq<string>, starts: seq<nat>, chunk: string, p: nat, max: nat)
    requires sep == NL + NL && IsPart(text, sep, pos, par) && Placed(text, sep, chunks, starts, pos + p, max)
    requires pos + |par| < |text| ==> LiesAt(text, pos + |par|, sep)
    requires LiesAt(par, p, chunk) && Blank(par, p + |chunk|, |par|)
    ensures Filling(text, sep, chunks, starts, chunk, pos + p, pos + |par|, pos + |par| < |text|, max)
  {
    LiesWithin(text, pos, par, p, chunk);
    BlankWithin(text, pos, par, p + |chunk|, |par|);
    if pos + |par| < |text| && par != "" { NoNewlineBeforeNext(text, pos, par); }
    assert p + |chunk| < |par| ==> IsNewline(text, pos + |par| - 1);
  }

  lemma LaidBeforeLast(par: string, inner: string, sub: seq<string>, ss: seq<nat>, max: nat)
    requires Laid(par, inner, sub, ss, max) && sub != []
    ensures var n := |sub| - 1;
      Placed(par, inner, sub[..n], ss[..n], ss[n], max) && LiesAt(par, ss[n], sub[n]) && Blank(par, ss[n] + |sub[n]|, |par|)
  {
    var n := |sub| - 1;
    forall k | 0 <= k < n ensures SpotAt(par, inner, sub[..n], ss[..n], k, ss[n], max) {
      assert SpotAt(par, inner, sub, ss, k, |par|, max);
    }
  }

  /** The last chunk of an oversized paragraph is the one being filled. */
  lemma FillFromSub(text: string, sep: string, pos: nat, par: string, chunks: seq<string>, starts: seq<nat>,
                    sub: seq<string>, ss: seq<nat>, max: nat)
    requires sep == NL + NL && IsPart(text, sep, pos, par) && Placed(text, sep, chunks, starts, pos, max)
    requires Laid(par, NL, sub, ss, max) && sub != [] && (pos + |par| < |text| ==> LiesAt(text, pos + |par|, sep))
    ensures var n := |sub| - 1;
      Filling(text, sep, chunks + sub[..n], starts + Shifted(ss[..n], pos), sub[n], pos + ss[n], pos + |par|, pos + |par| < |text|, max)
  {
    var n := |sub| - 1;
    LaidBeforeLast(par, NL, sub, ss, max);
    PlaceSub(text, sep, NL, pos, par, chunks, starts, sub[..n], ss[..n], ss[n], max);
    FillLastSub(text, sep, pos, par, chunks + sub[..n], starts + Shifted(ss[..n], pos), sub[n], ss[n], max);
  }

  /** A part of nothing but newlines is left out. */
  lemma FillFromNone(text: string, sep: string, pos: nat, par: string, chunks: seq<string>, starts: seq<nat>, max: nat)
    requires IsPart(text, sep, pos, par) && Placed(text, sep, chunks, starts, pos, max) && Blank(par, 0, |par|)
    ensures Filling(text, sep, chunks, starts, "", pos + |par|, pos + |par|, true, max)
  {
    BlankWithin(text, pos, par, 0, |par|);
    Slide(text, sep, chunks, starts, pos, pos + |par|, max);
  }

  /** What both splitters keep: the pieces of the parts so far, and where everything lies. */
  ghost predicate Splitting(g: Layout, i: nat, chunks: seq<string>, starts: seq<nat>, current: string, c: nat) {
    && Sound(g) && i <= |g.parts| && Filled(chunks, current, g.parts, i, g.max)
    && Filling(g.text, g.sep, chunks, starts, current, c, Reached(g, i), i < |g.parts|, g.max)
  }

  lemma SplittingStarts(g: Layout)
    requires Sound(g)
    ensures Splitting(g, 0, [], [], "", 0)
  {
    assert Broken("", g.max) == [];
    assert g.parts[..0] == [];
  }

  /** The next part fits the chunk being filled. */
  lemma PartFits(g: Layout, i: nat, chunks: seq<string>, starts: seq<nat>, current: string, c: nat)
    requires Splitting(g, i, chunks, starts, current, c) && i < |g.parts| && |Candidate(current, g.sep, g.parts[i])| <= g.max
    ensures Splitting(g, i + 1, chunks, starts, Candidate(current, g.sep, g.parts[i]), if current != "" then c else g.at[i])
  {
    Extend(chunks, current, g.parts, i, g.sep, g.max);
    FillMore(g, i, chunks, starts, current, c);
  }

  /** It does not: the chunk is closed off, and the part is what comes next. */
  ghost predicate Between(g: Layout, i: nat, chunks: seq<string>, starts: seq<nat>) {
    && Sound(g) && i < |g.parts| && Chunks(chunks, g.max) && AllBroken(chunks, g.max) == AllBroken(g.parts[..i], g.max)
    && Placed(g.text, g.sep, chunks, starts, g.at[i], g.max)
  }

  lemma PartDoesNotFit(g: Layout, i: nat, chunks: seq<string>, starts: seq<nat>, current: string, c: nat)
    requires Splitting(g, i, chunks, starts, current, c) && i < |g.parts| && |Candidate(current, g.sep, g.parts[i])| > g.max
    ensures Between(g, i, Closed(chunks, current), ClosedStarts(starts, current, c))
  {
    CloseOff(chunks, current, g.parts, i, g.max);
    PlaceFilled(g, i, chunks, starts, current, c);
  }

  lemma ReachedAll(g: Layout)
    requires Sound(g)
    ensures Reached(g, |g.parts|) == |g.text|
  {
    PartNext(g, |g.parts| - 1);
  }

  /** Closing off at the end of the text. */
  lemma SplittingEnds(g: Layout, chunks: seq<string>, starts: seq<nat>, current: string, c: nat)
    requires Splitting(g, |g.parts|, chunks, starts, current, c)
    ensures var all := Closed(chunks, current);
      && Chunks(all, g.max) && AllBroken(all, g.max) == AllBroken(g.parts, g.max)
      && Laid(g.text, g.sep, all, ClosedStarts(starts, current, c), g.max)
  {
    assert g.parts[..|g.parts|] == g.parts;
    CloseOff(chunks, current, g.parts, |g.parts|, g.max);
    ReachedAll(g);
    if current != "" {
      PlaceLast(g.text, g.sep, chunks, starts, c, current, g.max);
    } else {
      AllPlaced(g.text, g.sep, chunks, starts, c, g.max);
    }
  }

  /** Line `i` while it is being cut: `l` is where what is left of it starts. */
  ghost predicate CuttingAt(g: Layout, i: nat, chunks: seq<string>, starts: seq<nat>, line: string, l: nat) {
    && Sound(g) && g.sep == NL && i < |g.parts| && Cutting(chunks, line, g.parts, i, g.max)
    && Placed(g.text, NL, chunks, starts, l, g.max) && IsPart(g.text, NL, l, line) && l + |line| == Reached(g, i + 1)
  }

  lemma BeginCutAt(g: Layout, i: nat, chunks: seq<string>, starts: seq<nat>)
    requires Between(g, i, chunks, starts) && g.sep == NL && '\n' !in g.parts[i]
    ensures CuttingAt(g, i, chunks, starts, g.parts[i], g.at[i])
  {
    BeginCut(chunks, g.parts, i, g.max);
    PartNext(g, i);
  }

  lemma CutPlaced(text: string, chunks: seq<string>, starts: seq<nat>, line: string, l: nat, max: nat)
    requires Placed(text, NL, chunks, starts, l, max) && IsPart(text, NL, l, line) && |line| > max
    ensures Placed(text, NL, chunks + [line[..max]], starts + [l], l + max, max) && IsPart(text, NL, l + max, line[max..])
  {
    LiesWithin(text, l, line, 0, line[..max]);
    LiesWithin(text, l, line, max, line[max..]);
    PlaceNext(text, NL, chunks, starts, l, line[..max], l + max, max);
  }

  lemma CutOne(g: Layout, i: nat, chunks: seq<string>, starts: seq<nat>, line: string, l: nat, max: nat)
    requires CuttingAt(g, i, chunks, starts, line, l) && |line| > max == g.max
    ensures CuttingAt(g, i, chunks + [line[..max]], starts + [l], line[max..], l + max)
  {
    CutPiece(chunks, line, g.parts, i, max);
    CutPlaced(g.text, chunks, starts, line, l, max);
  }

  lemma CutDone(g: Layout, i: nat, chunks: seq<string>, starts: seq<nat>, line: string, l: nat)
    requires CuttingAt(g, i, chunks, starts, line, l) && |line| <= g.max
    ensures Splitting(g, i + 1, chunks, starts, line, l)
  {
    EndCut(chunks, line, g.parts, i, g.max);
  }

  /** The hard split of one line. */
  method CutLine(chunks: seq<string>, line: string, max: nat, ghost g: Layout, ghost i: nat, ghost starts: seq<nat>, ghost pos: nat)
    returns (chunks': seq<string>, rest: string, ghost starts': seq<nat>, ghost l: nat)
    requires CuttingAt(g, i, chunks, starts, line, pos) && g.max == max
    ensures CuttingAt(g, i, chunks', starts', rest, l) && |rest| <= max
  {
    chunks', starts', rest, l := chunks, starts, line, pos;
    while |rest| > max
      invariant CuttingAt(g, i, chunks', starts', rest, l)
    {
      CutOne(g, i, chunks', starts', rest, l, max);
      starts', l := starts' + [l], l + max;
      chunks', rest := chunks' + [rest[..max]], rest[max..];
    }
  }

  /** One line of the loop. */
  method AddLine(chunks: seq<string>, current: string, line: string, max: nat, ghost g: Layout, ghost i: nat, ghost starts: seq<nat>, ghost c: nat)
    returns (chunks': seq<string>, current': string, ghost starts': seq<nat>, ghost c': nat)
    requires Splitting(g, i, chunks, starts, current, c) && i < |g.parts| && g.parts[i] == line && '\n' !in line
    requires g.sep == NL && g.max == max
    ensures Splitting(g, i + 1, chunks', starts', current', c')
  {
    var candidate := if current != "" then current + NL + line else line;
    if |candidate| <= max {
      PartFits(g, i, chunks, starts, current, c);
      return chunks, candidate, starts, if current != "" then c else g.at[i];
    }
    PartDoesNotFit(g, i, chunks, starts, current, c);
    chunks', starts' := if current != "" then chunks + [current] else chunks, ClosedStarts(starts, current, c);
    BeginCutAt(g, i, chunks', starts');
    chunks', current', starts', c' := CutLine(chunks', line, max, g, i, starts', g.at[i]);
    CutDone(g, i, chunks', starts', current', c');
  }

  method SplitOnNewlines(text: string, max: nat) returns (chunks: seq<string>, ghost starts: seq<nat>)
    requires max > 0
    ensures Chunks(chunks, max) && AllBroken(chunks, max) == Broken(text, max)
    ensures Laid(text, NL, chunks, starts, max)
  {
    var lines := Split(text, NL);
    SplitHasNone(text, '\n', 0);
    SplitKeepsPieces(text, NL, 0, max);
    assert text[0..] == text;
    ghost var g := LayOut(text, NL, max);
    chunks, starts := [], [];
    var current := "";
    ghost var c: nat := 0;
    SplittingStarts(g);
    for i := 0 to |lines|
      invariant Splitting(g, i, chunks, starts, current, c)
    {
      chunks, current, starts, c := AddLine(chunks, current, lines[i], max, g, i, starts, c);
    }
    SplittingEnds(g, chunks, starts, current, c);
    starts := ClosedStarts(starts, current, c);
    chunks := if current != "" then chunks + [current] else chunks;
  }

  /** All the pieces of a part but the last are chunks, and the last starts the next one. */
  lemma StartWithSub(chunks: seq<string>, sub: seq<string>, parts: seq<string>, i: nat, max: nat)
    requires max > 0 && i < |parts| && Chunks(chunks, max) && AllBroken(chunks, max) == AllBroken(parts[..i], max)
    requires Chunks(sub, max) && AllBroken(sub, max) == Broken(parts[i], max)
    ensures sub != [] ==> Filled(chunks + sub[..|sub| - 1], sub[|sub| - 1], parts, i + 1, max)
    ensures sub == [] ==> Filled(chunks, "", parts, i + 1, max)
  {
    PartsNext(parts, i, max);
    if sub == [] {
      assert Broken("", max) == [];
    } else {
      var init, last := sub[..|sub| - 1], sub[|sub| - 1];
      AllBrokenConcat(chunks, init, max);
      ChunksConcat(chunks, init, max);
      Regroup(AllBroken(chunks, max), AllBroken(init, max), Broken(last, max));
    }
  }

  lemma ChunksConcat(s: seq<string>, t: seq<string>, max: nat)
    requires Chunks(s, max) && Chunks(t, max)
    ensures Chunks(s + t, max)
  {
  }

  lemma WholeNext(g: Layout, i: nat, chunks: seq<string>, starts: seq<nat>)
    requires Between(g, i, chunks, starts) && |g.parts[i]| <= g.max
    ensures Splitting(g, i + 1, chunks, starts, g.parts[i], g.at[i])
  {
    StartWith(chunks, g.parts, i, g.max);
    PartNext(g, i);
  }

  lemma NoSubNext(g: Layout, i: nat, chunks: seq<string>, starts: seq<nat>, ss: seq<nat>)
    requires Between(g, i, chunks, starts) && Broken(g.parts[i], g.max) == [] && Laid(g.parts[i], NL, [], ss, g.max)
    ensures Splitting(g, i + 1, chunks, starts, "", Reached(g, i + 1))
  {
    PartNext(g, i);
    StartWithSub(chunks, [], g.parts, i, g.max);
    FillFromNone(g.text, g.sep, g.at[i], g.parts[i], chunks, starts, g.max);
  }

  lemma SubFills(g: Layout, i: nat, chunks: seq<string>, starts: seq<nat>, sub: seq<string>, ss: seq<nat>)
    requires Sound(g) && g.sep == NL + NL && i < |g.parts| && Placed(g.text, g.sep, chunks, starts, g.at[i], g.max)
    requires sub != [] && Laid(g.parts[i], NL, sub, ss, g.max)
    ensures var n := |sub| - 1;
      Filling(g.text, g.sep, chunks + sub[..n], starts + Shifted(ss[..n], g.at[i]), sub[n], g.at[i] + ss[n],
              Reached(g, i + 1), i + 1 < |g.parts|, g.max)
  {
    PartNext(g, i);
    FillFromSub(g.text, g.sep, g.at[i], g.parts[i], chunks, starts, sub, ss, g.max);
  }

  lemma SubSplits(g: Layout, i: nat, chunks: seq<string>, sub: seq<string>, starts': seq<nat>, c: nat)
    requires Sound(g) && i < |g.parts| && Chunks(chunks, g.max) && AllBroken(chunks, g.max) == AllBroken(g.parts[..i], g.max)
    requires sub != [] && Chunks(sub, g.max) && AllBroken(sub, g.max) == Broken(g.parts[i], g.max)
    requires Filling(g.text, g.sep, chunks + sub[..|sub| - 1], starts', sub[|sub| - 1], c, Reached(g, i + 1), i + 1 < |g.parts|, g.max)
    ensures Splitting(g, i + 1, chunks + sub[..|sub| - 1], starts', sub[|sub| - 1], c)
  {
    StartWithSub(chunks, sub, g.parts, i, g.max);
  }

  lemma SubNext(g: Layout, i: nat, chunks: seq<string>, starts: seq<nat>, sub: seq<string>, ss: seq<nat>)
    requires g.sep == NL + NL && Between(g, i, chunks, starts)
    requires sub != [] && Chunks(sub, g.max) && AllBroken(sub, g.max) == Broken(g.parts[i], g.max)
    requires Laid(g.parts[i], NL, sub, ss, g.max)
    ensures var n := |sub| - 1;
      Splitting(g, i + 1, chunks + sub[..n], starts + Shifted(ss[..n], g.at[i]), sub[n], g.at[i] + ss[n])
  {
    SubFills(g, i, chunks, starts, sub, ss);
    SubSplits(g, i, chunks, sub, starts + Shifted(ss[..|sub| - 1], g.at[i]), g.at[i] + ss[|sub| - 1]);
  }

  /** A paragraph that is too long alone: all its chunks but the last are closed, the last is being filled. */
  method AddLongParagraph(chunks: seq<string>, paragraph: string, max: nat, ghost g: Layout, ghost i: nat, ghost starts: seq<nat>)
    returns (chunks': seq<string>, current': string, ghost starts': seq<nat>, ghost c': nat)
    requires Between(g, i, chunks, starts) && g.parts[i] == paragraph && g.sep == NL + NL && g.max == max
    ensures Splitting(g, i + 1, chunks', starts', current', c')
  {
    var sub;
    ghost var ss;
    sub, ss := SplitOnNewlines(paragraph, max);
    if sub == [] {
      NoSubNext(g, i, chunks, starts, ss);
      return chunks, "", starts, Reached(g, i + 1);
    }
    SubNext(g, i, chunks, starts, sub, ss);
    var n := |sub| - 1;
    return chunks + sub[..n], sub[n], starts + Shifted(ss[..n], g.at[i]), g.at[i] + ss[n];
  }

  /** One paragraph of the loop. */
  method AddParagraph(chunks: seq<string>, current: string, paragraph: string, max: nat,
                      ghost g: Layout, ghost i: nat, ghost starts: seq<nat>, ghost c: nat)
    returns (chunks': seq<string>, current': string, ghost starts': seq<nat>, ghost c': nat)
    requires Splitting(g, i, chunks, starts, current, c) && i < |g.parts| && g.parts[i] == paragraph
    requires g.sep == NL + NL && g.max == max
    ensures Splitting(g, i + 1, chunks', starts', current', c')
  {
    var candidate := if current != "" then current + (NL + NL) + paragraph else paragraph;
    if |candidate| <= max {
      PartFits(g, i, chunks, starts, current, c);
      return chunks, candidate, starts, if current != "" then c else g.at[i];
    }
    PartDoesNotFit(g, i, chunks, starts, current, c);
    chunks', starts' := if current != "" then chunks + [current] else chunks, ClosedStarts(starts, current, c);
    if |paragraph| <= max {
      WholeNext(g, i, chunks', starts');
      return chunks', paragraph, starts', g.at[i];
    }
    chunks', current', starts', c' := AddLongParagraph(chunks', paragraph, max, g, i, starts');
  }

  /** Text within the limit is one chunk. Longer text becomes nonempty chunks within the limit. They lie in
      it in order, blank lines inside a chunk kept and nothing but newlines left out between them; none
      but the last could have been longer; and a line is cut only where it exceeds the limit. */
  method SplitLongText(text: string, max: nat) returns (chunks: seq<string>, ghost starts: seq<nat>)
    requires max > 0
    ensures |text| <= max ==> chunks == [text]
    ensures |text| > max ==> Chunks(chunks, max)
    ensures Laid(text, NL + NL, chunks, starts, max)
    ensures AllBroken(chunks, max) == Broken(text, max)
  {
    if |text| <= max {
      AllBrokenOne(text, max);
      return [text], [0];
    }
    var paragraphs := Split(text, NL + NL);
    SplitKeepsPieces(text, NL + NL, 0, max);
    assert text[0..] == text;
    ghost var g := LayOut(text, NL + NL, max);
    chunks, starts := [], [];
    var current := "";
    ghost var c: nat := 0;
    SplittingStarts(g);
    for i := 0 to |paragraphs|
      invariant Splitting(g, i, chunks, starts, current, c)
    {
      chunks, current, starts, c := AddParagraph(chunks, current, paragraphs[i], max, g, i, starts, c);
    }
    SplittingEnds(g, chunks, starts, current, c);
    starts := ClosedStarts(starts, current, c);
    chunks := if current != "" then chunks + [current] else chunks;
  }

  // ---------------------------------------------------------------- what the reader sees

  function NoNewlines(s: string): string {
    if s == "" then "" else if s[0] == '\n' then NoNewlines(s[1..]) else [s[0]] + NoNewlines(s[1..])
  }

  function Concat(parts: seq<string>): string {
    if parts == [] then "" else Concat(parts[..|parts| - 1]) + parts[|parts| - 1]
  }

  lemma {:induction false} ConcatAppends(s: seq<string>, t: seq<string>)
    ensures Concat(s + t) == Concat(s) + Concat(t)
  {
    if t == [] {
      assert s + t == s;
    } else {
      var init := t[..|t| - 1];
      ConcatAppends(s, init);
      assert (s + t)[..|s + t| - 1] == s + init;
    }
  }

  lemma {:induction false} NoNewlinesConcat(s: string, t: string)
    ensures NoNewlines(s + t) == NoNewlines(s) + NoNewlines(t)
  {
    if s == "" {
      assert s + t == t;
    } else {
      NoNewlinesConcat(s[1..], t);
      assert (s + t)[1..] == s[1..] + t;
      Regroup([s[0]], NoNewlines(s[1..]), NoNewlines(t));
    }
  }

  lemma {:induction false} NoNewlinesSame(s: string)
    requires '\n' !in s
    ensures NoNewlines(s) == s
  {
    if s != "" { NoNewlinesSame(s[1..]); }
  }

  lemma ConcatOne(part: string)
    ensures Concat([part]) == part
  {
    assert [part][..0] == [];
  }

  lemma ConcatFirst(part: string, rest: seq<string>)
    ensures Concat([part] + rest) == part + Concat(rest)
  {
    ConcatAppends([part], rest);
    ConcatOne(part);
  }

  lemma {:induction false} PiecesConcat(line: string, max: nat)
    requires max > 0
    ensures Concat(Pieces(line, max)) == line
    decreases |line|
  {
    if |line| > max {
      PiecesConcat(line[max..], max);
      ConcatFirst(line[..max], Pieces(line[max..], max));
    } else if line != "" {
      ConcatOne(line);
    }
  }

  lemma NoNewlinesLine(line: string, rest: string)
    requires '\n' !in line
    ensures NoNewlines(line + NL + rest) == line + NoNewlines(rest)
  {
    NoNewlinesSame(line);
    NoNewlinesConcat(line + NL, rest);
    NoNewlinesConcat(line, NL);
    assert NoNewlines(NL) == "";
  }

  lemma {:induction false} BrokenConcat(text: string, max: nat)
    requires max > 0
    ensures Concat(Broken(text, max)) == NoNewlines(text)
    decreases |text|
  {
    FirstNewlineFacts(text);
    var i := FirstNewline(text);
    var line := text[..i];
    PiecesConcat(line, max);
    if i == |text| {
      assert line == text;
      NoNewlinesSame(text);
    } else {
      var rest := text[i + 1..];
      BrokenConcat(rest, max);
      ConcatAppends(Pieces(line, max), Broken(rest, max));
      CutAround(text, NL, i);
      NoNewlinesLine(line, rest);
    }
  }

  lemma {:induction false} AllBrokenReads(chunks: seq<string>, max: nat)
    requires max > 0
    ensures Concat(AllBroken(chunks, max)) == NoNewlines(Concat(chunks))
  {
    if chunks != [] {
      var init, last := chunks[..|chunks| - 1], chunks[|chunks| - 1];
      AllBrokenReads(init, max);
      BrokenConcat(last, max);
      ConcatAppends(AllBroken(init, max), Broken(last, max));
      NoNewlinesConcat(Concat(init), last);
    }
  }

  /** Any chunks with the text's pieces read as the text does once newlines are removed from both. */
  lemma NothingButNewlinesLost(text: string, chunks: seq<string>, max: nat)
    requires max > 0 && AllBroken(chunks, max) == Broken(text, max)
    ensures NoNewlines(Concat(chunks)) == NoNewlines(text)
  {
    AllBrokenReads(chunks, max);
    BrokenConcat(text, max);
  }

  /** The nonempty lines of a text. */
  function Lines(text: string): seq<string>
    decreases |text|
  {
    FirstNewlineFacts(text);
    var i := FirstNewline(text);
    if i == |text| then (if text == "" then [] else [text])
    else if i == 0 then Lines(text[1..])
    else [text[..i]] + Lines(text[i + 1..])
  }

  /** When no line exceeds the limit none is cut: the pieces are the nonempty lines. */
  lemma {:induction false} ShortLinesStayWhole(text: string, max: nat)
    requires max > 0 && forall i | 0 <= i < |Lines(text)| :: |Lines(text)[i]| <= max
    ensures Broken(text, max) == Lines(text)
    decreases |text|
  {
    FirstNewlineFacts(text);
    var i := FirstNewline(text);
    if i < |text| {
      var rest := text[i + 1..];
      assert i == 0 ==> Lines(text) == Lines(rest);
      assert i > 0 ==> Lines(text) == [text[..i]] + Lines(rest) && |Lines(text)[0]| <= max;
      assert forall k | 0 <= k < |Lines(rest)| :: Lines(rest)[k] == Lines(text)[if i == 0 then k else k + 1];
      ShortLinesStayWhole(rest, max);
    } else {
      assert text != "" ==> Lines(text) == [text] && |Lines(text)[0]| <= max;
    }
  }
}
