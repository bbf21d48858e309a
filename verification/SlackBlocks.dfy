/** Rendering markdown as Slack blocks. The line scanner is specified as a function from lines to the
    items they spell; items become blocks within Slack's limits. The inline patterns are arbitrary
    functions. */
module SlackBlocks {
  import opened Prelude
  import opened Splitter

  const TEXT_LIMIT: nat := 3000
  const CODE_LIMIT: nat := 2992
  const MAX_BLOCKS: nat := 50
  const MAX_ROWS: nat := 100
  const MAX_COLS: nat := 20
  const HEADER_LIMIT: nat := 150

  /** What the regular expressions and `str.strip` do. `header` is the text of a heading line,
      `dashes` a separator cell. */
  datatype Inline = Inline(
    strip: string -> string, convert: string -> string, plain: string -> string,
    header: string -> Option<string>, divider: string -> bool, dashes: string -> bool, numeric: string -> bool)

  datatype Align = Left | Right

  datatype Block = Section(text: string) | Header(text: string) | Divider | Table(rows: seq<seq<string>>, settings: seq<Align>)

  // ---------------------------------------------------------------- tables

  predicate StartsWith(s: string, prefix: string) {
    |prefix| <= |s| && s[..|prefix|] == prefix
  }

  function Pipes(s: string): nat {
    if s == "" then 0 else (if s[0] == '|' then 1 else 0) + Pipes(s[1..])
  }

  predicate IsRow(inl: Inline, line: string) {
    StartsWith(inl.strip(line), "|") && Pipes(inl.strip(line)) >= 2
  }

  function StripPipes(s: string): string {
    if s != "" && s[0] == '|' then StripPipes(s[1..])
    else if s != "" && s[|s| - 1] == '|' then StripPipes(s[..|s| - 1])
    else s
  }

  ghost predicate BetweenPipes(s: string, a: nat, b: nat) {
    && a <= b <= |s| && (forall k | 0 <= k < a :: s[k] == '|') && (forall k | b <= k < |s| :: s[k] == '|')
    && (a < b ==> s[a] != '|' && s[b - 1] != '|')
  }

  /** Pipes go from both ends and from nowhere else. */
  lemma {:induction false} StripPipesExactly(s: string) returns (a: nat, b: nat)
    ensures BetweenPipes(s, a, b) && StripPipes(s) == s[a..b]
    decreases |s|
  {
    if s != "" && s[0] == '|' {
      var t := s[1..];
      a, b := StripPipesExactly(t);
      assert forall k | 0 < k < |s| :: s[k] == t[k - 1];
      assert |s[a + 1..b + 1]| == |t[a..b]| && forall k | 0 <= k < b - a :: s[a + 1..b + 1][k] == t[a..b][k];
      a, b := a + 1, b + 1;
    } else if s != "" && s[|s| - 1] == '|' {
      var t := s[..|s| - 1];
      a, b := StripPipesExactly(t);
      assert s[a..b] == t[a..b];
    } else {
      a, b := 0, |s|;
    }
  }

  function Cells(inl: Inline, line: string): seq<string> {
    var parts := Split(StripPipes(inl.strip(line)), "|");
    seq(|parts|, i requires 0 <= i < |parts| => inl.strip(parts[i]))
  }

  predicate IsSeparator(inl: Inline, line: string) {
    && StartsWith(inl.strip(line), "|")
    && forall c | c in Cells(inl, line) :: c != "" ==> inl.dashes(c)
  }

  function Min(a: nat, b: nat): nat {
    if a < b then a else b
  }

  /** Cut or padded to the width. */
  function Padded(inl: Inline, cells: seq<string>, width: nat): seq<string> {
    seq(width, i requires 0 <= i < width => inl.plain(if i < |cells| then cells[i] else ""))
  }

  /** Some data row has text in the column, and all that do have a number. */
  ghost predicate Numeric(inl: Inline, data: seq<seq<string>>, c: nat) {
    && (exists r :: 0 <= r < |data| && HasText(inl, data[r], c))
    && (forall r | 0 <= r < |data| && HasText(inl, data[r], c) :: inl.numeric(data[r][c]))
  }

  predicate HasText(inl: Inline, row: seq<string>, c: nat) {
    c < |row| && inl.strip(row[c]) != ""
  }

  /** Column by column the row shows the cell of its line, or nothing where the line has none. */
  ghost predicate Shows(inl: Inline, row: seq<string>, cells: seq<string>, width: nat) {
    |row| == width && forall c | 0 <= c < width :: row[c] == inl.plain(if c < |cells| then cells[c] else "")
  }

  /** The table its lines spell: header row, then at most ninety-nine data rows, all as wide as the
      header up to the column limit. Alignment looks at every data row, shown or not. */
  ghost predicate Tabulates(inl: Inline, lines: seq<string>, b: Block)
    requires |lines| >= 2
  {
    var header := Cells(inl, lines[0]);
    var shown, width := if |lines| < 101 then |lines| - 2 else 99, if |header| < 20 then |header| else 20;
    && b.Table? && |b.rows| == shown + 1 && |b.settings| == width
    && Shows(inl, b.rows[0], header, width)
    && (forall r | 1 <= r <= shown :: Shows(inl, b.rows[r], Cells(inl, lines[r + 1]), width))
    && (forall c | 0 <= c < width :: b.settings[c] == Right <==> Numeric(inl, DataCells(inl, lines), c))
  }

  function DataCells(inl: Inline, lines: seq<string>): seq<seq<string>>
    requires |lines| >= 2
  {
    seq(|lines| - 2, i requires 0 <= i < |lines| - 2 => Cells(inl, lines[i + 2]))
  }

  method TableRows(inl: Inline, header: seq<string>, data: seq<seq<string>>, width: nat) returns (rows: seq<seq<string>>)
    ensures |rows| == (if |data| < 99 then |data| else 99) + 1 && Shows(inl, rows[0], header, width)
    ensures forall r | 1 <= r < |rows| :: Shows(inl, rows[r], data[r - 1], width)
  {
    rows := [Padded(inl, header, width)];
    for r := 0 to Min(|data|, MAX_ROWS - 1)
      invariant |rows| == r + 1 && Shows(inl, rows[0], header, width)
      invariant forall k | 1 <= k <= r :: Shows(inl, rows[k], data[k - 1], width)
    {
      rows := rows + [Padded(inl, data[r], width)];
    }
  }

  method TableSettings(inl: Inline, data: seq<seq<string>>, width: nat) returns (settings: seq<Align>)
    ensures |settings| == width && forall c | 0 <= c < width :: settings[c] == Right <==> Numeric(inl, data, c)
  {
    settings := [];
    for c := 0 to width
      invariant |settings| == c
      invariant forall k | 0 <= k < c :: settings[k] == Right <==> Numeric(inl, data, k)
    {
      var align := ColumnAlign(inl, data, c);
      settings := settings + [align];
    }
  }

  method TableToBlock(inl: Inline, lines: seq<string>) returns (b: Block)
    requires |lines| >= 2
    ensures Tabulates(inl, lines, b)
  {
    var header := Cells(inl, lines[0]);
    var width := Min(|header|, MAX_COLS);
    var data := DataCells(inl, lines);
    var rows := TableRows(inl, header, data, width);
    var settings := TableSettings(inl, data, width);
    b := Table(rows, settings);
    RowsOfLines(inl, lines, data, rows, width);
  }

  lemma RowsOfLines(inl: Inline, lines: seq<string>, data: seq<seq<string>>, rows: seq<seq<string>>, width: nat)
    requires |lines| >= 2 && data == DataCells(inl, lines) && |rows| <= |data| + 1
    requires forall r | 1 <= r < |rows| :: Shows(inl, rows[r], data[r - 1], width)
    ensures forall r | 1 <= r < |rows| :: Shows(inl, rows[r], Cells(inl, lines[r + 1]), width)
  {
    forall r | 1 <= r < |rows| ensures Shows(inl, rows[r], Cells(inl, lines[r + 1]), width) {
      assert data[r - 1] == Cells(inl, lines[r + 1]);
    }
  }

  method ColumnAlign(inl: Inline, data: seq<seq<string>>, c: nat) returns (align: Align)
    ensures align == Right <==> Numeric(inl, data, c)
  {
    var some, all := false, true;
    for r := 0 to |data|
      invariant some <==> exists k :: 0 <= k < r && HasText(inl, data[k], c)
      invariant all <==> forall k | 0 <= k < r && HasText(inl, data[k], c) :: inl.numeric(data[k][c])
    {
      if HasText(inl, data[r], c) {
        some := true;
        all := all && inl.numeric(data[r][c]);
      }
    }
    align := if some && all then Right else Left;
  }

  // ---------------------------------------------------------------- what lines spell

  datatype Item = Text(text: string) | Code(text: string) | Grid(lines: seq<string>) | Heading(text: string) | Rule

  function JoinLines(lines: seq<string>): string {
    if lines == [] then "" else Join(lines, NL)
  }

  function Paragraph(inl: Inline, para: seq<string>): seq<Item> {
    var joined := inl.strip(JoinLines(para));
    if para == [] || joined == "" then [] else [Text(joined)]
  }

  predicate IsFence(inl: Inline, line: string) {
    StartsWith(inl.strip(line), "```")
  }

  /** How many lines stand before the next fence. */
  function CodeLength(inl: Inline, lines: seq<string>): nat {
    if lines == [] || IsFence(inl, lines[0]) then 0 else 1 + CodeLength(inl, lines[1..])
  }

  /** How many table rows the lines start with. */
  function RowCount(inl: Inline, lines: seq<string>): nat {
    if lines == [] || !IsRow(inl, lines[0]) then 0 else 1 + RowCount(inl, lines[1..])
  }

  lemma {:induction false} Lengths(inl: Inline, lines: seq<string>)
    ensures CodeLength(inl, lines) <= |lines| && RowCount(inl, lines) <= |lines|
    ensures forall k | 0 <= k < CodeLength(inl, lines) :: !IsFence(inl, lines[k])
    ensures forall k | 0 <= k < RowCount(inl, lines) :: IsRow(inl, lines[k])
    ensures CodeLength(inl, lines) < |lines| ==> IsFence(inl, lines[CodeLength(inl, lines)])
    ensures RowCount(inl, lines) < |lines| ==> !IsRow(inl, lines[RowCount(inl, lines)])
  {
    if lines != [] { Lengths(inl, lines[1..]); }
  }

  predicate StartsTable(inl: Inline, lines: seq<string>) {
    |lines| > 1 && IsRow(inl, lines[0]) && IsSeparator(inl, lines[1])
  }

  /** The first item after the paragraph, and how many lines it takes. */
  function Next(inl: Inline, lines: seq<string>): (r: (seq<Item>, nat))
    requires lines != []
    ensures 0 < r.1 <= |lines|
  {
    var stripped := inl.strip(lines[0]);
    Lengths(inl, lines[1..]);
    if IsFence(inl, lines[0]) then
      var n := CodeLength(inl, lines[1..]);
      ([Code(JoinLines(lines[1..n + 1]))], Min(n + 2, |lines|))
    else if StartsTable(inl, lines) then
      Lengths(inl, lines[2..]);
      var n := RowCount(inl, lines[2..]);
      ([Grid(lines[..n + 2])], n + 2)
    else if inl.header(stripped).Some? then
      var text := inl.plain(inl.header(stripped).value);
      ([Heading(text[..Min(|text|, HEADER_LIMIT)])], 1)
    else if inl.divider(stripped) then ([Rule], 1)
    else ([], 1)
  }

  /** Neither a block of its own nor blank. */
  predicate IsProse(inl: Inline, lines: seq<string>)
    requires lines != []
  {
    var stripped := inl.strip(lines[0]);
    !IsFence(inl, lines[0]) && !StartsTable(inl, lines) && inl.header(stripped) == None && !inl.divider(stripped) && stripped != ""
  }

  /** The items the lines spell, after the lines of a paragraph already begun. */
  function Items(inl: Inline, lines: seq<string>, para: seq<string>): seq<Item>
    decreases |lines|
  {
    if lines == [] then Paragraph(inl, para)
    else if IsProse(inl, lines) then Items(inl, lines[1..], para + [inl.convert(lines[0])])
    else Paragraph(inl, para) + Next(inl, lines).0 + Items(inl, lines[Next(inl, lines).1..], [])
  }

  // ---------------------------------------------------------------- blocks

  ghost predicate IsSplit(chunks: seq<string>, text: string, max: nat) {
    && max > 0 && AllBroken(chunks, max) == Broken(text, max) && (exists starts :: Laid(text, NL + NL, chunks, starts, max))
    && (|text| <= max ==> chunks == [text])
    && (|text| > max ==> Chunks(chunks, max))
  }

  function Sections(chunks: seq<string>): seq<Block> {
    seq(|chunks|, i requires 0 <= i < |chunks| => Section(chunks[i]))
  }

  function Fenced(chunks: seq<string>): seq<Block> {
    seq(|chunks|, i requires 0 <= i < |chunks| => Section("```\n" + chunks[i] + "\n```"))
  }

  /** The blocks an item may become. */
  ghost predicate Renders(inl: Inline, item: Item, blocks: seq<Block>) {
    match item
    case Text(text) => exists chunks :: IsSplit(chunks, text, TEXT_LIMIT) && blocks == Sections(chunks)
    case Code(text) => exists chunks :: IsSplit(chunks, text, CODE_LIMIT) && blocks == Fenced(chunks)
    case Grid(lines) => |lines| >= 2 && |blocks| == 1 && Tabulates(inl, lines, blocks[0])
    case Heading(text) => blocks == [Header(text)]
    case Rule => blocks == [Divider]
  }

  ghost predicate AllRender(inl: Inline, items: seq<Item>, parts: seq<seq<Block>>) {
    |items| == |parts| && forall i | 0 <= i < |items| :: Renders(inl, items[i], parts[i])
  }

  function Flat(parts: seq<seq<Block>>): seq<Block> {
    if parts == [] then [] else Flat(parts[..|parts| - 1]) + parts[|parts| - 1]
  }

  /** Slack's limits on one block. */
  ghost predicate WithinLimits(b: Block) {
    match b
    case Section(text) => 0 < |text| <= 3000
    case Header(text) => |text| <= 150
    case Divider => true
    case Table(rows, settings) =>
      && 1 <= |rows| <= 100 && 1 <= |settings| <= 20
      && forall r | 0 <= r < |rows| :: |rows[r]| == |settings|
  }

  /** An item whose heading was cut and whose text is not blank. */
  ghost predicate Sound(item: Item) {
    match item
    case Text(text) => text != ""
    case Heading(text) => |text| <= HEADER_LIMIT
    case _ => true
  }

  lemma RendersWithin(inl: Inline, item: Item, blocks: seq<Block>)
    requires Sound(item) && Renders(inl, item, blocks)
    ensures forall i | 0 <= i < |blocks| :: WithinLimits(blocks[i])
  {
    match item {
      case Text(text) =>
        var chunks :| IsSplit(chunks, text, TEXT_LIMIT) && blocks == Sections(chunks);
        assert forall i | 0 <= i < |chunks| :: 0 < |chunks[i]| <= TEXT_LIMIT;
      case Code(text) =>
        var chunks :| IsSplit(chunks, text, CODE_LIMIT) && blocks == Fenced(chunks);
        assert forall i | 0 <= i < |chunks| :: |chunks[i]| <= CODE_LIMIT;
      case Grid(lines) => TableWithin(inl, lines, blocks[0]);
      case Heading(_) =>
      case Rule =>
    }
  }

  lemma TableWithin(inl: Inline, lines: seq<string>, b: Block)
    requires |lines| >= 2 && Tabulates(inl, lines, b)
    ensures WithinLimits(b)
  {
    JoinSplit(StripPipes(inl.strip(lines[0])), "|");
  }

  lemma {:induction false} FlatWithin(inl: Inline, items: seq<Item>, parts: seq<seq<Block>>)
    requires AllRender(inl, items, parts) && forall i | 0 <= i < |items| :: Sound(items[i])
    ensures forall i | 0 <= i < |Flat(parts)| :: WithinLimits(Flat(parts)[i])
  {
    if parts != [] {
      var n := |parts| - 1;
      FlatWithin(inl, items[..n], parts[..n]);
      RendersWithin(inl, items[n], parts[n]);
    }
  }

  lemma {:induction false} ItemsSound(inl: Inline, lines: seq<string>, para: seq<string>)
    ensures forall i | 0 <= i < |Items(inl, lines, para)| :: Sound(Items(inl, lines, para)[i])
    decreases |lines|
  {
    if lines != [] {
      if IsProse(inl, lines) {
        ItemsSound(inl, lines[1..], para + [inl.convert(lines[0])]);
      } else {
        ItemsSound(inl, lines[Next(inl, lines).1..], []);
      }
    }
  }

  /** Whatever the content, a message has at most fifty blocks and each is within Slack's limits. */
  lemma MessageWithinLimits(inl: Inline, content: string, parts: seq<seq<Block>>, blocks: seq<Block>)
    requires AllRender(inl, Items(inl, Split(content, NL), []), parts)
    requires blocks == Flat(parts)[..Min(|Flat(parts)|, MAX_BLOCKS)]
    ensures |blocks| <= 50 && forall i | 0 <= i < |blocks| :: WithinLimits(blocks[i])
  {
    ItemsSound(inl, Split(content, NL), []);
    FlatWithin(inl, Items(inl, Split(content, NL), []), parts);
  }

  // ---------------------------------------------------------------- the scanner

  lemma {:induction false} FlatConcat(s: seq<seq<Block>>, t: seq<seq<Block>>)
    ensures Flat(s + t) == Flat(s) + Flat(t)
  {
    if t == [] {
      assert s + t == s;
    } else {
      FlatConcat(s, t[..|t| - 1]);
      assert (s + t)[..|s + t| - 1] == s + t[..|t| - 1];
    }
  }

  lemma RenderConcat(inl: Inline, items: seq<Item>, parts: seq<seq<Block>>, items': seq<Item>, parts': seq<seq<Block>>)
    requires AllRender(inl, items, parts) && AllRender(inl, items', parts')
    ensures AllRender(inl, items + items', parts + parts')
  {
    forall i | 0 <= i < |items + items'| ensures Renders(inl, (items + items')[i], (parts + parts')[i]) {
      if i < |items| {
        assert Renders(inl, items[i], parts[i]);
      } else {
        assert Renders(inl, items'[i - |items|], parts'[i - |items|]);
      }
    }
  }

  lemma RenderOne(inl: Inline, item: Item, part: seq<Block>)
    requires Renders(inl, item, part)
    ensures AllRender(inl, [item], [part]) && Flat([part]) == part
  {
    assert [part][..0] == [];
  }

  method TextBlocks(inl: Inline, text: string) returns (blocks: seq<Block>)
    ensures Renders(inl, Text(text), blocks)
  {
    var chunks;
    ghost var starts;
    chunks, starts := SplitLongText(text, TEXT_LIMIT);
    assert IsSplit(chunks, text, TEXT_LIMIT);
    blocks := [];
    for i := 0 to |chunks|
      invariant blocks == Sections(chunks)[..i]
    {
      blocks := blocks + [Section(chunks[i])];
    }
  }

  method CodeBlocks(inl: Inline, text: string) returns (blocks: seq<Block>)
    ensures Renders(inl, Code(text), blocks)
  {
    var chunks;
    ghost var starts;
    chunks, starts := SplitLongText(text, CODE_LIMIT);
    assert IsSplit(chunks, text, CODE_LIMIT);
    blocks := [];
    for i := 0 to |chunks|
      invariant blocks == Fenced(chunks)[..i]
    {
      blocks := blocks + [Section("```\n" + chunks[i] + "\n```")];
    }
  }

  /** flush_para(). */
  method FlushParagraph(inl: Inline, para: seq<string>) returns (blocks: seq<Block>, ghost parts: seq<seq<Block>>)
    ensures AllRender(inl, Paragraph(inl, para), parts) && blocks == Flat(parts)
  {
    blocks, parts := [], [];
    if para != [] {
      var joined := inl.strip(JoinLines(para));
      if joined != "" {
        blocks := TextBlocks(inl, joined);
        parts := [blocks];
        RenderOne(inl, Text(joined), blocks);
      }
    }
  }

  lemma {:induction false} CodeLengthIs(inl: Inline, lines: seq<string>, n: nat)
    requires n <= |lines| && forall k | 0 <= k < n :: !IsFence(inl, lines[k])
    requires n < |lines| ==> IsFence(inl, lines[n])
    ensures CodeLength(inl, lines) == n
  {
    if n > 0 { CodeLengthIs(inl, lines[1..], n - 1); }
  }

  lemma {:induction false} RowCountIs(inl: Inline, lines: seq<string>, n: nat)
    requires n <= |lines| && forall k | 0 <= k < n :: IsRow(inl, lines[k])
    requires n < |lines| ==> !IsRow(inl, lines[n])
    ensures RowCount(inl, lines) == n
  {
    if n > 0 { RowCountIs(inl, lines[1..], n - 1); }
  }

  /** Lines from `i` to the closing fence, which is consumed too; `next` is past the end when there
      is none. */
  method ReadCode(inl: Inline, lines: seq<string>, i: nat) returns (code: seq<string>, next: nat)
    requires i <= |lines|
    ensures |code| == CodeLength(inl, lines[i..]) && next == i + |code| + 1
    ensures i + |code| <= |lines| && code == lines[i..i + |code|]
  {
    code, next := [], i;
    while next < |lines| && !IsFence(inl, lines[next])
      invariant i <= next <= |lines| && code == lines[i..next]
      invariant forall k | i <= k < next :: !IsFence(inl, lines[k])
    {
      code := code + [lines[next]];
      next := next + 1;
    }
    CodeLengthIs(inl, lines[i..], next - i);
    next := next + 1;
  }

  /** The table starting at `i`. */
  method ReadTable(inl: Inline, lines: seq<string>, i: nat) returns (table: seq<string>, next: nat)
    requires i + 2 <= |lines|
    ensures |table| == RowCount(inl, lines[i + 2..]) + 2 && next == i + |table|
    ensures i + |table| <= |lines| && table == lines[i..i + |table|]
  {
    table, next := [lines[i], lines[i + 1]], i + 2;
    while next < |lines| && IsRow(inl, lines[next])
      invariant i + 2 <= next <= |lines| && table == lines[i..next]
      invariant forall k | i + 2 <= k < next :: IsRow(inl, lines[k])
    {
      table := table + [lines[next]];
      next := next + 1;
    }
    RowCountIs(inl, lines[i + 2..], next - i - 2);
  }

  function Rest(lines: seq<string>, i: nat): seq<string> {
    if i <= |lines| then lines[i..] else []
  }

  /** The blocks so far are those of `items`, and the lines left spell the rest. */
  ghost predicate Scanned(inl: Inline, lines: seq<string>, i: nat, para: seq<string>,
                          items: seq<Item>, parts: seq<seq<Block>>, blocks: seq<Block>) {
    && AllRender(inl, items, parts) && blocks == Flat(parts)
    && items + Items(inl, Rest(lines, i), para) == Items(inl, lines, [])
  }

  lemma ScanProse(inl: Inline, lines: seq<string>, i: nat, para: seq<string>, items: seq<Item>, parts: seq<seq<Block>>, blocks: seq<Block>)
    requires i < |lines| && Scanned(inl, lines, i, para, items, parts, blocks) && IsProse(inl, lines[i..])
    ensures Scanned(inl, lines, i + 1, para + [inl.convert(lines[i])], items, parts, blocks)
  {
    assert lines[i..][1..] == lines[i + 1..];
  }

  /** The paragraph is closed, and the blocks of what starts here follow it. */
  lemma ScanBlock(inl: Inline, lines: seq<string>, i: nat, para: seq<string>, items: seq<Item>, parts: seq<seq<Block>>, blocks: seq<Block>,
                  closing: seq<seq<Block>>, item: seq<Item>, made: seq<seq<Block>>, next: nat)
    requires i < |lines| && Scanned(inl, lines, i, para, items, parts, blocks) && !IsProse(inl, lines[i..])
    requires AllRender(inl, Paragraph(inl, para), closing) && AllRender(inl, item, made)
    requires item == Next(inl, lines[i..]).0
    requires Rest(lines, next) == lines[i..][Next(inl, lines[i..]).1..]
    ensures Scanned(inl, lines, next, [], items + Paragraph(inl, para) + item, parts + closing + made,
                    blocks + Flat(closing) + Flat(made))
  {
    RenderConcat(inl, items, parts, Paragraph(inl, para), closing);
    RenderConcat(inl, items + Paragraph(inl, para), parts + closing, item, made);
    FlatConcat(parts, closing);
    FlatConcat(parts + closing, made);
    Reassociate(items, Paragraph(inl, para), item, Items(inl, Rest(lines, next), []));
  }

  lemma Reassociate(a: seq<Item>, b: seq<Item>, c: seq<Item>, d: seq<Item>)
    ensures (a + b + c) + d == a + (b + c + d)
  {
  }

  lemma NextIsCode(inl: Inline, lines: seq<string>, i: nat, code: seq<string>, next: nat)
    requires i < |lines| && IsFence(inl, lines[i]) && |code| == CodeLength(inl, lines[i + 1..])
    requires i + 1 + |code| <= |lines| && code == lines[i + 1..i + 1 + |code|] && next == i + |code| + 2
    ensures !IsProse(inl, lines[i..]) && Next(inl, lines[i..]).0 == [Code(JoinLines(code))]
    ensures Rest(lines, next) == lines[i..][Next(inl, lines[i..]).1..]
  {
    var here := lines[i..];
    assert here[1..] == lines[i + 1..];
    assert here[1..|code| + 1] == code;
  }

  lemma NextIsTable(inl: Inline, lines: seq<string>, i: nat, table: seq<string>, next: nat)
    requires i + 1 < |lines| && !IsFence(inl, lines[i]) && IsRow(inl, lines[i]) && IsSeparator(inl, lines[i + 1])
    requires |table| == RowCount(inl, lines[i + 2..]) + 2 && next == i + |table| <= |lines| && table == lines[i..next]
    ensures !IsProse(inl, lines[i..]) && Next(inl, lines[i..]).0 == [Grid(table)]
    ensures Rest(lines, next) == lines[i..][Next(inl, lines[i..]).1..]
  {
    var here := lines[i..];
    assert here[2..] == lines[i + 2..];
    assert here[..|table|] == table;
    assert StartsTable(inl, here);
  }

  /** markdown_to_slack_blocks(). */
  method MarkdownToBlocks(inl: Inline, content: string) returns (message: seq<Block>, ghost parts: seq<seq<Block>>)
    ensures AllRender(inl, Items(inl, Split(content, NL), []), parts)
    ensures message == Flat(parts)[..Min(|Flat(parts)|, 50)]
    ensures |message| <= 50 && forall i | 0 <= i < |message| :: WithinLimits(message[i])
  {
    var lines := Split(content, NL);
    var blocks: seq<Block> := [];
    var para: seq<string> := [];
    ghost var items: seq<Item> := [];
    parts := [];
    var i := 0;
    while i < |lines|
      invariant Scanned(inl, lines, i, para, items, parts, blocks)
    {
      var line := lines[i];
      var stripped := inl.strip(line);
      if StartsWith(stripped, "```") {
        i, items, blocks, parts := CodeAt(inl, lines, i, para, blocks, items, parts);
        para := [];
      } else if IsRow(inl, line) && i + 1 < |lines| && IsSeparator(inl, lines[i + 1]) {
        i, items, blocks, parts := TableAt(inl, lines, i, para, blocks, items, parts);
        para := [];
      } else if inl.header(stripped).Some? || inl.divider(stripped) || stripped == "" {
        i, items, blocks, parts := LineAt(inl, lines, i, para, blocks, items, parts);
        para := [];
      } else {
        ScanProse(inl, lines, i, para, items, parts, blocks);
        para, i := para + [inl.convert(line)], i + 1;
      }
    }
    var flushed; ghost var closing;
    flushed, closing := FlushParagraph(inl, para);
    RenderConcat(inl, items, parts, Paragraph(inl, para), closing);
    FlatConcat(parts, closing);
    blocks, parts := blocks + flushed, parts + closing;
    message := blocks[..Min(|blocks|, MAX_BLOCKS)];
    MessageWithinLimits(inl, content, parts, message);
  }

  /** A heading, a divider or a blank line. */
  method LineAt(inl: Inline, lines: seq<string>, i: nat, para: seq<string>, blocks: seq<Block>,
                ghost items: seq<Item>, ghost parts: seq<seq<Block>>)
    returns (next: nat, ghost items': seq<Item>, blocks': seq<Block>, ghost parts': seq<seq<Block>>)
    requires i < |lines| && Scanned(inl, lines, i, para, items, parts, blocks)
    requires !IsFence(inl, lines[i]) && !StartsTable(inl, lines[i..]) && !IsProse(inl, lines[i..])
    ensures next == i + 1 && Scanned(inl, lines, next, [], items', parts', blocks')
  {
    var stripped := inl.strip(lines[i]);
    var flushed; ghost var closing;
    flushed, closing := FlushParagraph(inl, para);
    var made: seq<Block> := [];
    ghost var item: seq<Item>, part: seq<seq<Block>> := [], [];
    if inl.header(stripped).Some? {
      var text := inl.plain(inl.header(stripped).value);
      made := [Header(text[..Min(|text|, HEADER_LIMIT)])];
      item, part := [Heading(made[0].text)], [made];
      RenderOne(inl, item[0], made);
    } else if inl.divider(stripped) {
      made := [Divider];
      item, part := [Rule], [made];
      RenderOne(inl, Rule, made);
    }
    next := i + 1;
    ScanBlock(inl, lines, i, para, items, parts, blocks, closing, item, part, next);
    items', parts' := items + Paragraph(inl, para) + item, parts + closing + part;
    blocks' := blocks + flushed + made;
  }

  method CodeAt(inl: Inline, lines: seq<string>, i: nat, para: seq<string>, blocks: seq<Block>,
                ghost items: seq<Item>, ghost parts: seq<seq<Block>>)
    returns (next: nat, ghost items': seq<Item>, blocks': seq<Block>, ghost parts': seq<seq<Block>>)
    requires i < |lines| && Scanned(inl, lines, i, para, items, parts, blocks) && IsFence(inl, lines[i])
    ensures next > i && Scanned(inl, lines, next, [], items', parts', blocks')
  {
    var flushed; ghost var closing;
    flushed, closing := FlushParagraph(inl, para);
    var code;
    code, next := ReadCode(inl, lines, i + 1);
    var made := CodeBlocks(inl, JoinLines(code));
    NextIsCode(inl, lines, i, code, next);
    RenderOne(inl, Code(JoinLines(code)), made);
    ScanBlock(inl, lines, i, para, items, parts, blocks, closing, [Code(JoinLines(code))], [made], next);
    items', parts' := items + Paragraph(inl, para) + [Code(JoinLines(code))], parts + closing + [made];
    blocks' := blocks + flushed + made;
  }

  method TableAt(inl: Inline, lines: seq<string>, i: nat, para: seq<string>, blocks: seq<Block>,
                 ghost items: seq<Item>, ghost parts: seq<seq<Block>>)
    returns (next: nat, ghost items': seq<Item>, blocks': seq<Block>, ghost parts': seq<seq<Block>>)
    requires i + 1 < |lines| && Scanned(inl, lines, i, para, items, parts, blocks)
    requires !IsFence(inl, lines[i]) && IsRow(inl, lines[i]) && IsSeparator(inl, lines[i + 1])
    ensures next > i && Scanned(inl, lines, next, [], items', parts', blocks')
  {
    var flushed; ghost var closing;
    flushed, closing := FlushParagraph(inl, para);
    var table;
    table, next := ReadTable(inl, lines, i);
    var made := TableToBlock(inl, table);
    NextIsTable(inl, lines, i, table, next);
    RenderOne(inl, Grid(table), [made]);
    ScanBlock(inl, lines, i, para, items, parts, blocks, closing, [Grid(table)], [[made]], next);
    items', parts' := items + Paragraph(inl, para) + [Grid(table)], parts + closing + [[made]];
    blocks' := blocks + flushed + [made];
  }

  // ---------------------------------------------------------------- blank lines

  /** Facts of the patterns: a blank line is not a heading or a divider. */
  ghost predicate BlankIsBlank(inl: Inline) {
    inl.strip("") == "" && inl.header("") == None && !inl.divider("")
  }

  /** Every code fence the scan opens is closed again. */
  predicate FencesClosed(inl: Inline, lines: seq<string>)
    decreases |lines|
  {
    lines == [] || (
      && (IsFence(inl, lines[0]) ==> CodeLength(inl, lines[1..]) < |lines| - 1)
      && FencesClosed(inl, lines[Next(inl, lines).1..]))
  }

  /** What starts in `a` ends in `a`: a blank line after it changes nothing. */
  lemma NextBeforeBlank(inl: Inline, a: seq<string>, b: seq<string>)
    requires BlankIsBlank(inl) && a != [] && (IsFence(inl, a[0]) ==> CodeLength(inl, a[1..]) < |a| - 1)
    ensures Next(inl, a + [""] + b) == Next(inl, a) && IsProse(inl, a + [""] + b) == IsProse(inl, a)
  {
    var whole := a + [""] + b;
    assert whole[1..] == a[1..] + [""] + b;
    if IsFence(inl, a[0]) {
      var n := CodeLength(inl, a[1..]);
      Lengths(inl, a[1..]);
      CodeLengthIs(inl, whole[1..], n);
      assert whole[1..n + 1] == a[1..n + 1];
    } else if StartsTable(inl, a) {
      var n := RowCount(inl, a[2..]);
      assert whole[2..] == a[2..] + [""] + b;
      Lengths(inl, a[2..]);
      RowCountIs(inl, whole[2..], n);
      assert whole[..n + 2] == a[..n + 2];
    } else {
      assert |a| == 1 ==> whole[1] == "";
      assert !StartsTable(inl, whole);
    }
  }

  /** A blank line separates, one way: as long as code fences are closed, what stands before it and what stands
      after it are rendered independently. */
  lemma {:induction false} ClosedSeparates(inl: Inline, a: seq<string>, b: seq<string>, para: seq<string>)
    requires BlankIsBlank(inl) && FencesClosed(inl, a)
    ensures Items(inl, a + [""] + b, para) == Items(inl, a, para) + Items(inl, b, [])
    decreases |a|
  {
    var whole := a + [""] + b;
    if a == [] {
      assert whole[0] == "" && whole[1..] == b;
      assert Next(inl, whole) == ([], 1);
    } else {
      NextBeforeBlank(inl, a, b);
      var n := Next(inl, a).1;
      DropFront(a, b, n);
      if IsProse(inl, a) {
        ClosedSeparates(inl, a[1..], b, para + [inl.convert(a[0])]);
      } else {
        ClosedSeparates(inl, a[n..], b, []);
        Regroup(Paragraph(inl, para) + Next(inl, a).0, Items(inl, a[n..], []), Items(inl, b, []));
      }
    }
  }

  lemma DropFront(a: seq<string>, b: seq<string>, n: nat)
    requires n <= |a|
    ensures (a + [""] + b)[n..] == a[n..] + [""] + b
  {
  }

  lemma {:induction false} JoinLonger(lines: seq<string>)
    requires lines != []
    ensures |Join(lines + ["", ""], NL)| == |Join(lines, NL)| + 2
  {
    var more := lines + ["", ""];
    if |lines| == 1 {
      assert more[1..] == ["", ""] && ["", ""][1..] == [""];
    } else {
      assert more[1..] == lines[1..] + ["", ""];
      JoinLonger(lines[1..]);
    }
  }

  lemma JoinDiffers(lines: seq<string>)
    ensures JoinLines(lines + ["", ""]) != JoinLines(lines)
  {
    if lines == [] {
      assert lines + ["", ""] == ["", ""] && ["", ""][1..] == [""];
      assert Join(["", ""], NL) == "" + NL + Join([""], NL);
    } else {
      JoinLonger(lines);
    }
  }

  lemma OneBlank(inl: Inline)
    requires BlankIsBlank(inl)
    ensures Items(inl, [""], []) == []
  {
    assert Next(inl, [""]) == ([], 1) && [""][1..] == [];
  }

  lemma OpenFence(inl: Inline, lines: seq<string>, para: seq<string>)
    requires lines != [] && IsFence(inl, lines[0]) && CodeLength(inl, lines[1..]) == |lines| - 1
    ensures Items(inl, lines, para) == Paragraph(inl, para) + [Code(JoinLines(lines[1..]))]
  {
    assert lines[1..|lines|] == lines[1..] && lines[|lines|..] == [];
  }

  /** A fence left open swallows the blank line and what follows it. */
  lemma {:induction false} OpenFenceSwallows(inl: Inline, a: seq<string>, para: seq<string>)
    requires BlankIsBlank(inl) && !FencesClosed(inl, a)
    ensures Items(inl, a + [""] + [""], para) != Items(inl, a, para)
    decreases |a|
  {
    var whole := a + [""] + [""];
    Lengths(inl, a[1..]);
    if IsFence(inl, a[0]) && CodeLength(inl, a[1..]) == |a| - 1 {
      assert whole[1..] == a[1..] + ["", ""];
      CodeLengthIs(inl, whole[1..], |whole| - 1);
      OpenFence(inl, a, para);
      OpenFence(inl, whole, para);
      JoinDiffers(a[1..]);
      assert (Paragraph(inl, para) + [Code(JoinLines(whole[1..]))])[|Paragraph(inl, para)|] == Code(JoinLines(whole[1..]));
    } else {
      NextBeforeBlank(inl, a, [""]);
      var n := Next(inl, a).1;
      DropFront(a, [""], n);
      if IsProse(inl, a) {
        OpenFenceSwallows(inl, a[1..], para + [inl.convert(a[0])]);
      } else {
        OpenFenceSwallows(inl, a[n..], []);
        SamePrefix(Paragraph(inl, para) + Next(inl, a).0, Items(inl, whole[n..], []), Items(inl, a[n..], []));
      }
    }
  }

  lemma SamePrefix(p: seq<Item>, a: seq<Item>, b: seq<Item>)
    ensures a != b ==> p + a != p + b
  {
    if p + a == p + b {
      assert a == (p + a)[|p|..] && b == (p + b)[|p|..];
    }
  }

  /** What stands before the blank line and what stands after it are rendered independently. */
  ghost predicate Separates(inl: Inline, a: seq<string>, b: seq<string>) {
    Items(inl, a + [""] + b, []) == Items(inl, a, []) + Items(inl, b, [])
  }

  /** A blank line separates what is before it from whatever follows, exactly when the code fences before
      it are closed. */
  lemma BlankLineSeparates(inl: Inline, a: seq<string>)
    requires BlankIsBlank(inl)
    ensures (forall b :: Separates(inl, a, b)) <==> FencesClosed(inl, a)
  {
    if FencesClosed(inl, a) {
      forall b ensures Separates(inl, a, b) { ClosedSeparates(inl, a, b, []); }
    } else {
      OpenFenceSwallows(inl, a, []);
      OneBlank(inl);
      assert Items(inl, a, []) + [] == Items(inl, a, []);
      assert !Separates(inl, a, [""]);
    }
  }

  // ---------------------------------------------------------------- a grammar for lines

  /** A stretch of lines that spells one thing. */
  datatype Segment =
    | Prose(lines: seq<string>)
    | BlankLine(line: string)
    | HeadingLine(line: string)
    | RuleLine(line: string)
    | FencedCode(fence: string, body: seq<string>, closed: bool, close: string)
    | TableLines(lines: seq<string>)

  function LinesOf(seg: Segment): seq<string> {
    match seg
    case Prose(lines) => lines
    case BlankLine(line) => [line]
    case HeadingLine(line) => [line]
    case RuleLine(line) => [line]
    case FencedCode(fence, body, closed, close) => if closed then [fence] + body + [close] else [fence] + body
    case TableLines(lines) => lines
  }

  /** A line that begins neither code nor a table, given the lines after it. */
  predicate IsOrdinary(inl: Inline, line: string, after: seq<string>) {
    !StartsWith(inl.strip(line), "```") && !(IsRow(inl, line) && after != [] && IsSeparator(inl, after[0]))
  }

  predicate IsText(inl: Inline, line: string, after: seq<string>) {
    var stripped := inl.strip(line);
    IsOrdinary(inl, line, after) && inl.header(stripped) == None && !inl.divider(stripped) && stripped != ""
  }

  /** The stretch is what it says, and goes on as far as it can. */
  ghost predicate WellFormed(inl: Inline, seg: Segment, after: seq<string>) {
    match seg
    case Prose(lines) =>
      && lines != [] && (forall k | 0 <= k < |lines| :: IsText(inl, lines[k], lines[k + 1..] + after))
      && (after != [] ==> !IsText(inl, after[0], after[1..]))
    case BlankLine(line) =>
      IsOrdinary(inl, line, after) && inl.header(inl.strip(line)) == None && !inl.divider(inl.strip(line)) && inl.strip(line) == ""
    case HeadingLine(line) => IsOrdinary(inl, line, after) && inl.header(inl.strip(line)).Some?
    case RuleLine(line) => IsOrdinary(inl, line, after) && inl.header(inl.strip(line)) == None && inl.divider(inl.strip(line))
    case FencedCode(fence, body, closed, close) =>
      && IsFence(inl, fence) && (forall k | 0 <= k < |body| :: !IsFence(inl, body[k]))
      && (if closed then IsFence(inl, close) else after == [])
    case TableLines(lines) =>
      && |lines| >= 2 && !IsFence(inl, lines[0]) && IsRow(inl, lines[0]) && IsSeparator(inl, lines[1])
      && (forall k | 2 <= k < |lines| :: IsRow(inl, lines[k])) && (after != [] ==> !IsRow(inl, after[0]))
  }

  function Converted(inl: Inline, lines: seq<string>): seq<string> {
    seq(|lines|, k requires 0 <= k < |lines| => inl.convert(lines[k]))
  }

  /** What a stretch spells. */
  function Spelled(inl: Inline, seg: Segment): seq<Item> {
    match seg
    case Prose(lines) =>
      var text := inl.strip(JoinLines(Converted(inl, lines)));
      if text == "" then [] else [Text(text)]
    case BlankLine(_) => []
    case HeadingLine(line) =>
      var heading := inl.header(inl.strip(line));
      if heading == None then [] else
      var text := inl.plain(heading.value);
      [Heading(if |text| <= 150 then text else text[..150])]
    case RuleLine(_) => [Rule]
    case FencedCode(_, body, _, _) => [Code(JoinLines(body))]
    case TableLines(lines) => [Grid(lines)]
  }

  ghost predicate Parses(inl: Inline, lines: seq<string>, segs: seq<Segment>)
    decreases |segs|
  {
    if segs == [] then lines == [] else
    && LinesOf(segs[0]) <= lines
    && WellFormed(inl, segs[0], lines[|LinesOf(segs[0])|..])
    && Parses(inl, lines[|LinesOf(segs[0])|..], segs[1..])
  }

  function AllSpelled(inl: Inline, segs: seq<Segment>): seq<Item> {
    if segs == [] then [] else Spelled(inl, segs[0]) + AllSpelled(inl, segs[1..])
  }

  lemma TextIsProse(inl: Inline, lines: seq<string>)
    requires lines != []
    ensures IsProse(inl, lines) <==> IsText(inl, lines[0], lines[1..])
  {
    assert |lines| > 1 ==> lines[1..][0] == lines[1];
  }

  /** Lines of prose join the paragraph begun before them. */
  lemma {:induction false} ProseJoins(inl: Inline, prose: seq<string>, after: seq<string>, para: seq<string>)
    requires forall k | 0 <= k < |prose| :: IsText(inl, prose[k], prose[k + 1..] + after)
    ensures Items(inl, prose + after, para) == Items(inl, after, para + Converted(inl, prose))
    decreases |prose|
  {
    if prose == [] {
      assert prose + after == after && para + Converted(inl, prose) == para;
    } else {
      var all, rest := prose + after, prose[1..];
      assert all[0] == prose[0] && all[1..] == rest + after;
      TextIsProse(inl, all);
      forall k | 0 <= k < |rest| ensures IsText(inl, rest[k], rest[k + 1..] + after) {
        assert rest[k] == prose[k + 1] && rest[k + 1..] == prose[k + 2..];
      }
      ProseJoins(inl, rest, after, para + [inl.convert(prose[0])]);
      assert para + Converted(inl, prose) == (para + [inl.convert(prose[0])]) + Converted(inl, rest);
    }
  }

  /** A paragraph ends where the next line is not prose. */
  lemma ParagraphEnds(inl: Inline, lines: seq<string>, para: seq<string>)
    requires lines != [] ==> !IsText(inl, lines[0], lines[1..])
    ensures Items(inl, lines, para) == Paragraph(inl, para) + Items(inl, lines, [])
  {
    if lines == [] {
      assert Paragraph(inl, []) == [];
    } else {
      TextIsProse(inl, lines);
      var next := Next(inl, lines);
      assert Paragraph(inl, []) == [];
      Regroup(Paragraph(inl, para), next.0, Items(inl, lines[next.1..], []));
      assert [] + next.0 == next.0;
    }
  }

  lemma ProseSpelled(inl: Inline, prose: seq<string>, after: seq<string>)
    requires WellFormed(inl, Prose(prose), after)
    ensures Items(inl, prose + after, []) == Spelled(inl, Prose(prose)) + Items(inl, after, [])
  {
    ProseJoins(inl, prose, after, []);
    assert [] + Converted(inl, prose) == Converted(inl, prose);
    ParagraphEnds(inl, after, Converted(inl, prose));
  }

  /** Past a line that is not prose, the items are those it begins and those of the lines after them. */
  lemma TakeNext(inl: Inline, lines: seq<string>, items: seq<Item>, after: seq<string>)
    requires lines != [] && !IsText(inl, lines[0], lines[1..])
    requires Next(inl, lines).0 == items && lines[Next(inl, lines).1..] == after
    ensures Items(inl, lines, []) == items + Items(inl, after, [])
  {
    TextIsProse(inl, lines);
    assert Paragraph(inl, []) == [];
    assert [] + items == items;
  }

  lemma OneLineSpelled(inl: Inline, seg: Segment, after: seq<string>)
    requires (seg.BlankLine? || seg.HeadingLine? || seg.RuleLine?) && WellFormed(inl, seg, after)
    ensures Items(inl, [seg.line] + after, []) == Spelled(inl, seg) + Items(inl, after, [])
  {
    var all := [seg.line] + after;
    assert all[1..] == after && (|all| > 1 ==> all[1] == after[0]);
    if seg.HeadingLine? {
      var text := inl.plain(inl.header(inl.strip(seg.line)).value);
      assert text[..|text|] == text;
    }
    TakeNext(inl, all, Spelled(inl, seg), after);
  }

  /** A fence and its body, with the line that closes it or nothing after it. */
  lemma CodeNext(inl: Inline, fence: string, body: seq<string>, tail: seq<string>)
    requires IsFence(inl, fence) && forall k | 0 <= k < |body| :: !IsFence(inl, body[k])
    requires tail != [] ==> IsFence(inl, tail[0])
    ensures Next(inl, [fence] + body + tail) == ([Code(JoinLines(body))], Min(|body| + 2, |[fence] + body + tail|))
  {
    var all := [fence] + body + tail;
    assert all[1..] == body + tail;
    CodeLengthIs(inl, all[1..], |body|);
    assert all[1..|body| + 1] == body;
  }

  lemma CodeSpelled(inl: Inline, seg: Segment, after: seq<string>)
    requires seg.FencedCode? && WellFormed(inl, seg, after)
    ensures Items(inl, LinesOf(seg) + after, []) == Spelled(inl, seg) + Items(inl, after, [])
  {
    var tail := if seg.closed then [seg.close] + after else [];
    var all := [seg.fence] + seg.body + tail;
    assert LinesOf(seg) + after == all;
    CodeNext(inl, seg.fence, seg.body, tail);
    assert all[|LinesOf(seg)|..] == after;
    TakeNext(inl, all, Spelled(inl, seg), after);
  }

  lemma TableSpelled(inl: Inline, table: seq<string>, after: seq<string>)
    requires WellFormed(inl, TableLines(table), after)
    ensures Items(inl, table + after, []) == [Grid(table)] + Items(inl, after, [])
  {
    var all, n := table + after, |table| - 2;
    assert all[0] == table[0] && all[1] == table[1] && all[2..] == table[2..] + after;
    RowCountIs(inl, all[2..], n);
    assert StartsTable(inl, all);
    assert all[..n + 2] == table && all[n + 2..] == after;
    assert all[1..][0] == table[1];
    TakeNext(inl, all, [Grid(table)], after);
  }

  /** However lines are parsed by the grammar, the scanner finds exactly the items it spells. */
  lemma {:induction false} ItemsFollowGrammar(inl: Inline, lines: seq<string>, segs: seq<Segment>)
    requires Parses(inl, lines, segs)
    ensures Items(inl, lines, []) == AllSpelled(inl, segs)
    decreases |segs|
  {
    if segs == [] {
      assert Paragraph(inl, []) == [];
    } else {
      var seg := segs[0];
      var after := lines[|LinesOf(seg)|..];
      assert lines == LinesOf(seg) + after;
      ItemsFollowGrammar(inl, after, segs[1..]);
      match seg {
        case Prose(prose) => ProseSpelled(inl, prose, after);
        case FencedCode(_, _, _, _) => CodeSpelled(inl, seg, after);
        case TableLines(table) => TableSpelled(inl, table, after);
        case _ => OneLineSpelled(inl, seg, after);
      }
    }
  }

  /** How many lines of prose the lines start with. */
  function ProseLength(inl: Inline, lines: seq<string>): nat {
    if lines == [] || !IsText(inl, lines[0], lines[1..]) then 0 else 1 + ProseLength(inl, lines[1..])
  }

  lemma {:induction false} ProseLengthIs(inl: Inline, lines: seq<string>)
    ensures ProseLength(inl, lines) <= |lines|
    ensures forall k | 0 <= k < ProseLength(inl, lines) :: IsText(inl, lines[k], lines[k + 1..])
    ensures var n := ProseLength(inl, lines); n < |lines| ==> !IsText(inl, lines[n], lines[n + 1..])
  {
    if lines != [] && IsText(inl, lines[0], lines[1..]) {
      var rest, n := lines[1..], ProseLength(inl, lines);
      ProseLengthIs(inl, rest);
      forall k | 0 <= k < n ensures IsText(inl, lines[k], lines[k + 1..]) {
        assert k > 0 ==> rest[k - 1] == lines[k] && rest[k..] == lines[k + 1..];
      }
      assert n < |lines| ==> rest[n - 1] == lines[n] && rest[n..] == lines[n + 1..];
    }
  }

  lemma ProseSegment(inl: Inline, lines: seq<string>) returns (seg: Segment)
    requires lines != [] && IsText(inl, lines[0], lines[1..])
    ensures LinesOf(seg) != [] && LinesOf(seg) <= lines && WellFormed(inl, seg, lines[|LinesOf(seg)|..])
  {
    ProseLengthIs(inl, lines);
    var n := ProseLength(inl, lines);
    var prose, after := lines[..n], lines[n..];
    forall k | 0 <= k < n ensures IsText(inl, prose[k], prose[k + 1..] + after) {
      assert prose[k] == lines[k] && prose[k + 1..] + after == lines[k + 1..];
    }
    assert after != [] ==> after[0] == lines[n] && after[1..] == lines[n + 1..];
    seg := Prose(prose);
  }

  lemma CodeSegment(inl: Inline, lines: seq<string>) returns (seg: Segment)
    requires lines != [] && IsFence(inl, lines[0])
    ensures LinesOf(seg) != [] && LinesOf(seg) <= lines && WellFormed(inl, seg, lines[|LinesOf(seg)|..])
  {
    var rest := lines[1..];
    Lengths(inl, rest);
    var n := CodeLength(inl, rest);
    seg := if n < |rest| then FencedCode(lines[0], rest[..n], true, rest[n]) else FencedCode(lines[0], rest, false, "");
    assert n < |rest| ==> LinesOf(seg) == lines[..n + 2];
    assert n == |rest| ==> LinesOf(seg) == lines;
  }

  lemma TableSegment(inl: Inline, lines: seq<string>) returns (seg: Segment)
    requires StartsTable(inl, lines) && !IsFence(inl, lines[0])
    ensures LinesOf(seg) != [] && LinesOf(seg) <= lines && WellFormed(inl, seg, lines[|LinesOf(seg)|..])
  {
    var rest := lines[2..];
    Lengths(inl, rest);
    var n := RowCount(inl, rest);
    var table := lines[..n + 2];
    forall k | 2 <= k < |table| ensures IsRow(inl, table[k]) {
      assert table[k] == rest[k - 2];
    }
    assert n < |rest| ==> lines[n + 2..][0] == rest[n];
    seg := TableLines(table);
  }

  /** Every stretch of lines starts with a segment. */
  lemma FirstSegment(inl: Inline, lines: seq<string>) returns (seg: Segment)
    requires lines != []
    ensures LinesOf(seg) != [] && LinesOf(seg) <= lines && WellFormed(inl, seg, lines[|LinesOf(seg)|..])
  {
    var stripped := inl.strip(lines[0]);
    TextIsProse(inl, lines);
    if IsFence(inl, lines[0]) {
      seg := CodeSegment(inl, lines);
    } else if StartsTable(inl, lines) {
      seg := TableSegment(inl, lines);
    } else if IsText(inl, lines[0], lines[1..]) {
      seg := ProseSegment(inl, lines);
    } else {
      assert |lines| > 1 ==> lines[1..][0] == lines[1];
      seg := if inl.header(stripped).Some? then HeadingLine(lines[0])
        else if inl.divider(stripped) then RuleLine(lines[0]) else BlankLine(lines[0]);
    }
  }

  /** Whatever the lines, the grammar parses them. */
  lemma {:induction false} EverythingParses(inl: Inline, lines: seq<string>) returns (segs: seq<Segment>)
    ensures Parses(inl, lines, segs)
    decreases |lines|
  {
    segs := [];
    if lines != [] {
      var seg := FirstSegment(inl, lines);
      var rest := EverythingParses(inl, lines[|LinesOf(seg)|..]);
      segs := [seg] + rest;
      assert segs[1..] == rest;
    }
  }
}
