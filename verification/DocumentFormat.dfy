/**
 The paragraph format: how the lines of a document are grouped into chunks, and how each chunk
 becomes a block.
 */
module DocumentFormat {
  import opened Text
  import opened AttributeList

  datatype Kind = Code | Atom | Header | Normal | AutoNormal

  datatype Options = Options(
    breakOnEmptyLine: bool, breakOnCodeBlock: bool, breakOnHeader: bool, breakOnNormal: bool)

  const WHOLE_DOCUMENT := Options(false, true, true, true)

  const SINGLE_PARAGRAPH := Options(false, false, false, false)

  /** A parsed paragraph. */
  datatype Block = Block(
    md: string, kind: Kind, id: Option<AttrVal>, t: Option<AttrVal>, attrs: Tokens, error: bool)

  /** Consecutive lines that form one block. */
  datatype Chunk =
    | Fence(start: string, body: seq<string>, close: Option<string>)
    | Heading(start: string, body: seq<string>)
    | Plain(body: seq<string>)

  predicate IsFence(line: string) {
    StartsWith(line, "```") || StartsWith(line, "~~~")
  }

  /** The run of backticks or tildes that opens a fence. */
  function Marker(line: string): (m: string)
    requires IsFence(line)
    ensures |m| >= 3 && m <= line && (m[0] == '`' || m[0] == '~')
    ensures forall i :: 0 <= i < |m| ==> m[i] == m[0]
    ensures |m| < |line| ==> line[|m|] != m[0]
  {
    assert line[0] == line[1] == line[2];
    assert RunLength(line, line[0]) >= 3;
    line[..RunLength(line, line[0])]
  }

  predicate IsHeading(line: string) {
    line != "" && line[0] == '#'
  }

  /** A line at which normal text ends. */
  predicate Stops(line: string, boe: bool) {
    IsHeading(line) || IsFence(line) || (boe && IsBlank(line))
  }

  function PlainLength(lines: seq<string>, boe: bool): (n: nat)
    ensures n <= |lines|
    ensures forall i :: 0 <= i < n ==> !Stops(lines[i], boe)
    ensures n < |lines| ==> Stops(lines[n], boe)
  {
    if lines == [] || Stops(lines[0], boe) then 0 else 1 + PlainLength(lines[1..], boe)
  }

  /** Lines before the first one that begins with the marker. */
  function BodyLength(lines: seq<string>, marker: string): (n: nat)
    ensures n <= |lines|
    ensures forall i :: 0 <= i < n ==> !StartsWith(lines[i], marker)
    ensures n < |lines| ==> StartsWith(lines[n], marker)
  {
    if lines == [] || StartsWith(lines[0], marker) then 0 else 1 + BodyLength(lines[1..], marker)
  }

  function ChunkLines(c: Chunk): seq<string> {
    match c
    case Fence(start, body, close) => [start] + body + (if close.Some? then [close.value] else [])
    case Heading(start, body) => [start] + body
    case Plain(body) => body
  }

  /** The chunk beginning at the first line, which is not blank. */
  function FirstChunk(lines: seq<string>, boe: bool): (c: Chunk)
    requires lines != [] && !IsBlank(lines[0])
    ensures ChunkLines(c) != [] && ChunkLines(c) <= lines
  {
    var tail := lines[1..];
    assert lines == [lines[0]] + tail;
    if IsFence(lines[0]) then
      var n := BodyLength(tail, Marker(lines[0]));
      assert n < |tail| ==> tail[..n] + [tail[n]] == tail[..n + 1];
      Fence(lines[0], tail[..n], if n < |tail| then Some(tail[n]) else None)
    else if IsHeading(lines[0]) then Heading(lines[0], tail[..PlainLength(tail, boe)])
    else Plain(lines[..PlainLength(lines, boe)])
  }

  /** The chunks of a document. Blank lines between chunks are dropped. */
  function Chunks(lines: seq<string>, boe: bool): seq<Chunk>
    decreases |lines|
  {
    if lines == [] then []
    else if IsBlank(lines[0]) then Chunks(lines[1..], boe)
    else
      var c := FirstChunk(lines, boe);
      [c] + Chunks(lines[|ChunkLines(c)|..], boe)
  }

  // ----- from chunks to blocks -----

  /** The truth of a parsed value; the parser makes texts and class lists only. */
  predicate Truthy(v: AttrVal) {
    match v
    case Str(text) => text != ""
    case Names(names) => names != []
    case _ => true
  }

  /** Python's `d.get(key)` in a condition. */
  predicate IsSet(t: Tokens, key: string) {
    key in t && Truthy(t[key])
  }

  function Get(t: Tokens, key: string): Option<AttrVal> {
    if key in t then Some(t[key]) else None
  }

  function FirstLine(line: string, start: Option<nat>): string
    requires start.Some? ==> start.value <= |line|
  {
    Strip(if start.Some? then line[..start.value] else line)
  }

  /** The lines of a code block after its first one; a missing or partial end marker is completed. */
  function Closing(body: seq<string>, close: Option<string>, marker: string): (lines: seq<string>)
    requires marker != ""
    ensures lines != []
  {
    if close.Some? then body + [close.value]
    else if body == [] then [marker]
    else
      var last := body[|body| - 1];
      var n := RunLength(last, marker[0]);
      if (n > 0 || last == "") && |Strip(last)| == n && n <= |marker| then
        body[..|body| - 1] + [Repeat(marker[0], |marker| - n) + last]
      else body + [marker]
  }

  /** `md.rstrip().strip("\r\n")` */
  function StripMd(md: string): string {
    LStripNewlines(RStrip(md))
  }

  function LastNewline(s: string): (i: int)
    ensures -1 <= i < |s|
    ensures i >= 0 ==> s[i] == '\n'
    ensures forall k :: i < k < |s| ==> s[k] != '\n'
  {
    if s == "" then -1 else if s[|s| - 1] == '\n' then |s| - 1 else LastNewline(s[..|s| - 1])
  }

  /** `validate_end_of_code_block`: whether the last line is free of attributes. */
  function EndIsClean(md: string): Result<bool> {
    LastIsClean(md, RunLength(md, '`'))
  }

  function LastIsClean(md: string, numTicks: nat): Result<bool> {
    if LastNewline(md) < 0 then Raised(ValueError) else LineIsClean(LastLineOf(md), numTicks)
  }

  function LastLineOf(md: string): string {
    md[LastNewline(md) + 1..]
  }

  /** A last line that begins with as many backticks as the block must not have attributes. */
  function LineIsClean(last: string, numTicks: nat): Result<bool> {
    if !StartsWith(last, Repeat('`', numTicks)) then Ok(true)
    else
      match GetAttributes(last)
      case Ok(a) => Ok(a.start.None?)
      case Raised(e) => Raised(e)
  }

  function Extracted(md: string, kind: Kind, t: Tokens): Block {
    Block(md, kind, Get(t, "id"), Get(t, "t"), t - {"id", "t"}, false)
  }

  function BlockText(c: Chunk, a: Attributes): string
    requires c.Fence? ==> IsFence(c.start)
    requires c.Plain? || (a.start.Some? ==> a.start.value <= |c.start|)
  {
    match c
    case Fence(start, body, close) =>
      JoinLines(if IsSet(a.tokens, "atom") then body
                else [FirstLine(start, a.start)] + Closing(body, close, Marker(start)))
    case Heading(start, body) =>
      if StartsWith(start, "#-") then JoinLines(body)
      else FirstLine(start, a.start) + "\n" + JoinLines(body)
    case Plain(body) => JoinLines(body)
  }

  /** The block of a chunk as the chunk parsers build it. */
  function RawBlock(c: Chunk): Result<Block>
    requires c.Fence? ==> IsFence(c.start)
  {
    match c
    case Fence(start, body, close) =>
      (match GetAttributes(start)
       case Raised(e) => Raised(e)
       case Ok(a) =>
         if IsSet(a.tokens, "atom") then Ok(Extracted(BlockText(c, a), Atom, a.tokens - {"atom"}))
         else Ok(Extracted(BlockText(c, a), Code, a.tokens)))
    case Heading(start, body) =>
      (match GetAttributes(start)
       case Raised(e) => Raised(e)
       case Ok(a) =>
         Ok(Extracted(BlockText(c, a), if StartsWith(start, "#-") then Normal else Header, a.tokens)))
    case Plain(body) => Ok(Extracted(JoinLines(body), AutoNormal, map[]))
  }

  /** The text is stripped, and a code block with attributes on its last line is marked. */
  function Finished(raw: Block): Result<Block> {
    var b := raw.(md := StripMd(raw.md));
    if b.kind != Code then Ok(b)
    else
      match EndIsClean(b.md)
      case Raised(e) => Raised(e)
      case Ok(clean) => Ok(b.(error := !clean))
  }

  /** The block of a chunk before any merging. */
  function ToBlock(c: Chunk): Result<Block>
    requires c.Fence? ==> IsFence(c.start)
  {
    match RawBlock(c)
    case Raised(e) => Raised(e)
    case Ok(raw) => Finished(raw)
  }

  predicate ProperChunk(c: Chunk) {
    c.Fence? ==> IsFence(c.start)
  }

  predicate ProperChunks(cs: seq<Chunk>) {
    forall i :: 0 <= i < |cs| ==> ProperChunk(cs[i])
  }

  /** The blocks of all chunks, unless one of them raises. */
  function ToBlocks(cs: seq<Chunk>): Result<seq<Block>>
    requires ProperChunks(cs)
  {
    if cs == [] then Ok([])
    else
      match ToBlock(cs[0])
      case Raised(e) => Raised(e)
      case Ok(b) => FollowedBy([b], ToBlocks(cs[1..]))
  }

  function FollowedBy(bs: seq<Block>, more: Result<seq<Block>>): Result<seq<Block>> {
    match more
    case Ok(rest) => Ok(bs + rest)
    case Raised(e) => Raised(e)
  }

  // ----- merging -----

  /** A block whose kind does not break the paragraph and that carries no attributes of its own. */
  predicate Mergeable(b: Block, o: Options) {
    && ((b.kind == Code && !o.breakOnCodeBlock) || (b.kind == Header && !o.breakOnHeader) ||
        (b.kind == AutoNormal && !o.breakOnNormal))
    && (b.attrs == map[] || "code_lang" in b.attrs)
  }

  /** A block that accepts more text. */
  predicate Accepts(b: Block) {
    !IsSet(b.attrs, "plugin") && b.kind != Atom
  }

  function Merge(blocks: seq<Block>, b: Block, o: Options): seq<Block> {
    if Mergeable(b, o) && blocks != [] && Accepts(blocks[|blocks| - 1]) then
      var last := blocks[|blocks| - 1];
      blocks[..|blocks| - 1] + [last.(md := last.md + "\n\n" + b.md)]
    else blocks + [b]
  }

  function MergeAll(blocks: seq<Block>, more: seq<Block>, o: Options): seq<Block>
    decreases |more|
  {
    if more == [] then blocks else MergeAll(Merge(blocks, more[0], o), more[1..], o)
  }

  lemma {:induction false} ChunksProper(lines: seq<string>, boe: bool)
    ensures ProperChunks(Chunks(lines, boe))
    decreases |lines|
  {
    if lines != [] {
      if IsBlank(lines[0]) {
        ChunksProper(lines[1..], boe);
      } else {
        ChunksProper(lines[|ChunkLines(FirstChunk(lines, boe))|..], boe);
      }
    }
  }

  /** The fully split blocks of a text. */
  function SplitBlocks(lines: seq<string>, boe: bool): Result<seq<Block>> {
    ChunksProper(lines, boe);
    ToBlocks(Chunks(lines, boe))
  }

  /** What parsing a text yields. */
  function ParseText(text: string, o: Options): Result<seq<Block>> {
    match SplitBlocks(SplitLines(text), o.breakOnEmptyLine)
    case Ok(bs) => Ok(MergeAll([], bs, o))
    case Raised(e) => Raised(e)
  }

  lemma {:induction false} MergeAllAppend(blocks: seq<Block>, more: seq<Block>, b: Block, o: Options)
    ensures MergeAll(blocks, more + [b], o) == Merge(MergeAll(blocks, more, o), b, o)
    decreases |more|
  {
    if more == [] {
      assert (more + [b])[1..] == [];
    } else {
      assert (more + [b])[1..] == more[1..] + [b];
      MergeAllAppend(Merge(blocks, more[0], o), more[1..], b, o);
    }
  }
}
