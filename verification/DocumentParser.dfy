/** The line-based document parser. */
module DocumentParsing {
  import opened Text
  import opened AttributeList
  import opened AttributeParsing
  import opened DocumentFormat

  class DocReader {
    const lines: seq<string>
    var currentLine: nat

    constructor (lines: seq<string>)
      ensures this.lines == lines && currentLine == 0
    {
      this.lines := lines;
      currentLine := 0;
    }

    ghost predicate Valid()
      reads this
    {
      currentLine <= |lines|
    }

    /** The lines that are still to be read. */
    ghost function Rest(): seq<string>
      reads this
      requires Valid()
    {
      lines[currentLine..]
    }

    predicate HasMoreLines()
      reads this
    {
      currentLine < |lines|
    }

    function PeekLine(): string
      reads this
      requires HasMoreLines()
    {
      lines[currentLine]
    }

    method GetLineAndAdvance() returns (line: string)
      requires HasMoreLines()
      modifies this
      ensures Valid() && currentLine == old(currentLine) + 1
      ensures line == old(Rest())[0] && Rest() == old(Rest())[1..]
    {
      line := PeekLine();
      currentLine := currentLine + 1;
    }
  }

  method GetLineAttributes(line: string) returns (res: Result<Attributes>)
    ensures res == GetAttributes(line)
  {
    var parser := new AttributeParser(line);
    res := parser.GetAttributes();
  }

  /** `count_chars_from_beginning` */
  method CountFromBeginning(md: string, c: char) returns (num: nat)
    ensures num == RunLength(md, c)
  {
    num := 0;
    while num < |md|
      invariant num <= |md|
      invariant RunLength(md, c) == num + RunLength(md[num..], c)
    {
      if md[num] != c {
        return;
      }
      assert md[num..][1..] == md[num + 1..];
      num := num + 1;
    }
  }

  method ValidateLastLine(lastLine: string, numTicks: nat) returns (res: Result<bool>)
    ensures res == LineIsClean(lastLine, numTicks)
  {
    if !StartsWith(lastLine, Repeat('`', numTicks)) {
      return Ok(true);
    }
    var attributes := GetLineAttributes(lastLine);
    match attributes {
      case Raised(e) => return Raised(e);
      case Ok(a) => return Ok(a.start.None?);
    }
  }

  method ValidateEndOfCodeBlock(md: string) returns (res: Result<bool>)
    ensures res == EndIsClean(md)
  {
    var numTicks := CountFromBeginning(md, '`');
    res := ValidateEnd(md, numTicks);
  }

  method ValidateEnd(md: string, numTicks: nat) returns (res: Result<bool>)
    ensures res == LastIsClean(md, numTicks)
  {
    if LastNewline(md) < 0 {
      return Raised(ValueError);
    }
    res := ValidateLastLine(LastLineOf(md), numTicks);
  }

  lemma PlainStep(r: seq<string>, n: nat, boe: bool)
    requires n < |r| && !Stops(r[n], boe)
    ensures r[..n] + [r[n]] == r[..n + 1] && r[n..][0] == r[n] && r[n..][1..] == r[n + 1..]
    ensures PlainLength(r[n..], boe) == 1 + PlainLength(r[n + 1..], boe)
  {
    assert r[n..][0] == r[n] && r[n..][1..] == r[n + 1..];
  }

  class DocumentParser {
    const docText: string
    var blocks: seq<Block>
    var breakOnEmptyLine: bool
    var lastSetting: Option<Options>
    var options: Options

    constructor (docText: string, options: Options)
      ensures this.docText == docText && this.options == options
      ensures blocks == [] && lastSetting == None
    {
      this.docText := docText;
      this.options := options;
      blocks, breakOnEmptyLine, lastSetting := [], false, None;
    }

    method EatWhitespace(doc: DocReader)
      requires doc.Valid()
      modifies doc
      ensures doc.Valid() && doc.currentLine >= old(doc.currentLine)
      ensures Chunks(doc.Rest(), breakOnEmptyLine) == old(Chunks(doc.Rest(), breakOnEmptyLine))
      ensures doc.HasMoreLines() ==> !IsBlank(doc.Rest()[0])
    {
      while doc.HasMoreLines() && IsBlank(doc.PeekLine())
        invariant doc.Valid() && doc.currentLine >= old(doc.currentLine)
        invariant Chunks(doc.Rest(), breakOnEmptyLine) == old(Chunks(doc.Rest(), breakOnEmptyLine))
        decreases |doc.lines| - doc.currentLine
      {
        var _ := doc.GetLineAndAdvance();
      }
    }

    /** Reads the lines of normal text; a header takes its text with the same method. */
    method ParseNormalLines(doc: DocReader) returns (lines: seq<string>)
      requires doc.Valid()
      modifies doc
      ensures doc.Valid()
      ensures var r := old(doc.Rest()); var n := PlainLength(r, breakOnEmptyLine);
              lines == r[..n] && doc.Rest() == r[n..]
    {
      lines := [];
      ghost var r := doc.Rest();
      while doc.HasMoreLines()
        invariant doc.Valid() && |lines| <= |r|
        invariant lines == r[..|lines|] && doc.Rest() == r[|lines|..]
        invariant PlainLength(r, breakOnEmptyLine) == |lines| + PlainLength(doc.Rest(), breakOnEmptyLine)
        decreases |doc.lines| - doc.currentLine
      {
        if Stops(doc.PeekLine(), breakOnEmptyLine) {
          return;
        }
        PlainStep(r, |lines|, breakOnEmptyLine);
        var line := doc.GetLineAndAdvance();
        lines := lines + [line];
      }
    }

    method ParseNormalBlock(doc: DocReader) returns (b: Block)
      requires doc.Valid() && doc.HasMoreLines()
      requires !IsBlank(doc.Rest()[0]) && !IsFence(doc.Rest()[0]) && !IsHeading(doc.Rest()[0])
      modifies doc
      ensures doc.Valid()
      ensures var c := FirstChunk(old(doc.Rest()), breakOnEmptyLine);
              RawBlock(c) == Ok(b) && doc.Rest() == old(doc.Rest())[|ChunkLines(c)|..]
    {
      var blockLines := ParseNormalLines(doc);
      b := Extracted(JoinLines(blockLines), AutoNormal, map[]);
    }

    method TryParseHeaderBlock(doc: DocReader) returns (b: Option<Result<Block>>)
      requires doc.Valid() && doc.HasMoreLines() && !IsBlank(doc.Rest()[0]) && !IsFence(doc.Rest()[0])
      modifies doc
      ensures doc.Valid()
      ensures b.None? <==> !IsHeading(old(doc.Rest())[0])
      ensures b.None? ==> doc.currentLine == old(doc.currentLine)
      ensures var c := FirstChunk(old(doc.Rest()), breakOnEmptyLine);
              b.Some? ==> RawBlock(c) == b.value &&
                          (b.value.Ok? ==> doc.Rest() == old(doc.Rest())[|ChunkLines(c)|..])
    {
      if !IsHeading(doc.PeekLine()) {
        return None;
      }
      var headerLine := doc.GetLineAndAdvance();
      var attributes := GetLineAttributes(headerLine);
      if attributes.Raised? {
        return Some(Raised(attributes.error));
      }
      var a := attributes.value;
      var text := "";
      var kind := Normal;
      if !StartsWith(headerLine, "#-") {
        kind := Header;
        text := FirstLine(headerLine, a.start) + "\n";
      }
      var more := ParseNormalLines(doc);
      text := text + JoinLines(more);
      assert kind == Normal ==> text == JoinLines(more);
      b := Some(Ok(Extracted(text, kind, a.tokens)));
    }

    /** Reads the lines of a fence before its end marker. */
    method ParseFenceBody(doc: DocReader, marker: string) returns (body: seq<string>)
      requires doc.Valid()
      modifies doc
      ensures doc.Valid()
      ensures var r := old(doc.Rest()); var n := BodyLength(r, marker);
              body == r[..n] && doc.Rest() == r[n..]
    {
      body := [];
      ghost var r := doc.Rest();
      while doc.HasMoreLines()
        invariant doc.Valid() && |body| <= |r|
        invariant body == r[..|body|] && doc.Rest() == r[|body|..]
        invariant BodyLength(r, marker) == |body| + BodyLength(doc.Rest(), marker)
        decreases |doc.lines| - doc.currentLine
      {
        if StartsWith(doc.PeekLine(), marker) {
          return;
        }
        var line := doc.GetLineAndAdvance();
        body := body + [line];
      }
    }

    /** The lines after the first one, with the end marker added or completed where it is missing. */
    method CompleteFence(body: seq<string>, close: Option<string>, marker: string) returns (lines: seq<string>)
      requires marker != "" && forall i :: 0 <= i < |marker| ==> marker[i] == marker[0]
      requires close.None? ==> forall i :: 0 <= i < |body| ==> !StartsWith(body[i], marker)
      ensures lines == Closing(body, close, marker)
    {
      lines := body;
      if close.Some? {
        lines := lines + [close.value];
      } else if body == [] {
        lines := lines + [marker];
      } else {
        var line := body[|body| - 1];
        var singleMark := marker[0];
        var lastLineCodeChars := CountFromBeginning(line, singleMark);
        PartialIsShorter(line, marker);
        if (lastLineCodeChars > 0 || |line| == 0) && |Strip(line)| == lastLineCodeChars {
          lines := lines[|lines| - 1 := Repeat(singleMark, |marker| - lastLineCodeChars) + line];
        } else {
          lines := lines + [marker];
        }
      }
    }

    method TryParseCodeBlock(doc: DocReader) returns (b: Option<Result<Block>>)
      requires doc.Valid() && doc.HasMoreLines() && !IsBlank(doc.Rest()[0])
      modifies doc
      ensures doc.Valid()
      ensures b.None? <==> !IsFence(old(doc.Rest())[0])
      ensures b.None? ==> doc.currentLine == old(doc.currentLine)
      ensures var c := FirstChunk(old(doc.Rest()), breakOnEmptyLine);
              b.Some? ==> RawBlock(c) == b.value &&
                          (b.value.Ok? ==> doc.Rest() == old(doc.Rest())[|ChunkLines(c)|..])
    {
      if !IsFence(doc.PeekLine()) {
        return None;
      }
      ghost var rest := doc.Rest();
      var marker := Marker(doc.PeekLine());
      var startLine := doc.GetLineAndAdvance();
      var attributes := GetLineAttributes(startLine);
      if attributes.Raised? {
        return Some(Raised(attributes.error));
      }
      var a := attributes.value;
      var body := ParseFenceBody(doc, marker);
      var close := None;
      if doc.HasMoreLines() {
        var line := doc.GetLineAndAdvance();
        close := Some(line);
      }
      FenceChunk(rest, breakOnEmptyLine, body, close);
      if IsSet(a.tokens, "atom") {
        b := Some(Ok(Extracted(JoinLines(body), Atom, a.tokens - {"atom"})));
      } else {
        var more := CompleteFence(body, close, marker);
        b := Some(Ok(Extracted(JoinLines([FirstLine(startLine, a.start)] + more), Code, a.tokens)));
      }
    }

    /** The first of the three block parsers that succeeds. */
    method NextBlock(doc: DocReader) returns (b: Result<Block>)
      requires doc.Valid() && doc.HasMoreLines() && !IsBlank(doc.Rest()[0])
      modifies doc
      ensures doc.Valid()
      ensures var c := FirstChunk(old(doc.Rest()), breakOnEmptyLine);
              RawBlock(c) == b && (b.Ok? ==> doc.Rest() == old(doc.Rest())[|ChunkLines(c)|..])
    {
      var result := TryParseCodeBlock(doc);
      if result.Some? {
        return result.value;
      }
      result := TryParseHeaderBlock(doc);
      if result.Some? {
        return result.value;
      }
      var normal := ParseNormalBlock(doc);
      b := Ok(normal);
    }

    /** Appends a block or extends the text of the last one. */
    method AddBlock(raw: Block) returns (raised: Option<Error>)
      modifies this`blocks
      ensures match Finished(raw)
              case Ok(b) => raised == None && blocks == Merge(old(blocks), b, options)
              case Raised(e) => raised == Some(e)
    {
      var block := raw.(md := StripMd(raw.md));
      var clean := Ok(true);
      if block.kind == Code {
        clean := ValidateEndOfCodeBlock(block.md);
        if clean.Raised? {
          return Some(clean.error);
        }
        block := block.(error := !clean.value);
      }
      if Mergeable(block, options) && |blocks| > 0 && Accepts(blocks[|blocks| - 1]) {
        var last := blocks[|blocks| - 1];
        blocks := blocks[|blocks| - 1 := last.(md := last.md + "\n\n" + block.md)];
      } else {
        blocks := blocks + [block];
      }
      raised := None;
    }

    /** Parses the text unless it was parsed under the same options already. */
    method ParseDocument() returns (raised: Option<Error>)
      modifies this`blocks, this`breakOnEmptyLine, this`lastSetting
      ensures lastSetting == Some(options)
      ensures old(lastSetting) == Some(options) ==> raised == None && blocks == old(blocks)
      ensures old(lastSetting) != Some(options) ==>
                match ParseText(docText, options)
                case Ok(bs) => raised == None && blocks == bs
                case Raised(e) => raised == Some(e)
    {
      if lastSetting == Some(options) {
        return None;
      }
      blocks := [];
      breakOnEmptyLine := options.breakOnEmptyLine;
      lastSetting := Some(options);
      var doc := new DocReader(SplitLines(docText));
      raised := ParseBlocks(doc);
    }

    method ParseBlocks(doc: DocReader) returns (raised: Option<Error>)
      requires doc.Valid() && doc.currentLine == 0 && blocks == []
      modifies this`blocks, doc
      ensures match SplitBlocks(doc.lines, breakOnEmptyLine)
              case Ok(bs) => raised == None && blocks == MergeAll([], bs, options)
              case Raised(e) => raised == Some(e)
    {
      ghost var done: seq<Block> := [];
      ghost var all := SplitBlocks(doc.lines, breakOnEmptyLine);
      assert doc.Rest() == doc.lines;
      FollowedByNone(all);
      while true
        invariant doc.Valid()
        invariant all == FollowedBy(done, SplitBlocks(doc.Rest(), breakOnEmptyLine))
        invariant blocks == MergeAll([], done, options)
        decreases |doc.lines| - doc.currentLine
      {
        EatWhitespace(doc);
        if !doc.HasMoreLines() {
          assert done + [] == done;
          return None;
        }
        ghost var b;
        raised, b := ParseBlock(doc, done);
        if raised.Some? {
          return;
        }
        done := done + [b];
      }
    }

    /** One round of the loop: the next block is parsed and appended or merged. */
    method ParseBlock(doc: DocReader, ghost done: seq<Block>) returns (raised: Option<Error>, ghost b: Block)
      requires doc.Valid() && doc.HasMoreLines() && !IsBlank(doc.Rest()[0])
      requires blocks == MergeAll([], done, options)
      modifies this`blocks, doc
      ensures doc.Valid()
      ensures FollowedBy(done, SplitBlocks(old(doc.Rest()), breakOnEmptyLine)) ==
              if raised.Some? then Raised(raised.value)
              else FollowedBy(done + [b], SplitBlocks(doc.Rest(), breakOnEmptyLine))
      ensures raised.None? ==> blocks == MergeAll([], done + [b], options) && doc.currentLine > old(doc.currentLine)
    {
      ghost var rest := doc.Rest();
      b := Block("", Normal, None, None, map[], false);
      SplitBlocksStep(rest, breakOnEmptyLine);
      var result := NextBlock(doc);
      if result.Raised? {
        return Some(result.error), b;
      }
      assert |doc.Rest()| < |rest|;
      raised := AddBlock(result.value);
      if raised.None? {
        b := Finished(result.value).value;
        MergeAllAppend([], done, b, options);
        FollowedByStep(done, b, SplitBlocks(doc.Rest(), breakOnEmptyLine));
      }
    }

    method GetBlocks() returns (res: Result<seq<Block>>)
      modifies this`blocks, this`breakOnEmptyLine, this`lastSetting
      ensures lastSetting == Some(options)
      ensures old(lastSetting) == Some(options) ==> res == Ok(old(blocks)) && blocks == old(blocks)
      ensures old(lastSetting) != Some(options) ==> res == ParseText(docText, options)
    {
      var raised := ParseDocument();
      res := if raised.Some? then Raised(raised.value) else Ok(blocks);
    }
  }

  lemma FenceChunk(rest: seq<string>, boe: bool, body: seq<string>, close: Option<string>)
    requires rest != [] && !IsBlank(rest[0]) && IsFence(rest[0])
    requires var r := rest[1..]; var n := BodyLength(r, Marker(rest[0]));
             body == r[..n] && close == (if n < |r| then Some(r[n]) else None)
    ensures FirstChunk(rest, boe) == Fence(rest[0], body, close)
    ensures var r := rest[1..]; var n := BodyLength(r, Marker(rest[0]));
            rest[|ChunkLines(FirstChunk(rest, boe))|..] == r[if n < |r| then n + 1 else n..]
  {
  }

  lemma PartialIsShorter(line: string, marker: string)
    requires marker != "" && forall i :: 0 <= i < |marker| ==> marker[i] == marker[0]
    requires !StartsWith(line, marker)
    ensures RunLength(line, marker[0]) < |marker|
  {
    var n := RunLength(line, marker[0]);
    assert n >= |marker| ==> marker <= line;
  }

  lemma FollowedByNone(r: Result<seq<Block>>)
    ensures FollowedBy([], r) == r
  {
    if r.Ok? {
      assert [] + r.value == r.value;
    }
  }

  lemma FollowedByStep(done: seq<Block>, b: Block, r: Result<seq<Block>>)
    ensures FollowedBy(done, FollowedBy([b], r)) == FollowedBy(done + [b], r)
  {
    if r.Ok? {
      assert done + ([b] + r.value) == done + [b] + r.value;
    }
  }

  lemma SplitBlocksStep(lines: seq<string>, boe: bool)
    requires lines != [] && !IsBlank(lines[0])
    ensures var c := FirstChunk(lines, boe);
            SplitBlocks(lines, boe) ==
            match ToBlock(c)
            case Raised(e) => Raised(e)
            case Ok(b) => FollowedBy([b], SplitBlocks(lines[|ChunkLines(c)|..], boe))
  {
    ChunksProper(lines, boe);
    var rest := lines[|ChunkLines(FirstChunk(lines, boe))|..];
    ChunksProper(rest, boe);
    assert Chunks(lines, boe)[1..] == Chunks(rest, boe);
  }
}
