/** Plain paragraphs without attributes are written as bare text, which may join the text before it. */
module BareParagraphs {
  import opened Text
  import opened AttributeList
  import opened DocumentFormat
  import opened DocumentWriting
  import opened Composition
  import opened CodeBlocks
  import opened ParagraphAttributes
  import opened RoundTrip

  /** Plain text with no list to print and text on its first line. */
  predicate BarePar(p: Par, ignored: set<string>) {
    && GoodAttrs(p, ignored) && LanguageIs(p, ignored, "") && AttrText(p, ignored, false) == ""
    && CleanMd(p.md) && PlainShape(SplitLines(p.md))
    && SplitLines(p.md) != [] && !IsBlank(SplitLines(p.md)[0])
  }

  /** Every paragraph that is written bare or carries its list. */
  predicate AnyPar(p: Par, ignored: set<string>) {
    GoodPar(p, ignored) || BarePar(p, ignored)
  }

  // ----- reading bare text -----

  lemma {:induction false} BareChunk(lines: seq<string>)
    requires lines != [] && PlainShape(lines) && !IsBlank(lines[0])
    ensures Chunks(lines, false) == [Plain(lines)]
  {
    PlainLengthIs(lines);
    assert lines[..|lines|] == lines && lines[|lines|..] == [];
    assert FirstChunk(lines, false) == Plain(lines);
  }

  lemma NothingTaken(lines: seq<string>, md: string)
    requires StripMd(JoinLines(lines)) == md
    ensures ToBlock(Plain(lines)) == Ok(Block(md, AutoNormal, None, None, map[], false))
  {
    var none: Tokens := map[];
    assert none - {"id", "t"} == none;
  }

  /** A paragraph without a printed list has nothing that could be read back. */
  lemma {:induction false} NothingPrinted(p: Par, ignored: set<string>)
    requires GoodAttrs(p, ignored) && WriterIgnores(ignored) && LanguageIs(p, ignored, "")
    requires AttrText(p, ignored, false) == ""
    ensures Matches(Block(p.md, AutoNormal, None, None, map[], false), p, ignored)
  {
    var none: Tokens := map[];
    NoEntries(p, ignored);
    TokensRead(p, ignored, "");
    assert AsMap(ParEntries(p, ignored, false)) + LanguageInfo("") == none;
    assert none - {"id", "t"} == none;
  }

  lemma {:induction false} BareReads(p: Par, ignored: set<string>, tail: seq<string>)
    requires BarePar(p, ignored) && WriterIgnores(ignored)
    requires forall i :: 0 <= i < |tail| ==> tail[i] == ""
    ensures ParsesBack(SplitLines(p.md) + tail, p, ignored)
  {
    var lines := SplitLines(p.md) + tail;
    BlankIsPlain(tail);
    PlainAppend(SplitLines(p.md), tail);
    assert lines[0] == SplitLines(p.md)[0];
    BareChunk(lines);
    CleanJoin(p.md);
    PaddedText(SplitLines(p.md), tail, p.md);
    NothingTaken(lines, p.md);
    NothingPrinted(p, ignored);
  }

  // ----- what follows fences and what follows text -----

  /** Nothing, or a fence, comes last. */
  predicate EndsFenced(cs: seq<Chunk>) {
    cs == [] || cs[|cs| - 1].Fence?
  }

  lemma {:induction false} StoppedAppend(a: seq<string>, b: seq<string>, boe: bool)
    requires PlainLength(a, boe) < |a|
    ensures PlainLength(a + b, boe) == PlainLength(a, boe)
  {
    AppendTail(a, b);
    if !Stops(a[0], boe) {
      StoppedAppend(a[1..], b, boe);
    }
  }

  lemma {:induction false} FirstChunkStays(a: seq<string>, b: seq<string>, boe: bool)
    requires a != [] && !IsBlank(a[0])
    requires var c := FirstChunk(a, boe); if c.Fence? then c.close.Some? else |ChunkLines(c)| < |a|
    ensures FirstChunk(a + b, boe) == FirstChunk(a, boe)
  {
    var tail := a[1..];
    AppendTail(a, b);
    if IsFence(a[0]) {
      BodyLengthAppend(tail, b, Marker(a[0]));
      TakeAppend(tail, b, BodyLength(tail, Marker(a[0])));
    } else if IsHeading(a[0]) {
      StoppedAppend(tail, b, boe);
      TakeAppend(tail, b, PlainLength(tail, boe));
    } else {
      StoppedAppend(a, b, boe);
      TakeAppend(a, b, PlainLength(a, boe));
    }
  }

  lemma FencedTail(c: Chunk, more: seq<Chunk>)
    requires EndsFenced([c] + more)
    ensures EndsFenced(more) && (more == [] ==> c.Fence?)
  {
    if more != [] {
      assert ([c] + more)[|more|] == more[|more| - 1];
    }
  }

  lemma NoneLeft(lines: seq<string>, boe: bool)
    requires lines == []
    ensures Chunks(lines, boe) == []
  {
  }

  /** After a closed fence anything begins a new block. */
  lemma {:induction false} AfterFence(a: seq<string>, b: seq<string>, boe: bool)
    requires AllClosed(Chunks(a, boe)) && EndsFenced(Chunks(a, boe))
    ensures Chunks(a + b, boe) == Chunks(a, boe) + Chunks(b, boe)
    decreases |a|
  {
    if a == [] {
      assert a + b == b;
    } else if IsBlank(a[0]) {
      AppendTail(a, b);
      AfterFence(a[1..], b, boe);
    } else {
      var c := FirstChunk(a, boe);
      var n := |ChunkLines(c)|;
      var more := Chunks(a[n..], boe);
      ChunksCons(a, boe);
      ClosedTail(c, more);
      FencedTail(c, more);
      if a[n..] == [] { NoneLeft(a[n..], boe); }
      FirstChunkStays(a, b, boe);
      DropAppend(a, b, n);
      AfterFence(a[n..], b, boe);
      assert (a + b)[0] == a[0];
      ChunksCons(a + b, boe);
      Assoc([c], more, Chunks(b, boe));
    }
  }

  lemma {:induction false} PlainLengthAll(a: seq<string>, b: seq<string>)
    requires PlainLength(a, false) == |a| && PlainShape(b)
    ensures PlainLength(a + b, false) == |a + b|
  {
    PlainLengthIs(a + b) by {
      assert PlainShape(a + b);
    }
  }

  /** The chunk with more lines of text. */
  function Longer(c: Chunk, b: seq<string>): Chunk
    requires !c.Fence?
  {
    match c
    case Heading(start, body) => Heading(start, body + b)
    case Plain(body) => Plain(body + b)
  }

  lemma {:induction false} FirstChunkGrows(a: seq<string>, b: seq<string>)
    requires a != [] && !IsBlank(a[0]) && PlainShape(b)
    requires var c := FirstChunk(a, false); !c.Fence? && |ChunkLines(c)| == |a|
    ensures var c := FirstChunk(a, false); FirstChunk(a + b, false) == Longer(c, b)
    ensures |ChunkLines(FirstChunk(a + b, false))| == |a + b|
  {
    var tail := a[1..];
    AppendTail(a, b);
    if IsHeading(a[0]) {
      PlainLengthAll(tail, b);
      assert tail[..|tail|] == tail && (tail + b)[..|tail + b|] == tail + b;
    } else {
      PlainLengthAll(a, b);
      assert a[..|a|] == a && (a + b)[..|a + b|] == a + b;
    }
  }

  /** Text that does not reach the end of the lines is followed by another chunk. */
  lemma StopIsChunk(lines: seq<string>)
    requires lines != [] && !IsBlank(lines[0])
    requires var c := FirstChunk(lines, false); !c.Fence? && |ChunkLines(c)| < |lines|
    ensures Chunks(lines[|ChunkLines(FirstChunk(lines, false))|..], false) != []
  {
    var n := |ChunkLines(FirstChunk(lines, false))|;
    var tail := lines[1..];
    if IsHeading(lines[0]) {
      assert Stops(tail[n - 1], false) && tail[n - 1] == lines[n];
    }
    assert Stops(lines[n], false);
    StartsBlockNotBlank(lines[n]);
    assert lines[n..][0] == lines[n];
    ChunksCons(lines[n..], false);
  }

  /** The last chunk is longer and the others are the same. */
  predicate LastLonger(cs: seq<Chunk>, more: seq<Chunk>, b: seq<string>) {
    && cs != [] && |more| == |cs| && !cs[|cs| - 1].Fence?
    && more[..|cs| - 1] == cs[..|cs| - 1] && more[|cs| - 1] == Longer(cs[|cs| - 1], b)
  }

  lemma LongerCons(c: Chunk, cs: seq<Chunk>, more: seq<Chunk>, b: seq<string>)
    requires LastLonger(cs, more, b)
    ensures LastLonger([c] + cs, [c] + more, b)
  {
    var k := |cs| - 1;
    assert ([c] + more)[..k + 1] == [c] + more[..k];
    assert ([c] + cs)[..k + 1] == [c] + cs[..k];
  }

  lemma LastOne(c: Chunk, more: seq<Chunk>)
    requires !EndsFenced([c] + more) && more != []
    ensures !EndsFenced(more)
  {
    assert ([c] + more)[|more|] == more[|more| - 1];
  }

  /** After text, more plain lines belong to the same block. */
  lemma {:induction false} TextGrows(a: seq<string>, b: seq<string>)
    requires AllClosed(Chunks(a, false)) && !EndsFenced(Chunks(a, false)) && PlainShape(b)
    ensures LastLonger(Chunks(a, false), Chunks(a + b, false), b)
    decreases |a|
  {
    if IsBlank(a[0]) {
      AppendTail(a, b);
      TextGrows(a[1..], b);
    } else {
      var c := FirstChunk(a, false);
      var n := |ChunkLines(c)|;
      var more := Chunks(a[n..], false);
      AppendTail(a, b);
      ChunksCons(a, false);
      ChunksCons(a + b, false);
      ClosedTail(c, more);
      if c.Fence? || n < |a| {
        if more == [] {
          assert !c.Fence?;
          StopIsChunk(a);
        }
        FirstChunkStays(a, b, false);
        DropAppend(a, b, n);
        LastOne(c, more);
        TextGrows(a[n..], b);
        LongerCons(c, more, Chunks(a[n..] + b, false), b);
      } else {
        FirstChunkGrows(a, b);
        NoneLeft(a[n..], false);
        NoneLeft((a + b)[|a + b|..], false);
      }
    }
  }

  lemma StillText(cs: seq<Chunk>, more: seq<Chunk>, b: seq<string>)
    requires AllClosed(cs) && LastLonger(cs, more, b)
    ensures AllClosed(more) && !EndsFenced(more)
  {
    var k := |cs| - 1;
    assert forall i :: 0 <= i < k ==> more[i] == more[..k][i] == cs[..k][i] == cs[i];
  }
}
