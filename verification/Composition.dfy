/** How the chunks of a document relate to its lines, and how documents compose. */
module Composition {
  import opened Text
  import opened AttributeList
  import opened DocumentFormat

  /** A line at which a new block always begins. */
  predicate StartsBlock(line: string) {
    IsHeading(line) || IsFence(line)
  }

  /** No fence was left open. */
  predicate AllClosed(cs: seq<Chunk>) {
    forall i :: 0 <= i < |cs| && cs[i].Fence? ==> cs[i].close.Some?
  }

  lemma StartsBlockNotBlank(line: string)
    requires StartsBlock(line)
    ensures !IsBlank(line)
  {
    assert !IsSpace(line[0]);
  }

  lemma {:induction false} PlainLengthAppend(a: seq<string>, b: seq<string>, boe: bool)
    requires b == [] || StartsBlock(b[0])
    ensures PlainLength(a + b, boe) == PlainLength(a, boe)
  {
    if a == [] {
      assert a + b == b;
    } else {
      assert (a + b)[1..] == a[1..] + b;
      PlainLengthAppend(a[1..], b, boe);
    }
  }

  lemma {:induction false} BodyLengthAppend(a: seq<string>, b: seq<string>, marker: string)
    requires BodyLength(a, marker) < |a|
    ensures BodyLength(a + b, marker) == BodyLength(a, marker)
  {
    assert (a + b)[1..] == a[1..] + b;
    if !StartsWith(a[0], marker) {
      BodyLengthAppend(a[1..], b, marker);
    }
  }

  lemma {:induction false} FirstChunkAppend(a: seq<string>, b: seq<string>, boe: bool)
    requires a != [] && !IsBlank(a[0])
    requires b == [] || StartsBlock(b[0])
    requires var c := FirstChunk(a, boe); c.Fence? ==> c.close.Some?
    ensures FirstChunk(a + b, boe) == FirstChunk(a, boe)
  {
    var tail := a[1..];
    AppendTail(a, b);
    if IsFence(a[0]) {
      BodyLengthAppend(tail, b, Marker(a[0]));
      TakeAppend(tail, b, BodyLength(tail, Marker(a[0])));
    } else if IsHeading(a[0]) {
      PlainLengthAppend(tail, b, boe);
      TakeAppend(tail, b, PlainLength(tail, boe));
    } else {
      PlainLengthAppend(a, b, boe);
      TakeAppend(a, b, PlainLength(a, boe));
    }
  }

  lemma TakeAppend<T>(a: seq<T>, b: seq<T>, n: nat)
    requires n <= |a|
    ensures (a + b)[..n] == a[..n]
    ensures n < |a| ==> (a + b)[n] == a[n]
  {
  }

  lemma ChunksCons(lines: seq<string>, boe: bool)
    requires lines != [] && !IsBlank(lines[0])
    ensures var c := FirstChunk(lines, boe); Chunks(lines, boe) == [c] + Chunks(lines[|ChunkLines(c)|..], boe)
  {
  }

  lemma ClosedTail(c: Chunk, more: seq<Chunk>)
    requires AllClosed([c] + more)
    ensures (c.Fence? ==> c.close.Some?) && AllClosed(more)
  {
    assert ([c] + more)[0] == c;
    assert forall i :: 0 <= i < |more| ==> ([c] + more)[i + 1] == more[i];
  }

  /**
   Parsing composes: when the second text begins a block and the first leaves no fence open, the
   chunks of the whole are those of the parts.
   */
  lemma {:induction false} ChunksAppend(a: seq<string>, b: seq<string>, boe: bool)
    requires b == [] || StartsBlock(b[0])
    requires AllClosed(Chunks(a, boe))
    ensures Chunks(a + b, boe) == Chunks(a, boe) + Chunks(b, boe)
    decreases |a|
  {
    if a == [] {
      assert a + b == b;
    } else if IsBlank(a[0]) {
      AppendTail(a, b);
      ChunksAppend(a[1..], b, boe);
    } else {
      var c := FirstChunk(a, boe);
      var n := |ChunkLines(c)|;
      var more := Chunks(a[n..], boe);
      ClosedTail(c, more);
      FirstChunkAppend(a, b, boe);
      DropAppend(a, b, n);
      ChunksAppend(a[n..], b, boe);
      assert (a + b)[0] == a[0];
      ChunksCons(a + b, boe);
      Assoc([c], more, Chunks(b, boe));
    }
  }

  lemma {:induction false} ToBlocksAppend(x: seq<Chunk>, y: seq<Chunk>)
    requires ProperChunks(x) && ProperChunks(y)
    ensures ProperChunks(x + y)
    ensures ToBlocks(x + y) ==
            match ToBlocks(x)
            case Raised(e) => Raised(e)
            case Ok(bs) => FollowedBy(bs, ToBlocks(y))
  {
    if x == [] {
      assert x + y == y;
      assert ToBlocks(y).Ok? ==> [] + ToBlocks(y).value == ToBlocks(y).value;
    } else {
      AppendTail(x, y);
      ToBlocksAppend(x[1..], y);
      if ToBlock(x[0]).Ok? && ToBlocks(x[1..]).Ok? && ToBlocks(y).Ok? {
        Assoc([ToBlock(x[0]).value], ToBlocks(x[1..]).value, ToBlocks(y).value);
      }
    }
  }

  /** The composition law for blocks; an exception in either part is an exception in the whole. */
  lemma {:induction false} ParsingComposes(a: seq<string>, b: seq<string>, boe: bool)
    requires b == [] || StartsBlock(b[0])
    requires AllClosed(Chunks(a, boe))
    ensures SplitBlocks(a + b, boe) ==
            match SplitBlocks(a, boe)
            case Raised(e) => Raised(e)
            case Ok(bs) => FollowedBy(bs, SplitBlocks(b, boe))
  {
    ChunksAppend(a, b, boe);
    ChunksProper(a, boe);
    ChunksProper(b, boe);
    ToBlocksAppend(Chunks(a, boe), Chunks(b, boe));
  }

  // ----- every line is consumed once -----

  function NonBlank(lines: seq<string>): seq<string> {
    if lines == [] then []
    else (if IsBlank(lines[0]) then [] else [lines[0]]) + NonBlank(lines[1..])
  }

  function AllLines(cs: seq<Chunk>): seq<string> {
    if cs == [] then [] else ChunkLines(cs[0]) + AllLines(cs[1..])
  }

  lemma {:induction false} NonBlankAppend(a: seq<string>, b: seq<string>)
    ensures NonBlank(a + b) == NonBlank(a) + NonBlank(b)
  {
    if a == [] {
      assert a + b == b;
    } else {
      assert (a + b)[1..] == a[1..] + b;
      NonBlankAppend(a[1..], b);
    }
  }

  /** Chunking loses and duplicates no line other than blank ones, and keeps their order. */
  lemma {:induction false} LinesConserved(lines: seq<string>, boe: bool)
    ensures NonBlank(AllLines(Chunks(lines, boe))) == NonBlank(lines)
    decreases |lines|
  {
    if lines != [] {
      if IsBlank(lines[0]) {
        LinesConserved(lines[1..], boe);
      } else {
        var c := FirstChunk(lines, boe);
        var n := |ChunkLines(c)|;
        LinesConserved(lines[n..], boe);
        assert Chunks(lines, boe)[1..] == Chunks(lines[n..], boe);
        NonBlankAppend(ChunkLines(c), AllLines(Chunks(lines[n..], boe)));
        NonBlankAppend(lines[..n], lines[n..]);
        assert lines[..n] + lines[n..] == lines && lines[..n] == ChunkLines(c);
      }
    }
  }

  /** The chunks after the first one are those of the lines after it. */
  lemma NextChunk(lines: seq<string>, boe: bool, j: nat)
    requires lines != [] && !IsBlank(lines[0])
    ensures var more := Chunks(lines[|ChunkLines(FirstChunk(lines, boe))|..], boe);
            |Chunks(lines, boe)| == 1 + |more| && (j < |more| ==> Chunks(lines, boe)[j + 1] == more[j])
  {
    ChunksCons(lines, boe);
    ConsAt(FirstChunk(lines, boe), Chunks(lines[|ChunkLines(FirstChunk(lines, boe))|..], boe), j);
  }

  lemma ConsAt<T>(x: T, more: seq<T>, j: nat)
    ensures |[x] + more| == 1 + |more| && (j < |more| ==> ([x] + more)[j + 1] == more[j])
  {
  }

  /** Every nonblank line lies in some chunk. */
  lemma {:induction false} LineInChunk(lines: seq<string>, boe: bool, k: nat) returns (i: nat)
    requires k < |lines| && !IsBlank(lines[k])
    ensures i < |Chunks(lines, boe)| && lines[k] in ChunkLines(Chunks(lines, boe)[i])
    decreases |lines|
  {
    if IsBlank(lines[0]) {
      i := LineInChunk(lines[1..], boe, k - 1);
    } else {
      var c := FirstChunk(lines, boe);
      var n := |ChunkLines(c)|;
      if k < n {
        assert lines[k] == ChunkLines(c)[k];
        i := 0;
      } else {
        var j := LineInChunk(lines[n..], boe, k - n);
        NextChunk(lines, boe, j);
        i := j + 1;
      }
    }
  }

  // ----- break flags -----

  /** With every break flag on, nothing is merged. */
  lemma {:induction false} NothingMerged(blocks: seq<Block>, more: seq<Block>, o: Options)
    requires o.breakOnCodeBlock && o.breakOnHeader && o.breakOnNormal
    ensures MergeAll(blocks, more, o) == blocks + more
    decreases |more|
  {
    if more == [] {
      assert blocks + more == blocks;
    } else {
      NothingMerged(blocks + [more[0]], more[1..], o);
      assert blocks + [more[0]] + more[1..] == blocks + more;
    }
  }

  /** A whole document is split and nothing of it merged. */
  lemma WholeIsSplit(md: string)
    ensures ParseText(md, WHOLE_DOCUMENT) == SplitBlocks(SplitLines(md), false)
  {
    var r := SplitBlocks(SplitLines(md), false);
    if r.Ok? {
      NothingMerged([], r.value, WHOLE_DOCUMENT);
      assert [] + r.value == r.value;
    }
  }

  /** The blank-line join of the texts of some blocks. */
  function JoinMds(bs: seq<Block>): string {
    if bs == [] then ""
    else if |bs| == 1 then bs[0].md
    else bs[0].md + "\n\n" + JoinMds(bs[1..])
  }

  /** A grouping of `bs` into consecutive nonempty parts. */
  predicate Groups(parts: seq<seq<Block>>, bs: seq<Block>)
    decreases |parts|
  {
    if parts == [] then bs == []
    else
      var last := parts[|parts| - 1];
      last != [] && |last| <= |bs| && bs[|bs| - |last|..] == last &&
      Groups(parts[..|parts| - 1], bs[..|bs| - |last|])
  }

  /** Whether a block of this kind always begins a paragraph. */
  predicate Breaks(kind: Kind, o: Options) {
    match kind
    case Code => o.breakOnCodeBlock
    case Header => o.breakOnHeader
    case AutoNormal => o.breakOnNormal
    case Normal | Atom => true
  }

  /** A block without attributes other than those that come with a language. */
  predicate NoneOfItsOwn(b: Block) {
    b.attrs != map[] ==> "code_lang" in b.attrs
  }

  /** An atom or a plugin, to which nothing is added. */
  predicate Sealed(b: Block) {
    b.kind == Atom || ("plugin" in b.attrs && b.attrs["plugin"] != Str("") && b.attrs["plugin"] != Names([]))
  }

  /** A merged block: the first block of its part with the texts of the whole part. */
  predicate MergedPart(part: seq<Block>, b: Block, o: Options) {
    && part != []
    && b == part[0].(md := JoinMds(part))
    && (|part| > 1 ==> !Sealed(part[0]))
    && forall i :: 1 <= i < |part| ==> !Breaks(part[i].kind, o) && NoneOfItsOwn(part[i])
  }

  lemma {:induction false} JoinMdsAppend(bs: seq<Block>, b: Block)
    requires bs != []
    ensures JoinMds(bs + [b]) == JoinMds(bs) + "\n\n" + b.md
  {
    if |bs| > 1 {
      assert (bs + [b])[1..] == bs[1..] + [b];
      JoinMdsAppend(bs[1..], b);
    } else {
      assert (bs + [b])[1..] == [b];
    }
  }

  /** Merged blocks with their parts; a block begins a new part only where it had to. */
  ghost predicate MergedParts(parts: seq<seq<Block>>, merged: seq<Block>, o: Options) {
    && |parts| == |merged|
    && (forall i :: 0 <= i < |parts| ==> MergedPart(parts[i], merged[i], o))
    && forall i :: 1 <= i < |parts| ==>
         Breaks(parts[i][0].kind, o) || !NoneOfItsOwn(parts[i][0]) || Sealed(parts[i - 1][0])
  }

  lemma {:induction false} GroupsExtend(parts: seq<seq<Block>>, bs: seq<Block>, b: Block)
    requires Groups(parts, bs)
    ensures Groups(parts + [[b]], bs + [b])
    ensures parts != [] ==> Groups(parts[..|parts| - 1] + [parts[|parts| - 1] + [b]], bs + [b])
  {
    assert (parts + [[b]])[..|parts|] == parts;
    assert (bs + [b])[..|bs|] == bs;
    if parts != [] {
      var k, last := |parts| - 1, parts[|parts| - 1];
      assert (parts[..k] + [last + [b]])[..k] == parts[..k];
      assert (bs + [b])[|bs| - |last|..] == bs[|bs| - |last|..] + [b];
      assert (bs + [b])[..|bs| - |last|] == bs[..|bs| - |last|];
    }
  }

  /** The block joins the last part. */
  lemma PartMerged(parts: seq<seq<Block>>, merged: seq<Block>, b: Block, o: Options)
    requires MergedParts(parts, merged, o) && merged != []
    requires Mergeable(b, o) && Accepts(merged[|merged| - 1])
    ensures var k := |merged| - 1;
            MergedParts(parts[..k] + [parts[k] + [b]], Merge(merged, b, o), o)
  {
    var k := |merged| - 1;
    assert MergedPart(parts[k], merged[k], o);
    JoinMdsAppend(parts[k], b);
    assert MergedPart(parts[k] + [b], merged[k].(md := merged[k].md + "\n\n" + b.md), o);
  }

  /** The block begins a part. */
  lemma PartBegun(parts: seq<seq<Block>>, merged: seq<Block>, b: Block, o: Options)
    requires MergedParts(parts, merged, o)
    requires !Mergeable(b, o) || merged == [] || !Accepts(merged[|merged| - 1])
    ensures MergedParts(parts + [[b]], Merge(merged, b, o), o)
  {
    if merged != [] {
      assert MergedPart(parts[|merged| - 1], merged[|merged| - 1], o);
    }
    assert MergedPart([b], b, o);
  }

  lemma {:induction false} PartsExtend(parts: seq<seq<Block>>, merged: seq<Block>, b: Block, o: Options)
    returns (more: seq<seq<Block>>)
    requires MergedParts(parts, merged, o)
    ensures MergedParts(more, Merge(merged, b, o), o)
    ensures more == parts + [[b]] ||
            (parts != [] && more == parts[..|parts| - 1] + [parts[|parts| - 1] + [b]])
  {
    var k := |merged| - 1;
    if Mergeable(b, o) && merged != [] && Accepts(merged[k]) {
      PartMerged(parts, merged, b, o);
      more := parts[..k] + [parts[k] + [b]];
    } else {
      PartBegun(parts, merged, b, o);
      more := parts + [[b]];
    }
  }

  /**
   Break flags only merge: the blocks under any flags are the fully split blocks in consecutive
   groups. Each group keeps everything of its first block but the text, which is the blank-line join;
   only blocks without attributes of their own were appended, and never to a plugin or an atom.
   */
  lemma {:induction false} FlagsOnlyMerge(bs: seq<Block>, o: Options) returns (parts: seq<seq<Block>>)
    ensures Groups(parts, bs)
    ensures MergedParts(parts, MergeAll([], bs, o), o)
    decreases |bs|
  {
    if bs == [] {
      parts := [];
    } else {
      var n := |bs| - 1;
      var before := FlagsOnlyMerge(bs[..n], o);
      assert bs == bs[..n] + [bs[n]];
      MergeAllAppend([], bs[..n], bs[n], o);
      GroupsExtend(before, bs[..n], bs[n]);
      parts := PartsExtend(before, MergeAll([], bs[..n], o), bs[n], o);
    }
  }
}
