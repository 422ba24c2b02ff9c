/** When the fence that the writer chooses for a text of several blocks is long enough. */
module AtomFences {
  import opened Text
  import opened AttributeList
  import opened AttributePrinting
  import opened DocumentFormat
  import opened DocumentWriting
  import opened Composition
  import opened CodeBlocks
  import opened ParagraphAttributes
  import opened ParsedAttributes
  import opened RoundTrip

  predicate Unfenced(lines: seq<string>) {
    forall i :: 0 <= i < |lines| ==> !IsFence(lines[i])
  }

  /** Only fences have fence lines. */
  lemma {:induction false} OthersUnfenced(lines: seq<string>, boe: bool)
    ensures forall i :: 0 <= i < |Chunks(lines, boe)| && !Chunks(lines, boe)[i].Fence? ==>
              Unfenced(ChunkLines(Chunks(lines, boe)[i]))
    decreases |lines|
  {
    if lines != [] {
      if IsBlank(lines[0]) {
        OthersUnfenced(lines[1..], boe);
      } else {
        var c := FirstChunk(lines, boe);
        assert !c.Fence? ==> Unfenced(ChunkLines(c));
        OthersUnfenced(lines[|ChunkLines(c)|..], boe);
      }
    }
  }

  /** A backtick fence without the atom attribute whose last line has no more backticks than its first. */
  predicate TickFence(c: Chunk) {
    c.Fence? ==>
      && IsFence(c.start) && c.start[0] == '`'
      && GetAttributes(c.start).Ok? && !IsSet(GetAttributes(c.start).value.tokens, "atom")
      && (c.close.Some? ==> RunLength(c.close.value, '`') <= |Marker(c.start)|)
  }

  predicate TickFences(md: string) {
    var cs := Chunks(SplitLines(md), false);
    forall i :: 0 <= i < |cs| ==> TickFence(cs[i])
  }

  lemma RunAtLeast(s: string, n: nat)
    ensures StartsWith(s, Repeat('`', n)) ==> RunLength(s, '`') >= n
  {
    assert StartsWith(s, Repeat('`', n)) ==> forall i :: 0 <= i < n ==> s[i] == Repeat('`', n)[i];
  }

  lemma LongerNot(s: string, m: string, n: nat)
    requires |m| <= n && (forall i :: 0 <= i < |m| ==> m[i] == '`') && !StartsWith(s, m)
    ensures !StartsWith(s, Repeat('`', n))
  {
    assert m == Repeat('`', n)[..|m|];
  }

  /** The text of a code block has the marker of its fence. */
  lemma {:induction false} CodeTicks(c: Chunk)
    requires Shaped(c) && c.Fence? && TickFence(c) && ToBlock(c).Ok?
    ensures ToBlock(c).value.kind == Code && RunLength(ToBlock(c).value.md, '`') == |Marker(c.start)|
  {
    var a := GetAttributes(c.start).value;
    var ls := [FirstLine(c.start, a.start)] + Closing(c.body, c.close, Marker(c.start));
    BlockLinesShape(c, a.start);
    StrippedShape(ls);
    var md := StripMd(JoinLines(ls));
    var kept := SplitLines(md);
    var m := Marker(ls[0]);
    assert md == kept[0] + "\n" + JoinLines(kept[1..]);
    assert m <= md;
    assert |m| < |md| && md[|m|] != '`' by {
      if |m| < |ls[0]| { assert md[|m|] == ls[0][|m|]; } else { assert md[|m|] == '\n'; }
    }
    RunLengthIs(md, '`', |m|);
  }

  /** No line of such a fence begins with more backticks than its marker. */
  lemma {:induction false} FenceLine(c: Chunk, line: string, n: nat)
    requires Shaped(c) && c.Fence? && TickFence(c) && line in ChunkLines(c) && n > |Marker(c.start)|
    ensures !StartsWith(line, Repeat('`', n))
  {
    var m := Marker(c.start);
    if line in c.body {
      LongerNot(line, m, n);
    } else {
      RunAtLeast(line, n);
      RunLengthIs(c.start, '`', |m|);
    }
  }

  lemma FenceIsFence(line: string, n: nat)
    requires n >= 3
    ensures StartsWith(line, Repeat('`', n)) ==> IsFence(line)
  {
    assert Repeat('`', n)[..3] == "```";
    assert StartsWith(line, Repeat('`', n)) ==> line[..3] == Repeat('`', n)[..3];
  }

  lemma {:induction false} LineShorter(lines: seq<string>, blocks: seq<Block>, k: nat)
    requires Unbroken(lines) && SplitBlocks(lines, false) == Ok(blocks) && k < |lines|
    requires forall i :: 0 <= i < |Chunks(lines, false)| ==> TickFence(Chunks(lines, false)[i])
    ensures !StartsWith(lines[k], FenceOf(blocks))
  {
    var cs := Chunks(lines, false);
    var n := LongestFence(blocks) + 1;
    if IsFence(lines[k]) {
      StartsBlockNotBlank(lines[k]);
      var i := LineInChunk(lines, false, k);
      ChunksProper(lines, false);
      ChunksShaped(lines, false);
      OthersUnfenced(lines, false);
      BlocksAt(cs, i);
      CodeTicks(cs[i]);
      FenceLine(cs[i], lines[k], n);
    } else {
      FenceIsFence(lines[k], n);
    }
  }

  /**
   The chosen fence is long enough for every text of several blocks whose fences are all backtick
   fences of code with closing lines no longer than their opening lines.
   */
  lemma {:induction false} FenceSuffices(md: string)
    requires TickFences(md)
    requires ParseText(md, WHOLE_DOCUMENT).Ok? && |ParseText(md, WHOLE_DOCUMENT).value| > 1
    ensures AtomShape(md)
  {
    var lines := SplitLines(md);
    SplitHasNoBreaks(md);
    WholeIsSplit(md);
    var blocks := ParseText(md, WHOLE_DOCUMENT).value;
    forall k | 0 <= k < |lines|
      ensures !StartsWith(lines[k], FenceOf(blocks))
    {
      LineShorter(lines, blocks, k);
    }
  }

  // ----- a text that the chosen fence does not hold together -----

  const TILDES := ["~~~", "```", "~~~"]

  lemma TildeText()
    ensures JoinLines(TILDES) == "~~~\n```\n~~~"
  {
    assert TILDES[1..] == ["```", "~~~"] && ["```", "~~~"][1..] == ["~~~"];
    assert JoinLines(["~~~"]) == "~~~";
    assert JoinLines(["```", "~~~"]) == "```\n~~~";
  }

  lemma {:induction false} EndRead(md: string, i: nat)
    requires i < |md| && md[i] == '\n' && forall k :: 0 <= k < |md| ==> md[k] != '{'
    ensures EndIsClean(md).Ok?
  {
    NewlineFound(md, i);
    var last := md[LastNewline(md) + 1..];
    Plainly(last);
  }

  lemma TildeShape()
    ensures CodeShape(TILDES) && TILDES[1..2] == ["```"]
  {
    assert TILDES[1..2] == ["```"];
    MarkerIs("~~~", "~~~");
  }

  lemma {:induction false} TildeBlock()
    ensures var r := SplitBlocks(TILDES, false);
            r.Ok? && |r.value| == 1 && r.value[0].kind == Code && RunLength(r.value[0].md, '`') == 0
    ensures Chunks(TILDES, false) == [Fence("~~~", ["```"], Some("~~~"))]
  {
    var md := "~~~\n```\n~~~";
    TildeText();
    Plainly("~~~");
    EndRead(md, 3);
    TildeShape();
    assert TILDES + [] == TILDES;
    CodeShapeChunk(TILDES, [], false);
    CodeBlockStable(TILDES, false);
  }

  lemma HeaderLine()
    ensures var r := SplitBlocks(["# x"], false); r.Ok? && |r.value| == 1 && r.value[0].kind == Header
  {
    HeadingChunk("# x", []);
    Plainly("# x");
    assert ["# x"] + [] == ["# x"];
    OneBlock(Heading("# x", []));
    ChunksProper(["# x"], false);
  }

  lemma LongestOfTwo(x: Block, y: Block)
    requires (x.kind == Code ==> RunLength(x.md, '`') == 0) && y.kind != Code
    ensures LongestFence([x] + [y]) == 2
  {
    var bs := [x] + [y];
    assert bs[..1] == [x] && [x][..0] == [];
    assert LongestFence([]) == 2;
    assert LongestFence([x]) == 2;
  }

  /** The tilde fence and a header: two blocks, and a fence of three backticks is chosen for them. */
  lemma {:induction false} TildeParses()
    ensures var r := SplitBlocks(TILDES + ["# x"], false);
            r.Ok? && |r.value| == 2 && LongestFence(r.value) == 2
  {
    TildeBlock();
    HeaderLine();
    ParsingComposes(TILDES, ["# x"], false);
    LongestOfTwo(SplitBlocks(TILDES, false).value[0], SplitBlocks(["# x"], false).value[0]);
    Singletons(SplitBlocks(TILDES, false).value, SplitBlocks(["# x"], false).value);
  }

  lemma Singletons<T>(a: seq<T>, b: seq<T>)
    requires |a| == 1 && |b| == 1
    ensures a + b == [a[0]] + [b[0]]
  {
  }

  /**
   Backticks inside a tilde fence are not counted: this text has two blocks, but one of its lines
   begins with the fence chosen for it.
   */
  lemma {:induction false} TildeFenceBreaks()
    ensures var md := JoinLines(TILDES + ["# x"]); var r := ParseText(md, WHOLE_DOCUMENT);
            r.Ok? && |r.value| == 2 && !NoneStarts(SplitLines(md), FenceOf(r.value)) && !AtomShape(md)
  {
    var lines := TILDES + ["# x"];
    var md := JoinLines(lines);
    assert lines == ["~~~", "```", "~~~", "# x"];
    SplitJoined(lines);
    WholeIsSplit(md);
    TildeParses();
    assert lines[1] == "```" && Repeat('`', 3) == "```";
  }

  // ----- an atom inside a paragraph -----

  /** A written atom with the text "x". */
  function AtomLines(p: Par, ignored: set<string>, n: nat): seq<string>
    requires WellTyped(p)
  {
    [CarrierText(Repeat('`', n), AttrText(p, ignored, true)), "x", Repeat('`', n)]
  }

  lemma ThreeLines<T>(a: T, b: T, c: T)
    ensures [a] + [b] + [c] + [] == [a, b, c]
  {
  }

  lemma {:induction false} AtomParses(p: Par, ignored: set<string>, n: nat)
    requires GoodFor(p, ignored, true) && WriterIgnores(ignored) && LanguageIs(p, ignored, "") && n >= 3
    ensures var lines := AtomLines(p, ignored, n); var r := SplitBlocks(lines, false);
            AllClosed(Chunks(lines, false)) && r.Ok? && |r.value| == 1 && r.value[0].kind == Atom
  {
    var fence, start := Repeat('`', n), CarrierText(Repeat('`', n), AttrText(p, ignored, true));
    var c := Fence(start, ["x"], Some(fence));
    AtomCarrier(p, ignored, n);
    assert fence[0] == '`';
    FenceChunkOf(start, ["x"], fence, [], false);
    ThreeLines(start, "x", fence);
    OneBlock(c);
    ChunksProper(AtomLines(p, ignored, n), false);
  }

  lemma {:induction false} AtomLinesUnbroken(p: Par, ignored: set<string>, n: nat)
    requires GoodFor(p, ignored, true) && WriterIgnores(ignored)
    ensures Unbroken(AtomLines(p, ignored, n) + ["# x"])
  {
    AttrTextUnbroken(p, ignored, true);
  }

  lemma {:induction false} AtomAndHeaderParse(p: Par, ignored: set<string>, n: nat)
    requires GoodFor(p, ignored, true) && WriterIgnores(ignored) && LanguageIs(p, ignored, "") && n >= 3
    ensures var r := SplitBlocks(AtomLines(p, ignored, n) + ["# x"], false);
            r.Ok? && |r.value| == 2 && LongestFence(r.value) == 2
  {
    var lines := AtomLines(p, ignored, n);
    AtomParses(p, ignored, n);
    HeaderLine();
    ParsingComposes(lines, ["# x"], false);
    LongestOfTwo(SplitBlocks(lines, false).value[0], SplitBlocks(["# x"], false).value[0]);
    Singletons(SplitBlocks(lines, false).value, SplitBlocks(["# x"], false).value);
  }

  lemma ShortFence(n: nat, attrs: string)
    requires n >= 3
    ensures StartsWith(CarrierText(Repeat('`', n), attrs), Repeat('`', 3))
  {
    assert Repeat('`', 3) == Repeat('`', n)[..3] == CarrierText(Repeat('`', n), attrs)[..3];
  }

  /**
   Nor are the backticks of an atom: its fence is not part of its text. However long the fence of a
   written atom is, the fence chosen for a text of the atom and a header is too short.
   */
  lemma {:induction false} NestedAtomBreaks(p: Par, ignored: set<string>, n: nat)
    requires GoodFor(p, ignored, true) && WriterIgnores(ignored) && LanguageIs(p, ignored, "") && n >= 3
    ensures var md := JoinLines(AtomLines(p, ignored, n) + ["# x"]); var r := ParseText(md, WHOLE_DOCUMENT);
            r.Ok? && |r.value| == 2 && !NoneStarts(SplitLines(md), FenceOf(r.value)) && !AtomShape(md)
  {
    var lines := AtomLines(p, ignored, n) + ["# x"];
    var md := JoinLines(lines);
    AtomLinesUnbroken(p, ignored, n);
    assert forall l :: l in lines ==> NoBreaks(l);
    SplitJoined(lines);
    WholeIsSplit(md);
    AtomAndHeaderParse(p, ignored, n);
    ShortFence(n, AttrText(p, ignored, true));
    assert lines[0] == CarrierText(Repeat('`', n), AttrText(p, ignored, true));
  }
}
