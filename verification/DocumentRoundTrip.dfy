/** The whole-document round trip. */
module DocumentRoundTrip {
  import opened Text
  import opened DocumentFormat
  import opened DocumentWriting
  import opened Composition
  import opened CodeBlocks
  import opened ParagraphAttributes
  import opened ParsedAttributes
  import opened RoundTrip
  import opened BareParagraphs

  // ----- the lines the writer produces -----

  lemma {:induction false} TerminatedAppend(a: seq<string>, b: seq<string>)
    ensures Terminated(a + b) == Terminated(a) + Terminated(b)
  {
    if a == [] {
      assert a + b == b;
    } else {
      assert (a + b)[0] == a[0] && (a + b)[1..] == a[1..] + b;
      TerminatedAppend(a[1..], b);
    }
  }

  /** One more line in front of a joined text that needs no newline of its own. */
  lemma {:induction false} EndedLines(first: string, lines: seq<string>, md: string)
    requires JoinLines(lines) == md
    requires lines != [] ==> md != "" && md[|md| - 1] != '\n'
    ensures Ended(first + "\n" + md) == Terminated([first] + lines)
  {
    assert ([first] + lines)[1..] == lines;
    var s := first + "\n" + md;
    if lines == [] {
      assert s[|s| - 1] == '\n';
      assert s == first + "\n";
    } else {
      assert s[|s| - 1] == md[|md| - 1];
      JoinTerminated(lines);
      assert s + "\n" == first + "\n" + (md + "\n");
    }
  }

  lemma {:induction false} EndedText(lines: seq<string>, md: string)
    requires lines != [] && JoinLines(lines) == md && md != "" && md[|md| - 1] != '\n'
    ensures Ended(md) == Terminated(lines)
  {
    JoinTerminated(lines);
  }

  lemma {:induction false} SplitFirstJoined(lines: seq<string>)
    requires lines != [] && NoBreaks(lines[0])
    ensures SplitFirst(JoinLines(lines)) == (lines[0], JoinLines(lines[1..]))
  {
    var md := JoinLines(lines);
    var n := IndexOfNewline(md);
    if |lines| == 1 {
      assert md == lines[0];
      assert n == |md|;
    } else {
      assert md[|lines[0]|] == '\n';
      assert forall i :: 0 <= i < |lines[0]| ==> md[i] == lines[0][i];
      assert n == |lines[0]|;
      assert md[..n] == lines[0] && md[n + 1..] == JoinLines(lines[1..]);
    }
  }

  /** The end of the text after the first line. */
  lemma {:induction false} RestEnds(lines: seq<string>, md: string)
    requires |lines| > 1 && JoinLines(lines) == md && lines[|lines| - 1] != ""
    ensures var rest := JoinLines(lines[1..]); rest != "" && rest[|rest| - 1] == md[|md| - 1]
  {
    var rest := JoinLines(lines[1..]);
    assert md == lines[0] + "\n" + rest;
    LastLineEnds(lines[1..]);
  }

  lemma {:induction false} LastLineEnds(lines: seq<string>)
    requires lines != [] && lines[|lines| - 1] != ""
    ensures JoinLines(lines) != ""
  {
    if |lines| > 1 {
      LastLineEnds(lines[1..]);
    }
  }

  /** A first line with or without a list, followed by the rest of the text. */
  lemma {:induction false} CarriedLines(first: string, lines: seq<string>, md: string)
    requires lines != [] && JoinLines(lines) == md && lines[|lines| - 1] != ""
    requires md[|md| - 1] != '\n'
    ensures Ended(first + "\n" + JoinLines(lines[1..])) == Terminated([first] + lines[1..])
  {
    if |lines| > 1 {
      RestEnds(lines, md);
    }
    EndedLines(first, lines[1..], JoinLines(lines[1..]));
  }

  // ----- what the writer sees in each paragraph -----

  lemma {:induction false} PlainSeen(md: string)
    requires PlainShape(SplitLines(md))
    ensures var r := ParseText(md, WHOLE_DOCUMENT);
            r.Ok? && (r.value == [] || (|r.value| == 1 && r.value[0].kind == AutoNormal))
  {
    var lines := SplitLines(md);
    WholeIsSplit(md);
    PlainChunks(lines);
    ChunksProper(lines, false);
    if Chunks(lines, false) != [] {
      OneBlock(Chunks(lines, false)[0]);
    }
  }

  lemma {:induction false} HeaderSeen(md: string)
    requires CleanMd(md) && HeaderShape(SplitLines(md)) && ClearLine(SplitLines(md)[0])
    ensures var r := ParseText(md, WHOLE_DOCUMENT);
            r.Ok? && |r.value| == 1 && r.value[0].kind == Header && r.value[0].md == md
  {
    var lines := SplitLines(md);
    WholeIsSplit(md);
    HeadingChunk(lines[0], lines[1..]);
    assert [lines[0]] + lines[1..] == lines;
    ChunksProper(lines, false);
    OneBlock(Heading(lines[0], lines[1..]));
    CleanJoin(md);
    HeaderText(lines, [], md);
    assert lines[1..] + [] == lines[1..];
    StripTrimmed(lines[0]);
  }

  lemma {:induction false} CodeSeen(md: string)
    requires CleanMd(md) && CodeShape(SplitLines(md)) && ClearLine(SplitLines(md)[0]) && EndIsClean(md).Ok?
    ensures var r := ParseText(md, WHOLE_DOCUMENT);
            r.Ok? && |r.value| == 1 && r.value[0].kind == Code && r.value[0].md == md
  {
    WholeIsSplit(md);
    CleanJoin(md);
    CodeBlockStable(SplitLines(md), false);
  }

  // ----- the text of one paragraph -----

  lemma HashCarrier(attrs: string, md: string)
    ensures "#- {" + attrs + "}\n" + md == CarrierText("#-", attrs) + "\n" + md
  {
  }

  lemma BareLines(p: Par, ignored: set<string>)
    requires BarePar(p, ignored)
    ensures ParLines(p, ignored) == SplitLines(p.md)
  {
  }

  lemma WrittenIsText(p: Par, blocks: seq<Block>, ignored: set<string>)
    requires WellTyped(p) && |blocks| <= 1 && AttrText(p, ignored, false) == ""
    ensures Written(p, blocks, ignored) == p.md
  {
  }

  /** Nothing, or a newline and the rest. */
  predicate FirstLineIs(md: string, line: string, rest: string) {
    && (forall i :: 0 <= i < |line| ==> line[i] != '\n')
    && (md == line + "\n" + rest || (md == line && rest == ""))
  }

  lemma FirstLineSplit(md: string, line: string, rest: string)
    requires FirstLineIs(md, line, rest)
    ensures SplitFirst(md) == (line, rest)
  {
    var n := IndexOfNewline(md);
    assert forall i :: 0 <= i < |line| ==> md[i] == line[i];
    assert |line| < |md| ==> md[|line|] == '\n';
    assert n == |line|;
    assert md[..n] == line;
    if |line| < |md| {
      assert md[n + 1..] == rest;
    }
  }

  /** The list is put under a `#-` line for plain text and behind the first line of the block for any other. */
  lemma {:induction false} ListPlaced(p: Par, b: Block, ignored: set<string>, line: string, rest: string)
    requires WellTyped(p) && AttrText(p, ignored, false) != "" && FirstLineIs(b.md, line, rest)
    ensures var list := AttrText(p, ignored, false);
            Written(p, [b], ignored) ==
            if b.kind == Normal || b.kind == AutoNormal then "#- {" + list + "}\n" + p.md
            else line + " {" + list + "}\n" + rest
  {
    FirstLineSplit(b.md, line, rest);
  }

  /** Several blocks are put between fences of backticks, one longer than any that opens a code block of them. */
  lemma {:induction false} FencePlaced(p: Par, blocks: seq<Block>, ignored: set<string>) returns (n: nat)
    requires WellTyped(p) && |blocks| > 1
    ensures n >= 3
    ensures forall i :: 0 <= i < |blocks| && blocks[i].kind == Code ==> RunLength(blocks[i].md, '`') < n
    ensures n == 3 || exists i :: 0 <= i < |blocks| && blocks[i].kind == Code && RunLength(blocks[i].md, '`') == n - 1
    ensures Written(p, blocks, ignored) ==
            Repeat('`', n) + " {" + AttrText(p, ignored, true) + "}\n" + p.md + "\n" + Repeat('`', n)
  {
    n := LongestFence(blocks) + 1;
  }

  lemma TextHasLines(md: string)
    requires SplitLines(md) != []
    ensures md != ""
  {
  }

  lemma {:induction false} BareEnded(p: Par, blocks: seq<Block>, ignored: set<string>)
    requires BarePar(p, ignored) && |blocks| <= 1
    ensures Ended(Written(p, blocks, ignored)) == Terminated(ParLines(p, ignored))
  {
    WrittenIsText(p, blocks, ignored);
    CleanJoin(p.md);
    TextHasLines(p.md);
    BareLines(p, ignored);
    EndedText(SplitLines(p.md), p.md);
  }

  lemma {:induction false} BareWritten(p: Par, ignored: set<string>)
    requires BarePar(p, ignored)
    ensures var r := ParseText(p.md, WHOLE_DOCUMENT);
            r.Ok? && Ended(Written(p, r.value, ignored)) == Terminated(ParLines(p, ignored))
  {
    PlainSeen(p.md);
    BareEnded(p, ParseText(p.md, WHOLE_DOCUMENT).value, ignored);
  }

  lemma {:induction false} PlainWritten(p: Par, ignored: set<string>)
    requires GoodPar(p, ignored) && WriterIgnores(ignored) && PlainShape(SplitLines(p.md))
    ensures var r := ParseText(p.md, WHOLE_DOCUMENT);
            r.Ok? && Ended(Written(p, r.value, ignored)) == Terminated(ParLines(p, ignored))
  {
    var attrs := AttrText(p, ignored, false);
    PlainSeen(p.md);
    CleanJoin(p.md);
    assert p.md == "" ==> SplitLines(p.md) == [];
    EndedLines(CarrierText("#-", attrs), SplitLines(p.md), p.md);
    HashCarrier(attrs, p.md);
  }

  lemma {:induction false} CarriedText(lines: seq<string>, md: string, attrs: string)
    requires lines != [] && JoinLines(lines) == md && lines[|lines| - 1] != "" && NoBreaks(lines[0])
    requires md != "" && md[|md| - 1] != '\n'
    ensures attrs == "" ==> Ended(md) == Terminated([lines[0]] + lines[1..])
    ensures attrs != "" ==>
              Ended(SplitFirst(md).0 + " {" + attrs + "}\n" + SplitFirst(md).1) ==
              Terminated([CarrierText(lines[0], attrs)] + lines[1..])
  {
    if attrs == "" {
      EndedText(lines, md);
      assert [lines[0]] + lines[1..] == lines;
    } else {
      var first := CarrierText(lines[0], attrs);
      SplitFirstJoined(lines);
      CarriedLines(first, lines, md);
      ListLine(lines[0], attrs, JoinLines(lines[1..]));
    }
  }

  lemma ListLine(line: string, attrs: string, rest: string)
    ensures line + " {" + attrs + "}\n" + rest == CarrierText(line, attrs) + "\n" + rest
  {
  }

  lemma {:induction false} CarriedWritten(p: Par, ignored: set<string>, b: Block)
    requires WellTyped(p) && CleanMd(p.md) && p.md != "" && b.md == p.md
    requires b.kind == Header || b.kind == Code
    ensures var lines := SplitLines(p.md);
            var attrs := AttrText(p, ignored, false);
            lines != [] &&
            Ended(Written(p, [b], ignored)) ==
            Terminated([if attrs == "" then lines[0] else CarrierText(lines[0], attrs)] + lines[1..])
  {
    CleanJoin(p.md);
    JoinSplit(p.md);
    SplitHasNoBreaks(p.md);
    CarriedText(SplitLines(p.md), p.md, AttrText(p, ignored, false));
  }

  lemma {:induction false} AtomWritten(p: Par, ignored: set<string>)
    requires GoodPar(p, ignored) && WriterIgnores(ignored) && AtomShape(p.md)
    requires !PlainShape(SplitLines(p.md)) && !HeaderShape(SplitLines(p.md)) && !CodeShape(SplitLines(p.md))
    ensures var r := ParseText(p.md, WHOLE_DOCUMENT);
            r.Ok? && Ended(Written(p, r.value, ignored)) == Terminated(ParLines(p, ignored))
  {
    var lines := SplitLines(p.md);
    var blocks := ParseText(p.md, WHOLE_DOCUMENT).value;
    var fence := FenceOf(blocks);
    var start := CarrierText(fence, AttrText(p, ignored, true));
    CleanJoin(p.md);
    assert SplitLines("") == [] && PlainShape([]);
    JoinTerminated(lines);
    TerminatedAppend([start] + lines, [fence]);
    TerminatedAppend([start], lines);
    TerminatedOne(start);
    TerminatedOne(fence);
    FencedText(start, p.md, fence, AttrText(p, ignored, true));
  }

  lemma TerminatedOne(line: string)
    ensures Terminated([line]) == line + "\n"
  {
    assert [line][1..] == [];
  }

  lemma FencedText(start: string, md: string, fence: string, attrs: string)
    requires start == CarrierText(fence, attrs) && fence != "" && fence[|fence| - 1] == '`'
    ensures Ended(fence + " {" + attrs + "}\n" + md + "\n" + fence) ==
            ((start + "\n") + (md + "\n")) + (fence + "\n")
  {
    var s := fence + " {" + attrs + "}\n" + md + "\n" + fence;
    assert s[|s| - 1] == fence[|fence| - 1];
    assert s + "\n" == ((start + "\n") + (md + "\n")) + (fence + "\n");
  }

  /** Writing one paragraph produces its lines. */
  lemma {:induction false} ParWritten(p: Par, ignored: set<string>)
    requires AnyPar(p, ignored) && WriterIgnores(ignored)
    ensures var r := ParseText(p.md, WHOLE_DOCUMENT);
            r.Ok? && Ended(Written(p, r.value, ignored)) == Terminated(ParLines(p, ignored))
  {
    var lines := SplitLines(p.md);
    if BarePar(p, ignored) {
      BareWritten(p, ignored);
    } else if PlainShape(lines) {
      PlainWritten(p, ignored);
    } else if HeaderShape(lines) || CodeShape(lines) {
      if HeaderShape(lines) { HeaderSeen(p.md); } else { CodeSeen(p.md); }
      var r := ParseText(p.md, WHOLE_DOCUMENT);
      assert r.value == [r.value[0]];
      CarriedWritten(p, ignored, r.value[0]);
    } else {
      AtomWritten(p, ignored);
    }
  }

  lemma {:induction false} AtomRoundTrip(p: Par, ignored: set<string>, tail: seq<string>)
    requires GoodPar(p, ignored) && WriterIgnores(ignored)
    requires !PlainShape(SplitLines(p.md)) && !HeaderShape(SplitLines(p.md)) && !CodeShape(SplitLines(p.md))
    requires forall i :: 0 <= i < |tail| ==> tail[i] == ""
    ensures ParsesBack(ParLines(p, ignored) + tail, p, ignored)
  {
    var n := LongestFence(ParseText(p.md, WHOLE_DOCUMENT).value) + 1;
    FencingTransparent(p, ignored, n, tail);
    AtomCarrier(p, ignored, n);
  }

  /** The lines of one paragraph, with empty lines after them, parse back to it. */
  lemma {:induction false} ParRoundTrip(p: Par, ignored: set<string>, tail: seq<string>)
    requires AnyPar(p, ignored) && WriterIgnores(ignored)
    requires forall i :: 0 <= i < |tail| ==> tail[i] == ""
    ensures ParsesBack(ParLines(p, ignored) + tail, p, ignored)
  {
    var lines := SplitLines(p.md);
    if BarePar(p, ignored) {
      BareReads(p, ignored, tail);
    } else if PlainShape(lines) {
      HashRoundTrip(p, ignored, tail);
      var first := CarrierText("#-", AttrText(p, ignored, false));
      assert ParLines(p, ignored) + tail == [first] + (lines + tail);
    } else if HeaderShape(lines) {
      HeaderRoundTrip(p, ignored, tail);
    } else if CodeShape(lines) {
      CodeRoundTrip(p, ignored, tail);
    } else {
      AtomRoundTrip(p, ignored, tail);
    }
  }

  /** Text of a plain paragraph or of a header, which goes on as long as nothing opens. */
  predicate TextPar(p: Par) {
    PlainShape(SplitLines(p.md)) || HeaderShape(SplitLines(p.md))
  }

  /** The first line of a paragraph: what it opens. */
  lemma {:induction false} ParOpens(p: Par, ignored: set<string>)
    requires AnyPar(p, ignored) && WriterIgnores(ignored)
    ensures var ls := ParLines(p, ignored);
            && ls != [] && !IsBlank(ls[0]) && (IsFence(ls[0]) <==> !TextPar(p))
            && (StartsBlock(ls[0]) <==> !BarePar(p, ignored))
  {
    var lines := SplitLines(p.md);
    var first := ParLines(p, ignored)[0];
    if BarePar(p, ignored) {
      assert !Stops(lines[0], false);
    } else if PlainShape(lines) {
      assert first[0] == '#';
    } else if HeaderShape(lines) {
      HeaderFirst(lines[0], AttrText(p, ignored, false));
      assert first[0] == '#';
    } else if CodeShape(lines) {
      WithListMarker(lines[0], AttrText(p, ignored, false));
    } else {
      AtomOpens(p, ignored);
    }
    if StartsBlock(first) {
      StartsBlockNotBlank(first);
    }
  }

  lemma {:induction false} AtomOpens(p: Par, ignored: set<string>)
    requires GoodPar(p, ignored) && WriterIgnores(ignored)
    requires !PlainShape(SplitLines(p.md)) && !HeaderShape(SplitLines(p.md)) && !CodeShape(SplitLines(p.md))
    ensures IsFence(ParLines(p, ignored)[0])
  {
    AtomCarrier(p, ignored, LongestFence(ParseText(p.md, WHOLE_DOCUMENT).value) + 1);
  }

  lemma UnbrokenParts(first: string, lines: seq<string>, last: seq<string>)
    requires NoBreaks(first) && Unbroken(lines) && Unbroken(last)
    ensures Unbroken([first] + lines + last)
  {
  }

  lemma SplitUnbroken(text: string)
    ensures Unbroken(SplitLines(text))
  {
    SplitHasNoBreaks(text);
    assert forall i :: 0 <= i < |SplitLines(text)| ==> SplitLines(text)[i] in SplitLines(text);
  }

  lemma {:induction false} ParLinesUnbroken(p: Par, ignored: set<string>)
    requires AnyPar(p, ignored) && WriterIgnores(ignored)
    ensures Unbroken(ParLines(p, ignored))
  {
    SplitUnbroken(p.md);
    if BarePar(p, ignored) {
      BareLines(p, ignored);
    } else {
      ListedUnbroken(p, ignored);
    }
  }

  lemma {:induction false} ListedUnbroken(p: Par, ignored: set<string>)
    requires GoodPar(p, ignored) && WriterIgnores(ignored)
    ensures Unbroken(ParLines(p, ignored))
  {
    var lines := SplitLines(p.md);
    SplitUnbroken(p.md);
    if PlainShape(lines) || HeaderShape(lines) || CodeShape(lines) {
      AttrTextUnbroken(p, ignored, false);
      CarriedUnbroken(lines, AttrText(p, ignored, false));
    } else {
      AttrTextUnbroken(p, ignored, true);
      FencedUnbroken(lines, AttrText(p, ignored, true), LongestFence(ParseText(p.md, WHOLE_DOCUMENT).value) + 1);
    }
  }

  lemma CarriedUnbroken(lines: seq<string>, attrs: string)
    requires Unbroken(lines) && NoBreaks(attrs)
    ensures Unbroken([CarrierText("#-", attrs)] + lines)
    ensures lines != [] ==> Unbroken([WithList(lines[0], attrs)] + lines[1..])
  {
    CarrierUnbroken("#-", attrs);
    if lines != [] {
      CarrierUnbroken(lines[0], attrs);
    }
  }

  lemma CarrierUnbroken(first: string, attrs: string)
    requires NoBreaks(first) && NoBreaks(attrs)
    ensures NoBreaks(CarrierText(first, attrs)) && NoBreaks(WithList(first, attrs))
  {
  }

  lemma FencedUnbroken(lines: seq<string>, attrs: string, n: nat)
    requires Unbroken(lines) && NoBreaks(attrs) && n >= 3
    ensures var fence := Repeat('`', n); Unbroken([CarrierText(fence, attrs)] + lines + [fence])
  {
    FenceOfIs(n);
    CarrierUnbroken(Repeat('`', n), attrs);
    UnbrokenParts(CarrierText(Repeat('`', n), attrs), lines, [Repeat('`', n)]);
  }

  // ----- the whole document -----

  predicate AnyPars(pars: seq<Par>, ignored: set<string>) {
    forall i :: 0 <= i < |pars| ==> AnyPar(pars[i], ignored)
  }

  /** Every paragraph after an empty line. */
  function DocLines(pars: seq<Par>, ignored: set<string>): seq<string>
    requires forall i :: 0 <= i < |pars| ==> WellTyped(pars[i])
  {
    if pars == [] then []
    else DocLines(pars[..|pars| - 1], ignored) + ([""] + ParLines(pars[|pars| - 1], ignored))
  }

  lemma TerminatedPar(a: seq<string>, b: seq<string>)
    ensures Terminated(a + ([""] + b)) == Terminated(a) + "\n" + Terminated(b)
  {
    TerminatedAppend(a, [""] + b);
    assert ([""] + b)[1..] == b;
  }

  lemma {:induction false} DocWritten(pars: seq<Par>, ignored: set<string>)
    requires AnyPars(pars, ignored) && WriterIgnores(ignored)
    ensures WrittenAll(pars, WHOLE_DOCUMENT, ignored) == Ok(Terminated(DocLines(pars, ignored)))
  {
    if pars != [] {
      var init, p := pars[..|pars| - 1], pars[|pars| - 1];
      DocWritten(init, ignored);
      ParWritten(p, ignored);
      TerminatedPar(DocLines(init, ignored), ParLines(p, ignored));
    }
  }

  lemma {:induction false} DocLinesUnbroken(pars: seq<Par>, ignored: set<string>)
    requires AnyPars(pars, ignored) && WriterIgnores(ignored)
    ensures Unbroken(DocLines(pars, ignored))
    ensures pars != [] ==> DocLines(pars, ignored) != [] && DocLines(pars, ignored)[0] == ""
  {
    if pars != [] {
      var init, p := pars[..|pars| - 1], pars[|pars| - 1];
      DocLinesUnbroken(init, ignored);
      ParLinesUnbroken(p, ignored);
      MoreUnbroken(DocLines(init, ignored), ParLines(p, ignored));
    }
  }

  lemma MoreUnbroken(a: seq<string>, b: seq<string>)
    requires Unbroken(a) && Unbroken(b) && (a != [] ==> a[0] == "")
    ensures Unbroken(a + ([""] + b)) && (a + ([""] + b))[0] == ""
  {
  }

  predicate AllMatch(bs: seq<Block>, pars: seq<Par>, ignored: set<string>) {
    |bs| == |pars| && forall i :: 0 <= i < |pars| ==> Matches(bs[i], pars[i], ignored)
  }

  /** The lines leave no fence open and parse to the paragraphs. */
  predicate LinesAre(lines: seq<string>, pars: seq<Par>, ignored: set<string>) {
    var r := SplitBlocks(lines, false);
    AllClosed(Chunks(lines, false)) && r.Ok? && AllMatch(r.value, pars, ignored)
  }

  /** One more paragraph after lines that parse to the earlier ones. */
  lemma {:induction false} DocStep(a: seq<string>, b: seq<string>, pars: seq<Par>, ignored: set<string>)
    requires pars != [] && LinesAre(a, pars[..|pars| - 1], ignored)
    requires ParsesBack(b, pars[|pars| - 1], ignored)
    requires Chunks(a + b, false) == Chunks(a, false) + Chunks(b, false)
    ensures LinesAre(a + b, pars, ignored)
  {
    ClosedAppend(Chunks(a, false), Chunks(b, false));
    ChunksProper(a, false);
    ChunksProper(b, false);
    ToBlocksAppend(Chunks(a, false), Chunks(b, false));
    OneParsed(b, pars[|pars| - 1], ignored);
    MatchesAppend(SplitBlocks(a, false).value, SplitBlocks(b, false).value, pars, ignored);
  }

  lemma ClosedAppend(x: seq<Chunk>, y: seq<Chunk>)
    requires AllClosed(x) && AllClosed(y)
    ensures AllClosed(x + y)
  {
  }

  lemma MatchesAppend(bs: seq<Block>, more: seq<Block>, pars: seq<Par>, ignored: set<string>)
    requires pars != [] && AllMatch(bs, pars[..|pars| - 1], ignored)
    requires |more| == 1 && Matches(more[0], pars[|pars| - 1], ignored)
    ensures AllMatch(bs + more, pars, ignored)
  {
  }

  lemma OneParsed(b: seq<string>, p: Par, ignored: set<string>)
    requires ParsesBack(b, p, ignored)
    ensures var r := SplitBlocks(b, false); r.Ok? && |r.value| == 1 && Matches(r.value[0], p, ignored)
  {
    ChunksProper(b, false);
    var cs := Chunks(b, false);
    assert cs == [cs[0]];
    OneBlock(cs[0]);
  }

  // ----- bare paragraphs after text -----

  /** The paragraph at `i` is bare and the one before it is text. */
  predicate JoinsAt(pars: seq<Par>, i: nat, ignored: set<string>)
    requires i < |pars|
  {
    i >= 1 && BarePar(pars[i], ignored) && TextPar(pars[i - 1])
  }

  predicate LastJoins(pars: seq<Par>, ignored: set<string>) {
    pars != [] && JoinsAt(pars, |pars| - 1, ignored)
  }

  /** How many bare paragraphs come right after text. */
  function Joins(pars: seq<Par>, ignored: set<string>): (n: nat)
    ensures pars != [] ==> n < |pars|
    ensures pars == [] ==> n == 0
  {
    if pars == [] then 0 else Joins(pars[..|pars| - 1], ignored) + (if LastJoins(pars, ignored) then 1 else 0)
  }

  /** No bare paragraph comes right after text. */
  predicate NoneJoins(pars: seq<Par>, ignored: set<string>) {
    forall i :: 0 <= i < |pars| ==> !JoinsAt(pars, i, ignored)
  }

  lemma JoinsBefore(pars: seq<Par>, i: nat, ignored: set<string>)
    requires i < |pars| - 1
    ensures JoinsAt(pars[..|pars| - 1], i, ignored) == JoinsAt(pars, i, ignored)
  {
  }

  lemma {:induction false} JoinsCounted(pars: seq<Par>, i: nat, ignored: set<string>)
    requires i < |pars| && JoinsAt(pars, i, ignored)
    ensures Joins(pars, ignored) > 0
  {
    if i < |pars| - 1 {
      JoinsBefore(pars, i, ignored);
      JoinsCounted(pars[..|pars| - 1], i, ignored);
    }
  }

  lemma {:induction false} JoinsSomewhere(pars: seq<Par>, ignored: set<string>) returns (i: nat)
    requires Joins(pars, ignored) > 0
    ensures i < |pars| && JoinsAt(pars, i, ignored)
  {
    if LastJoins(pars, ignored) {
      i := |pars| - 1;
    } else {
      i := JoinsSomewhere(pars[..|pars| - 1], ignored);
      JoinsBefore(pars, i, ignored);
    }
  }

  lemma {:induction false} NoneJoinsCount(pars: seq<Par>, ignored: set<string>)
    ensures NoneJoins(pars, ignored) <==> Joins(pars, ignored) == 0
  {
    if Joins(pars, ignored) > 0 {
      var i := JoinsSomewhere(pars, ignored);
    } else {
      forall i | 0 <= i < |pars|
        ensures !JoinsAt(pars, i, ignored)
      {
        if JoinsAt(pars, i, ignored) {
          JoinsCounted(pars, i, ignored);
        }
      }
    }
  }

  /** The chunks of the written paragraphs: one fewer for each paragraph that joins. */
  predicate DocChunks(cs: seq<Chunk>, pars: seq<Par>, ignored: set<string>) {
    && AllClosed(cs) && |cs| + Joins(pars, ignored) == |pars|
    && (EndsFenced(cs) <==> pars == [] || !TextPar(pars[|pars| - 1]))
  }

  lemma {:induction false} OneChunkKind(p: Par, ignored: set<string>, b: seq<string>)
    requires b != [] && !IsBlank(b[0]) && ParsesBack(b, p, ignored)
    ensures Chunks(b, false)[0].Fence? <==> IsFence(b[0])
  {
    ChunksCons(b, false);
  }

  lemma ChunksAdded(cs: seq<Chunk>, c: Chunk, pars: seq<Par>, ignored: set<string>)
    requires pars != [] && DocChunks(cs, pars[..|pars| - 1], ignored) && !LastJoins(pars, ignored)
    requires AllClosed([c]) && (c.Fence? <==> !TextPar(pars[|pars| - 1]))
    ensures DocChunks(cs + [c], pars, ignored)
  {
    ClosedAppend(cs, [c]);
  }

  lemma ChunksGrown(cs: seq<Chunk>, more: seq<Chunk>, b: seq<string>, pars: seq<Par>, ignored: set<string>)
    requires pars != [] && DocChunks(cs, pars[..|pars| - 1], ignored) && LastJoins(pars, ignored)
    requires LastLonger(cs, more, b) && TextPar(pars[|pars| - 1])
    ensures DocChunks(more, pars, ignored)
  {
    StillText(cs, more, b);
  }

  /** The chunks of one more paragraph that does not join come after the others. */
  lemma {:induction false} ParAfter(a: seq<string>, b: seq<string>)
    requires AllClosed(Chunks(a, false)) && b != []
    requires StartsBlock(b[0]) || EndsFenced(Chunks(a, false))
    ensures Chunks(a + b, false) == Chunks(a, false) + Chunks(b, false)
  {
    if StartsBlock(b[0]) {
      ChunksAppend(a, b, false);
    } else {
      AfterFence(a, b, false);
    }
  }

  /** A paragraph that does not join begins a block, or comes after a fence. */
  lemma BeginsAnew(cs: seq<Chunk>, first: string, pars: seq<Par>, ignored: set<string>)
    requires pars != [] && !LastJoins(pars, ignored) && DocChunks(cs, pars[..|pars| - 1], ignored)
    requires StartsBlock(first) <==> !BarePar(pars[|pars| - 1], ignored)
    ensures StartsBlock(first) || EndsFenced(cs)
  {
    var init := pars[..|pars| - 1];
    assert init != [] ==> init[|init| - 1] == pars[|pars| - 2];
  }

  lemma {:induction false} ParAdds(a: seq<string>, b: seq<string>, p: Par, pars: seq<Par>, ignored: set<string>)
    requires pars != [] && p == pars[|pars| - 1] && !LastJoins(pars, ignored)
    requires b != [] && !IsBlank(b[0]) && (IsFence(b[0]) <==> !TextPar(p)) && ParsesBack(b, p, ignored)
    requires DocChunks(Chunks(a, false), pars[..|pars| - 1], ignored)
    requires StartsBlock(b[0]) || EndsFenced(Chunks(a, false))
    ensures DocChunks(Chunks(a + b, false), pars, ignored)
    ensures Chunks(a + b, false) == Chunks(a, false) + Chunks(b, false)
  {
    var c := Chunks(b, false)[0];
    ParAfter(a, b);
    OneChunkKind(p, ignored, b);
    assert Chunks(b, false) == [c];
    ChunksAdded(Chunks(a, false), c, pars, ignored);
  }

  lemma JoinsText(cs: seq<Chunk>, pars: seq<Par>, ignored: set<string>)
    requires LastJoins(pars, ignored) && DocChunks(cs, pars[..|pars| - 1], ignored)
    ensures AllClosed(cs) && !EndsFenced(cs) && TextPar(pars[|pars| - 1])
  {
    var init := pars[..|pars| - 1];
    assert init[|init| - 1] == pars[|pars| - 2];
  }

  lemma {:induction false} ParJoins(a: seq<string>, b: seq<string>, pars: seq<Par>, ignored: set<string>)
    requires LastJoins(pars, ignored) && PlainShape(b)
    requires DocChunks(Chunks(a, false), pars[..|pars| - 1], ignored)
    ensures DocChunks(Chunks(a + b, false), pars, ignored)
  {
    JoinsText(Chunks(a, false), pars, ignored);
    TextGrows(a, b);
    ChunksGrown(Chunks(a, false), Chunks(a + b, false), b, pars, ignored);
  }

  lemma BarePlain(p: Par, ignored: set<string>, tail: seq<string>)
    requires BarePar(p, ignored) && forall i :: 0 <= i < |tail| ==> tail[i] == ""
    ensures PlainShape(ParLines(p, ignored) + tail)
  {
    BlankIsPlain(tail);
    BareLines(p, ignored);
    PlainAppend(SplitLines(p.md), tail);
  }

  lemma {:induction false} DocMore(a: seq<string>, p: Par, tail: seq<string>, pars: seq<Par>, ignored: set<string>)
    requires pars != [] && p == pars[|pars| - 1] && AnyPar(p, ignored) && WriterIgnores(ignored)
    requires forall i :: 0 <= i < |tail| ==> tail[i] == ""
    requires DocChunks(Chunks(a, false), pars[..|pars| - 1], ignored)
    ensures DocChunks(Chunks(a + (ParLines(p, ignored) + tail), false), pars, ignored)
  {
    var b := ParLines(p, ignored) + tail;
    if LastJoins(pars, ignored) {
      BarePlain(p, ignored, tail);
      ParJoins(a, b, pars, ignored);
    } else {
      ParOpens(p, ignored);
      ParRoundTrip(p, ignored, tail);
      assert b[0] == ParLines(p, ignored)[0];
      BeginsAnew(Chunks(a, false), b[0], pars, ignored);
      ParAdds(a, b, p, pars, ignored);
    }
  }

  lemma {:induction false} DocMatches(a: seq<string>, p: Par, tail: seq<string>, pars: seq<Par>,
                                      ignored: set<string>)
    requires pars != [] && p == pars[|pars| - 1] && AnyPar(p, ignored) && WriterIgnores(ignored)
    requires forall i :: 0 <= i < |tail| ==> tail[i] == ""
    requires DocChunks(Chunks(a, false), pars[..|pars| - 1], ignored)
    requires !LastJoins(pars, ignored) && LinesAre(a, pars[..|pars| - 1], ignored)
    ensures LinesAre(a + (ParLines(p, ignored) + tail), pars, ignored)
  {
    var b := ParLines(p, ignored) + tail;
    ParOpens(p, ignored);
    ParRoundTrip(p, ignored, tail);
    assert b[0] == ParLines(p, ignored)[0];
    BeginsAnew(Chunks(a, false), b[0], pars, ignored);
    ParAdds(a, b, p, pars, ignored);
    DocStep(a, b, pars, ignored);
  }

  lemma {:induction false} DocParses(pars: seq<Par>, ignored: set<string>, tail: seq<string>)
    requires AnyPars(pars, ignored) && WriterIgnores(ignored)
    requires forall i :: 0 <= i < |tail| ==> tail[i] == ""
    ensures DocChunks(Chunks(DocLines(pars, ignored) + tail, false), pars, ignored)
    ensures Joins(pars, ignored) == 0 ==> LinesAre(DocLines(pars, ignored) + tail, pars, ignored)
    decreases |pars|
  {
    if pars == [] {
      assert DocLines(pars, ignored) + tail == tail;
      BlankTail(tail, false);
    } else {
      var init, p := pars[..|pars| - 1], pars[|pars| - 1];
      var a := DocLines(init, ignored);
      DocParses(init, ignored, [""]);
      DocMore(a + [""], p, tail, pars, ignored);
      if Joins(pars, ignored) == 0 {
        DocMatches(a + [""], p, tail, pars, ignored);
      }
      RegroupLines(a, ParLines(p, ignored), tail);
    }
  }

  lemma RegroupLines(a: seq<string>, b: seq<string>, tail: seq<string>)
    ensures a + ([""] + b) + tail == (a + [""]) + (b + tail)
  {
  }

  /** What parsing the written lines means for the written text. */
  lemma {:induction false} DocText(pars: seq<Par>, ignored: set<string>)
    requires AnyPars(pars, ignored) && WriterIgnores(ignored)
    ensures var text := WriteText(pars, WHOLE_DOCUMENT, ignored);
            text.Ok? && ParseText(text.value, WHOLE_DOCUMENT) == SplitBlocks(DocLines(pars, ignored), false)
  {
    var lines := DocLines(pars, ignored);
    DocWritten(pars, ignored);
    DocLinesUnbroken(pars, ignored);
    if pars == [] {
      assert Terminated(lines) == "";
      WholeIsSplit("");
    } else {
      var text := Terminated(lines[1..]);
      assert Terminated(lines) == "" + "\n" + text;
      assert ("" + "\n" + text)[1..] == text;
      SplitTerminated(lines[1..], "");
      assert text + "" == text && lines[1..] + [] == lines[1..];
      assert Chunks(lines, false) == Chunks(lines[1..], false);
      WholeIsSplit(text);
    }
  }

  /**
   Whole-document round trip: for every list of well-formed paragraphs, the text that the writer produces parses
   to exactly those paragraphs, in order, with the same texts, ids and attributes, if and only if no paragraph
   that is written bare comes right after text. There is one block fewer for each that does.
   */
  lemma {:induction false} DocumentRoundTrip(pars: seq<Par>, exportHashes: bool, exportIds: bool)
    requires AnyPars(pars, Ignored(exportHashes, exportIds))
    ensures var ignored := Ignored(exportHashes, exportIds);
            var text := WriteText(pars, WHOLE_DOCUMENT, ignored);
            && text.Ok?
            && var blocks := ParseText(text.value, WHOLE_DOCUMENT);
               && (blocks.Ok? && AllMatch(blocks.value, pars, ignored) <==> NoneJoins(pars, ignored))
               && (blocks.Ok? ==> |blocks.value| + Joins(pars, ignored) == |pars|)
  {
    var ignored := Ignored(exportHashes, exportIds);
    var lines := DocLines(pars, ignored);
    WritersIgnore(exportHashes, exportIds);
    DocText(pars, ignored);
    DocParses(pars, ignored, []);
    assert lines + [] == lines;
    NoneJoinsCount(pars, ignored);
    ChunksProper(lines, false);
    if SplitBlocks(lines, false).Ok? {
      BlocksCount(Chunks(lines, false));
    }
  }

  // ----- a paragraph on its own -----

  lemma OneUnmerged(bs: seq<Block>, o: Options)
    requires |bs| <= 1
    ensures MergeAll([], bs, o) == bs
  {
    if bs != [] {
      assert [] + [bs[0]] == bs;
      assert bs[1..] == [];
    }
  }

  /** A text of at most one block parses the same under the options for single paragraphs. */
  lemma SingleIsWhole(md: string)
    requires var r := ParseText(md, WHOLE_DOCUMENT); r.Ok? && |r.value| <= 1
    ensures ParseText(md, SINGLE_PARAGRAPH) == ParseText(md, WHOLE_DOCUMENT)
  {
    WholeIsSplit(md);
    OneUnmerged(SplitBlocks(SplitLines(md), false).value, SINGLE_PARAGRAPH);
  }

  lemma WrittenAlone(p: Par, o: Options, ignored: set<string>)
    requires WellTyped(p)
    ensures WriteText([p], o, ignored) == match Extended("", p, o, ignored)
                                          case Raised(e) => Raised(e)
                                          case Ok(text) => Ok(if text == "" then "" else text[1..])
  {
    assert [p][..0] == [];
    assert WrittenAll([p], o, ignored) == Extended("", p, o, ignored);
  }

  /** A well-formed paragraph of at most one block survives export under the options for single paragraphs. */
  lemma {:induction false} SingleRoundTrip(p: Par, exportHashes: bool, exportIds: bool)
    requires AnyPar(p, Ignored(exportHashes, exportIds))
    requires var r := ParseText(p.md, WHOLE_DOCUMENT); r.Ok? && |r.value| <= 1
    ensures var ignored := Ignored(exportHashes, exportIds);
            var text := WriteText([p], SINGLE_PARAGRAPH, ignored);
            text.Ok? && var blocks := ParseText(text.value, SINGLE_PARAGRAPH);
            blocks.Ok? && AllMatch(blocks.value, [p], ignored)
  {
    var ignored := Ignored(exportHashes, exportIds);
    DocumentRoundTrip([p], exportHashes, exportIds);
    SingleIsWhole(p.md);
    WrittenAlone(p, SINGLE_PARAGRAPH, ignored);
    WrittenAlone(p, WHOLE_DOCUMENT, ignored);
    SingleIsWhole(WriteText([p], WHOLE_DOCUMENT, ignored).value);
  }
}
