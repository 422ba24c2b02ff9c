/** The kind that the parser gives a block determines the shape of its text, so parsed blocks can be written again. */
module ParsedShapes {
  import opened Text
  import opened AttributeList
  import opened AttributePrinting
  import opened DocumentFormat
  import opened DocumentWriting
  import opened Composition
  import opened CodeBlocks
  import opened ParagraphAttributes
  import opened RoundTrip
  import opened ParsedAttributes
  import opened AttributeSurvival
  import opened BareParagraphs
  import opened DocumentRoundTrip

  // ----- stripping a joined text, line by line -----

  /** `kept` are lines of `lines` from `j` on, the last of them without its trailing whitespace. */
  predicate Remain(kept: seq<string>, lines: seq<string>, j: nat) {
    && |kept| + j <= |lines|
    && (forall i :: 0 <= i < |kept| - 1 ==> kept[i] == lines[i + j])
    && (kept != [] ==>
          var k := |kept| - 1;
          kept[k] == RStrip(lines[k + j]) && !IsBlank(kept[k]))
  }

  lemma RemainLast(lines: seq<string>)
    requires lines != [] && !IsBlank(lines[|lines| - 1])
    ensures Remain(lines[..|lines| - 1] + [RStrip(lines[|lines| - 1])], lines, 0)
  {
    var last := lines[|lines| - 1];
    RStripNotBlank(last);
    RStripSplit(last);
    var s := RStrip(last);
    assert !IsSpace(s[|s| - 1]);
  }

  /** Trailing blank lines and trailing whitespace of the last other line are removed on the right. */
  lemma {:induction false} RStripLines(lines: seq<string>) returns (kept: seq<string>)
    ensures RStrip(JoinLines(lines)) == JoinLines(kept) && Remain(kept, lines, 0)
    ensures forall i :: |kept| <= i < |lines| ==> IsBlank(lines[i])
  {
    if lines == [] {
      kept := [];
    } else {
      var n := |lines| - 1;
      if IsBlank(lines[n]) {
        kept := RStripLines(lines[..n]);
        DropBlank(lines, n);
        assert forall i :: 0 <= i < n ==> lines[..n][i] == lines[i];
      } else {
        RStripJoined(lines);
        RemainLast(lines);
        kept := lines[..n] + [RStrip(lines[n])];
      }
    }
  }

  lemma DropBlank(lines: seq<string>, n: nat)
    requires |lines| == n + 1 && IsBlank(lines[n])
    ensures RStrip(JoinLines(lines)) == RStrip(JoinLines(lines[..n]))
  {
    assert lines == lines[..n] + [lines[n]];
    if n == 0 {
      assert JoinLines(lines) == "" + lines[0];
      RStripAppend("", lines[0]);
    } else {
      JoinAppend(lines[..n], [lines[n]]);
      RStripAppend(JoinLines(lines[..n]), "\n" + lines[n]);
      Assoc(JoinLines(lines[..n]), "\n", lines[n]);
    }
  }

  /** Leading empty lines are removed on the left. */
  lemma {:induction false} LStripLines(kept: seq<string>) returns (j: nat)
    requires kept != [] ==> kept[|kept| - 1] != ""
    requires Unbroken(kept)
    ensures j <= |kept| && (j < |kept| ==> kept[j] != "") && (kept != [] ==> j < |kept|)
    ensures forall i :: 0 <= i < j ==> kept[i] == ""
    ensures LStripNewlines(JoinLines(kept)) == JoinLines(kept[j..])
  {
    if kept == [] || kept[0] != "" {
      j := 0;
      assert kept[0..] == kept;
      if kept != [] {
        JoinStarts(kept);
      }
    } else {
      assert |kept| > 1;
      assert JoinLines(kept) == "" + "\n" + JoinLines(kept[1..]);
      assert JoinLines(kept)[1..] == JoinLines(kept[1..]);
      j := LStripLines(kept[1..]);
      assert kept[1..][j..] == kept[j + 1..];
      j := j + 1;
    }
  }

  lemma PrefixUnbroken(kept: seq<string>, lines: seq<string>, j: nat)
    requires Remain(kept, lines, j) && Unbroken(lines)
    ensures Unbroken(kept)
  {
    if kept != [] {
      RStripSplit(lines[|kept| - 1 + j]);
    }
  }

  lemma {:induction false} JoinedNewlines(lines: seq<string>)
    requires Unbroken(lines)
    ensures OnlyNewlines(JoinLines(lines))
  {
    if |lines| > 1 {
      JoinedNewlines(lines[1..]);
    }
  }

  lemma {:induction false} JoinedEnd(lines: seq<string>)
    requires lines != [] && lines[|lines| - 1] != ""
    ensures JoinLines(lines) != "" &&
      JoinLines(lines)[|JoinLines(lines)| - 1] == lines[|lines| - 1][|lines[|lines| - 1]| - 1]
  {
    if |lines| > 1 {
      JoinedEnd(lines[1..]);
    }
  }

  lemma EndsStay(md: string)
    requires md != "" && !IsSpace(md[|md| - 1]) && md[0] != '\n' && md[0] != '\r'
    ensures StripMd(md) == md
  {
  }

  lemma LastStays(s: string)
    requires RStrip(s) == s && !IsBlank(s)
    ensures s != "" && !IsSpace(s[|s| - 1])
  {
    RStripSplit(s);
  }

  lemma FirstStays(s: string)
    requires s != "" && NoBreaks(s)
    ensures s[0] != '\n' && s[0] != '\r'
  {
  }

  /** Lines with text at both ends join to a clean text of these lines. */
  lemma CleanLines(rest: seq<string>)
    requires Unbroken(rest) && rest != [] && rest[0] != "" && !IsBlank(rest[|rest| - 1])
    requires RStrip(rest[|rest| - 1]) == rest[|rest| - 1]
    ensures var md := JoinLines(rest); CleanMd(md) && SplitLines(md) == rest
  {
    LastStays(rest[|rest| - 1]);
    FirstStays(rest[0]);
    JoinedNewlines(rest);
    JoinedEnd(rest);
    JoinStarts(rest);
    EndsStay(JoinLines(rest));
    assert forall l :: l in rest ==> NoBreaks(l);
    SplitJoined(rest);
  }

  lemma RStripTwice(s: string)
    ensures RStrip(RStrip(s)) == RStrip(s)
  {
    RStripSplit(s);
  }

  lemma RemainTail(kept: seq<string>, lines: seq<string>, j: nat)
    requires Remain(kept, lines, 0) && Unbroken(kept) && j <= |kept|
    ensures Remain(kept[j..], lines, j) && Unbroken(kept[j..])
  {
  }

  /** What stripping leaves of joined lines is a clean text of some of them. */
  lemma {:induction false} StripLines(lines: seq<string>) returns (rest: seq<string>, j: nat)
    requires Unbroken(lines)
    ensures var md := StripMd(JoinLines(lines)); CleanMd(md) && SplitLines(md) == rest
    ensures Remain(rest, lines, j)
    ensures forall i :: 0 <= i < j ==> lines[i] == "" || rest == []
    ensures rest == [] ==> forall i :: 0 <= i < |lines| ==> IsBlank(lines[i])
    ensures rest != [] ==> rest[0] != "" && forall i :: j + |rest| <= i < |lines| ==> IsBlank(lines[i])
  {
    var kept := RStripLines(lines);
    PrefixUnbroken(kept, lines, 0);
    j := LStripLines(kept);
    rest := kept[j..];
    RemainTail(kept, lines, j);
    if kept != [] {
      assert forall i :: 0 <= i < j ==> lines[i] == kept[i];
      RStripTwice(lines[|kept| - 1]);
      assert rest[0] == kept[j] && rest[|rest| - 1] == kept[|kept| - 1];
      CleanLines(rest);
    }
  }

  // ----- the shape of each kind -----

  lemma PrefixPlain(s: string, line: string)
    requires s <= line && !Stops(line, false)
    ensures !Stops(s, false)
  {
  }

  lemma RemainPlain(rest: seq<string>, lines: seq<string>, j: nat)
    requires Remain(rest, lines, j) && PlainShape(lines)
    ensures PlainShape(rest)
  {
    forall i | 0 <= i < |rest|
      ensures !Stops(rest[i], false)
    {
      RStripSplit(lines[i + j]);
      PrefixPlain(rest[i], lines[i + j]);
    }
  }

  lemma {:induction false} PlainTextShape(lines: seq<string>)
    requires Unbroken(lines) && PlainShape(lines)
    ensures var md := StripMd(JoinLines(lines)); CleanMd(md) && PlainShape(SplitLines(md))
  {
    var rest, j := StripLines(lines);
    RemainPlain(rest, lines, j);
  }

  lemma HeaderJoin(first: string, body: seq<string>)
    ensures StripMd(first + "\n" + JoinLines(body)) == StripMd(JoinLines([first] + body))
  {
    if body == [] {
      assert [first] + body == [first];
      assert first + "\n" + "" == first + "\n";
      RStripAppend(first, "\n");
    } else {
      JoinCons(first, body);
    }
  }

  lemma HeaderRest(rest: seq<string>, first: string, body: seq<string>)
    requires Remain(rest, [first] + body, 0) && PlainShape(body) && rest != []
    ensures PlainShape(rest[1..])
  {
    forall i | 1 <= i < |rest|
      ensures !Stops(rest[i], false)
    {
      var line := ([first] + body)[i];
      assert line == body[i - 1];
      RStripSplit(line);
      PrefixPlain(rest[i], line);
    }
  }

  lemma TrimmedIsStripped(s: string)
    requires Trimmed(s)
    ensures RStrip(s) == s
  {
  }

  /** The text after a header's first line. */
  lemma {:induction false} HeaderTextShape(first: string, body: seq<string>)
    requires Unbroken([first] + body) && PlainShape(body)
    requires IsHeading(first) && !StartsWith(first, "#-") && Trimmed(first)
    ensures var md := StripMd(first + "\n" + JoinLines(body)); CleanMd(md) && HeaderShape(SplitLines(md))
  {
    var lines := [first] + body;
    HeaderJoin(first, body);
    StartsBlockNotBlank(first);
    var rest, j := StripLines(lines);
    assert lines[0] == first;
    assert rest != [] && j == 0;
    TrimmedIsStripped(first);
    assert rest[0] == first;
    HeaderRest(rest, first, body);
  }

  /** The first line of a header without its attribute list. */
  lemma {:induction false} HeaderFirstLine(start: string, at: Option<nat>)
    requires IsHeading(start) && !StartsWith(start, "#-") && NoBreaks(start)
    requires at.Some? ==> at.value < |start| && start[at.value] == '{'
    ensures var first := FirstLine(start, at);
            IsHeading(first) && !StartsWith(first, "#-") && Trimmed(first) && NoBreaks(first)
  {
    var cut := if at.Some? then start[..at.value] else start;
    assert cut[0] == '#';
    RStripSplit(cut);
    RStripKeeps(cut, 1);
    StripTrims(cut);
    assert FirstLine(start, at) == RStrip(cut) <= start;
  }

  /** Text chunks hold lines of plain text. */
  predicate PlainChunk(c: Chunk) {
    match c
    case Fence(_, _, _) => true
    case Heading(start, body) => IsHeading(start) && PlainShape(body)
    case Plain(body) => PlainShape(body)
  }

  lemma {:induction false} ChunksPlain(lines: seq<string>)
    ensures forall i :: 0 <= i < |Chunks(lines, false)| ==> PlainChunk(Chunks(lines, false)[i])
    decreases |lines|
  {
    if lines != [] {
      if IsBlank(lines[0]) {
        ChunksPlain(lines[1..]);
      } else {
        var c := FirstChunk(lines, false);
        assert PlainChunk(c);
        ChunksPlain(lines[|ChunkLines(c)|..]);
      }
    }
  }

  /** The kind of a block tells the shape of its text. */
  predicate KindShape(b: Block) {
    && CleanMd(b.md)
    && match b.kind
       case Code => CodeShape(SplitLines(b.md)) && EndIsClean(b.md).Ok?
       case Header => HeaderShape(SplitLines(b.md))
       case Atom => true
       case _ => PlainShape(SplitLines(b.md))
  }

  lemma HeadingUnbroken(start: string, first: string, body: seq<string>)
    requires Unbroken([start] + body) && NoBreaks(first)
    ensures NoBreaks(start) && Unbroken(body) && Unbroken([first] + body)
  {
    assert ([start] + body)[0] == start;
    assert forall i :: 0 <= i < |body| ==> ([start] + body)[i + 1] == body[i];
  }

  lemma {:induction false} HeadingShape(c: Chunk)
    requires c.Heading? && PlainChunk(c) && Unbroken(ChunkLines(c)) && ToBlock(c).Ok?
    ensures KindShape(ToBlock(c).value)
  {
    var a := GetAttributes(c.start).value;
    HeadingUnbroken(c.start, "", c.body);
    if StartsWith(c.start, "#-") {
      PlainTextShape(c.body);
    } else {
      var first := FirstLine(c.start, a.start);
      HeaderFirstLine(c.start, a.start);
      HeadingUnbroken(c.start, first, c.body);
      HeaderTextShape(first, c.body);
    }
  }

  lemma {:induction false} FenceShape(c: Chunk)
    requires c.Fence? && Shaped(c) && ToBlock(c).Ok?
    ensures KindShape(ToBlock(c).value)
  {
    var a := GetAttributes(c.start).value;
    if !IsSet(a.tokens, "atom") {
      var ls := [FirstLine(c.start, a.start)] + Closing(c.body, c.close, Marker(c.start));
      BlockLinesShape(c, a.start);
      StrippedShape(ls);
      SplitHasNoBreaks(StripMd(JoinLines(ls)));
      JoinedNewlines(SplitLines(StripMd(JoinLines(ls))));
    } else {
      FenceUnbroken(c);
      var rest, j := StripLines(c.body);
    }
  }

  lemma {:induction false} ChunkShape(c: Chunk)
    requires PlainChunk(c) && Shaped(c) && ToBlock(c).Ok?
    ensures KindShape(ToBlock(c).value)
  {
    match c {
      case Fence(_, _, _) => FenceShape(c);
      case Heading(_, _) => HeadingShape(c);
      case Plain(body) => PlainTextShape(body);
    }
  }

  /** Every block of every text has the shape of its kind. */
  lemma {:induction false} ParsedShape(text: string, i: nat)
    requires var r := ParseText(text, WHOLE_DOCUMENT); r.Ok? && i < |r.value|
    ensures KindShape(ParseText(text, WHOLE_DOCUMENT).value[i])
  {
    var lines := SplitLines(text);
    var cs := Chunks(lines, false);
    WholeIsSplit(text);
    SplitHasNoBreaks(text);
    ChunksShaped(lines, false);
    ChunksProper(lines, false);
    ChunksPlain(lines);
    BlocksCount(cs);
    BlocksAt(cs, i);
    ChunkShape(cs[i]);
  }

  /** The line that an attribute list is added to: the first one of a header or of code. */
  function Carrier(md: string): string {
    var lines := SplitLines(md);
    if !PlainShape(lines) && (HeaderShape(lines) || CodeShape(lines)) then lines[0] else ""
  }

  predicate TextFirst(lines: seq<string>) {
    lines != [] && !IsBlank(lines[0])
  }

  /**
   The block can be written as its own paragraph: its attributes survive, the first line of a header or of
   code can carry them, and no line of an atom of several blocks begins with the fence that is put around it.
   Plain text without a list needs text on its first line.
   */
  predicate Carried(b: Block, p: Par, ignored: set<string>) {
    && OwnPar(b, p) && WellTyped(p) && Survives(p, ignored, Language(Carrier(b.md)))
    && var attrs := AttrText(p, ignored, false);
       if Carrier(b.md) != "" then
         CanCarry(Carrier(b.md), attrs) && (b.kind == Atom && CodeShape(SplitLines(b.md)) ==> EndIsClean(b.md).Ok?)
       else if PlainShape(SplitLines(b.md)) then attrs != "" || TextFirst(SplitLines(b.md))
       else AtomShape(b.md)
  }

  lemma AtomIsRead(b: Block, p: Par, ignored: set<string>)
    requires SolidBlock(b) && OwnPar(b, p)
    ensures IsSet(AsMap(p.attrs), "atom") <==> IsSet(b.attrs, "atom")
    ensures WellTyped(p) && (b.kind == Atom ==> !HasKey(Exported(p.attrs, ignored), "atom"))
  {
    OwnEntries(b, p);
    HasKeyExported(p.attrs, ignored, "atom");
    ApplyHolds(map[], p.attrs);
  }

  /** Only the text of an atom can have another shape than that of its kind. */
  lemma ShapeOfKind(b: Block)
    requires KindShape(b) && b.kind != Atom
    ensures var lines := SplitLines(b.md);
            && (CodeShape(lines) <==> b.kind == Code)
            && (PlainShape(lines) || HeaderShape(lines) || CodeShape(lines))
  {
    var lines := SplitLines(b.md);
    if CodeShape(lines) {
      CodeNotOthers(lines);
    }
  }

  /** A parsed block that can be written is a well-formed paragraph, with no further condition on its text. */
  lemma {:induction false} ParsedIsGood(text: string, i: nat, p: Par, ignored: set<string>)
    requires var r := ParseText(text, WHOLE_DOCUMENT);
             r.Ok? && i < |r.value| && Carried(r.value[i], p, ignored)
    ensures AnyPar(p, ignored)
  {
    var b := ParseText(text, WHOLE_DOCUMENT).value[i];
    WholeIsSplit(text);
    TextSolid(text, false, i);
    ParsedShape(text, i);
    BlockIsGood(b, p, ignored);
  }

  lemma {:induction false} BlockIsGood(b: Block, p: Par, ignored: set<string>)
    requires SolidBlock(b) && KindShape(b) && Carried(b, p, ignored)
    ensures AnyPar(p, ignored)
    ensures PlainShape(SplitLines(p.md)) && AttrText(p, ignored, false) != "" ==> GoodPar(p, ignored)
  {
    var lines := SplitLines(p.md);
    OwnAttrsGood(b, p, ignored);
    AtomIsRead(b, p, ignored);
    if b.kind != Atom {
      ShapeOfKind(b);
    }
    if HeaderShape(lines) {
      assert Language(lines[0]) == "";
    }
    if CodeShape(lines) {
      CodeNotOthers(lines);
    }
  }

  // ----- what is lost otherwise -----

  /** A chunk that is read as the paragraph, but not as an atom, has its attributes on its first line. */
  lemma ChunkReads(c: Chunk, p: Par, ignored: set<string>)
    requires !c.Plain? && ChunkMatches(c, p, ignored)
    requires c.Fence? && GetAttributes(c.start).Ok? ==> !IsSet(GetAttributes(c.start).value.tokens, "atom")
    ensures LineReads(c.start, p, ignored)
  {
    assert RawBlock(c).Ok? && RawBlock(c).value.attrs == GetAttributes(c.start).value.tokens - {"id", "t"};
  }

  /** An atom does not have the text of closed code lines, the first of which is its fence. */
  lemma {:induction false} AtomText(c: Chunk, lines: seq<string>, p: Par, ignored: set<string>)
    requires |lines| >= 2 && p.md == JoinLines(lines) && c.Fence? && c.body == lines[1..|lines| - 1]
    requires lines[0] != "" && ChunkMatches(c, p, ignored)
    ensures GetAttributes(c.start).Ok? && !IsSet(GetAttributes(c.start).value.tokens, "atom")
  {
    StripMdShortens(JoinLines(c.body));
    InnerShorter(lines);
  }

  lemma {:induction false} InnerShorter(lines: seq<string>)
    requires |lines| >= 2 && lines[0] != ""
    ensures |JoinLines(lines[1..|lines| - 1])| < |JoinLines(lines)|
  {
    var rest := lines[1..];
    InitLast(rest);
    assert rest[..|rest| - 1] == lines[1..|lines| - 1];
    if |rest| > 1 {
      JoinAppend(rest[..|rest| - 1], [rest[|rest| - 1]]);
    }
  }

  lemma {:induction false} CodeLineReads(p: Par, ignored: set<string>, tail: seq<string>)
    requires WellTyped(p) && CleanMd(p.md) && CodeShape(SplitLines(p.md))
    requires forall i :: 0 <= i < |tail| ==> tail[i] == ""
    requires ParsesBack(ParLines(p, ignored) + tail, p, ignored)
    ensures LineReads(WithList(SplitLines(p.md)[0], AttrText(p, ignored, false)), p, ignored)
  {
    var lines := SplitLines(p.md);
    var first, k := WithList(lines[0], AttrText(p, ignored, false)), |lines| - 1;
    var c := Fence(first, lines[1..k], Some(lines[k]));
    CodeNotOthers(lines);
    CleanJoin(p.md);
    WithListMarker(lines[0], AttrText(p, ignored, false));
    CodeParts(lines, Marker(first));
    FenceReads(first, lines[1..k], lines[k], tail);
    CodeLines(first, lines, tail);
    AtomText(c, lines, p, ignored);
    ChunkReads(c, p, ignored);
  }

  lemma {:induction false} HeadingLineReads(first: string, body: seq<string>, p: Par, ignored: set<string>)
    requires IsHeading(first) && PlainShape(body) && ParsesBack([first] + body, p, ignored)
    ensures LineReads(first, p, ignored)
  {
    HeadingChunk(first, body);
    ChunkReads(Heading(first, body), p, ignored);
  }

  /** The first line that is written for the paragraph of a block that is no atom. */
  function WrittenFirst(p: Par, ignored: set<string>): string
    requires WellTyped(p)
  {
    WithList(if PlainShape(SplitLines(p.md)) then "#-" else Carrier(p.md), AttrText(p, ignored, false))
  }

  lemma {:induction false} WrittenLineReads(b: Block, p: Par, ignored: set<string>, tail: seq<string>)
    requires SolidBlock(b) && KindShape(b) && b.kind != Atom && OwnPar(b, p) && WellTyped(p)
    requires PlainShape(SplitLines(p.md)) ==> AttrText(p, ignored, false) != ""
    requires forall i :: 0 <= i < |tail| ==> tail[i] == ""
    requires ParsesBack(ParLines(p, ignored) + tail, p, ignored)
    ensures LineReads(WrittenFirst(p, ignored), p, ignored)
  {
    var lines, first := SplitLines(p.md), WrittenFirst(p, ignored);
    ShapeOfKind(b);
    BlankIsPlain(tail);
    if PlainShape(lines) {
      PlainAppend(lines, tail);
      Assoc([first], lines, tail);
      HeadingLineReads(first, lines + tail, p, ignored);
    } else if HeaderShape(lines) {
      HeaderFirst(lines[0], AttrText(p, ignored, false));
      PlainAppend(lines[1..], tail);
      Assoc([first], lines[1..], tail);
      HeadingLineReads(first, lines[1..] + tail, p, ignored);
    } else {
      CodeLineReads(p, ignored, tail);
    }
  }

  lemma PlainCarrier(b: Block, p: Par, ignored: set<string>)
    requires OwnPar(b, p) && WellTyped(p) && NoBraces(Carrier(b.md)) && Carrier(b.md) != ""
    ensures CanCarry(Carrier(b.md), AttrText(p, ignored, false))
  {
    Plainly(Carrier(b.md));
    NoBraceNoList(Carrier(b.md), AttrText(p, ignored, false));
  }

  /**
   A parsed block that is no atom, with a first line without braces, survives being written and parsed again
   as its own paragraph if and only if its attributes survive; plain text needs an attribute that is written.
   */
  lemma {:induction false} BlockSurvives(text: string, i: nat, p: Par, exportHashes: bool, exportIds: bool,
                                         tail: seq<string>)
    requires var r := ParseText(text, WHOLE_DOCUMENT); r.Ok? && i < |r.value| && OwnPar(r.value[i], p)
    requires var b := ParseText(text, WHOLE_DOCUMENT).value[i]; b.kind != Atom && NoBraces(Carrier(b.md))
    requires WellTyped(p) && (PlainShape(SplitLines(p.md)) ==>
                                AttrText(p, Ignored(exportHashes, exportIds), false) != "")
    requires forall j :: 0 <= j < |tail| ==> tail[j] == ""
    ensures var ignored := Ignored(exportHashes, exportIds);
            ParsesBack(ParLines(p, ignored) + tail, p, ignored) <==> Survives(p, ignored, Language(Carrier(p.md)))
  {
    var ignored := Ignored(exportHashes, exportIds);
    var b := ParseText(text, WHOLE_DOCUMENT).value[i];
    WholeIsSplit(text);
    TextSolid(text, false, i);
    ParsedShape(text, i);
    ShapeOfKind(b);
    WritersIgnore(exportHashes, exportIds);
    if Survives(p, ignored, Language(Carrier(p.md))) {
      SurvivorParses(b, p, ignored, tail);
    }
    if ParsesBack(ParLines(p, ignored) + tail, p, ignored) {
      WrittenLineReads(b, p, ignored, tail);
      ReadLineSurvives(b, p, exportHashes, exportIds);
    }
  }

  lemma {:induction false} SurvivorParses(b: Block, p: Par, ignored: set<string>, tail: seq<string>)
    requires SolidBlock(b) && KindShape(b) && b.kind != Atom && OwnPar(b, p) && WellTyped(p)
    requires WriterIgnores(ignored) && Survives(p, ignored, Language(Carrier(p.md))) && NoBraces(Carrier(p.md))
    requires PlainShape(SplitLines(p.md)) ==> AttrText(p, ignored, false) != ""
    requires forall j :: 0 <= j < |tail| ==> tail[j] == ""
    ensures ParsesBack(ParLines(p, ignored) + tail, p, ignored)
  {
    ShapeOfKind(b);
    if Carrier(p.md) != "" {
      PlainCarrier(b, p, ignored);
    }
    CarrierNotEmpty(p.md);
    BlockIsGood(b, p, ignored);
    ParRoundTrip(p, ignored, tail);
  }

  lemma CarrierNotEmpty(md: string)
    ensures var lines := SplitLines(md);
            !PlainShape(lines) && (HeaderShape(lines) || CodeShape(lines)) ==>
              Carrier(md) != "" && Trimmed(Carrier(md))
  {
  }

  lemma HashDash()
    ensures Trimmed("#-") && NoBraces("#-") && Language("#-") == "" == Language("")
  {
  }

  lemma {:induction false} ReadLineSurvives(b: Block, p: Par, exportHashes: bool, exportIds: bool)
    requires SolidBlock(b) && KindShape(b) && b.kind != Atom && OwnPar(b, p) && WellTyped(p)
    requires NoBraces(Carrier(p.md)) && LineReads(WrittenFirst(p, Ignored(exportHashes, exportIds)), p,
                                                  Ignored(exportHashes, exportIds))
    ensures Survives(p, Ignored(exportHashes, exportIds), Language(Carrier(p.md)))
  {
    ShapeOfKind(b);
    CarrierNotEmpty(p.md);
    if PlainShape(SplitLines(p.md)) {
      HashDash();
      LineSurvives(b, p, "#-", exportHashes, exportIds);
    } else {
      LineSurvives(b, p, Carrier(p.md), exportHashes, exportIds);
    }
  }

  /** The same text, attributes and, as far as they are exported and were there before, id and hash. */
  predicate SameBlock(b: Block, again: Block, ignored: set<string>) {
    && again.md == b.md && again.attrs == b.attrs
    && ("id" !in ignored && b.id.Some? ==> again.id == b.id) && ("t" !in ignored && b.t.Some? ==> again.t == b.t)
  }

  /** The blocks of a document are those of another one. */
  predicate SameBlocks(before: seq<Block>, again: seq<Block>, ignored: set<string>) {
    |again| == |before| && forall i :: 0 <= i < |before| ==> SameBlock(before[i], again[i], ignored)
  }

  lemma MatchesSame(before: seq<Block>, again: seq<Block>, pars: seq<Par>, ignored: set<string>)
    requires |before| == |pars| && AllMatch(again, pars, ignored)
    requires forall i :: 0 <= i < |pars| ==> OwnPar(before[i], pars[i])
    ensures SameBlocks(before, again, ignored)
  {
    forall i | 0 <= i < |before|
      ensures SameBlock(before[i], again[i], ignored)
    {
      assert Matches(again[i], pars[i], ignored) && OwnPar(before[i], pars[i]);
    }
  }

  /**
   A document that was parsed, written as its own paragraphs and parsed again has the same blocks, atoms
   included, exactly when no paragraph that is written bare comes right after text.
   */
  lemma {:induction false} ParsedRoundTrip(text: string, pars: seq<Par>, exportHashes: bool, exportIds: bool)
    requires var r := ParseText(text, WHOLE_DOCUMENT); var ignored := Ignored(exportHashes, exportIds);
             r.Ok? && |pars| == |r.value| && forall i :: 0 <= i < |pars| ==>
               Carried(r.value[i], pars[i], ignored)
    ensures var ignored := Ignored(exportHashes, exportIds);
            var before := ParseText(text, WHOLE_DOCUMENT).value;
            var written := WriteText(pars, WHOLE_DOCUMENT, ignored);
            && AnyPars(pars, ignored) && written.Ok?
            && var again := ParseText(written.value, WHOLE_DOCUMENT);
               again.Ok? && SameBlocks(before, again.value, ignored) <==> NoneJoins(pars, ignored)
  {
    var ignored := Ignored(exportHashes, exportIds);
    var before := ParseText(text, WHOLE_DOCUMENT).value;
    forall i | 0 <= i < |pars|
      ensures AnyPar(pars[i], ignored) && OwnPar(before[i], pars[i])
    {
      ParsedIsGood(text, i, pars[i], ignored);
    }
    DocumentRoundTrip.DocumentRoundTrip(pars, exportHashes, exportIds);
    NoneJoinsCount(pars, ignored);
    var again := ParseText(WriteText(pars, WHOLE_DOCUMENT, ignored).value, WHOLE_DOCUMENT);
    if again.Ok? && AllMatch(again.value, pars, ignored) {
      MatchesSame(before, again.value, pars, ignored);
    }
  }
}
