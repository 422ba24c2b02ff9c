/** What parsing makes of a text, in terms of its characters and its lines. */
module PlainTexts {
  import opened Text
  import opened AttributeList
  import opened DocumentFormat
  import opened Composition
  import opened CodeBlocks
  import opened RoundTrip
  import opened ParsedShapes

  // ----- a text of plain lines -----

  /** A line begins at `i`. */
  predicate LineStart(text: string, i: nat) {
    i == 0 || (i <= |text| && text[i - 1] == '\n')
  }

  /** A heading or a fence begins at `i`. */
  predicate OpensAt(text: string, i: nat) {
    i < |text| &&
    (text[i] == '#' ||
     (i + 2 < |text| && (text[i] == '`' || text[i] == '~') && text[i + 1] == text[i] && text[i + 2] == text[i]))
  }

  /** The rest of the line at `i` is not blank. */
  predicate InkAt(text: string, i: nat) {
    exists k :: i <= k < |text| && !IsSpace(text[k]) && forall j :: i <= j < k ==> text[j] != '\n'
  }

  predicate NothingOpens(text: string) {
    forall i :: 0 <= i < |text| && LineStart(text, i) ==> !OpensAt(text, i)
  }

  predicate NoBlankLines(text: string) {
    forall i :: 0 <= i < |text| && LineStart(text, i) ==> InkAt(text, i)
  }

  /** Newlines are the only line breaks, no line opens a heading or a fence, and the text does not end in whitespace. */
  predicate PlainText(text: string) {
    && (forall i :: 0 <= i < |text| && IsLineBreak(text[i]) ==> text[i] == '\n')
    && NothingOpens(text) && (text == "" || !IsSpace(text[|text| - 1]))
  }

  lemma StopsMeans(line: string)
    ensures Stops(line, false) <==> OpensAt(line, 0)
  {
    if |line| >= 3 && line[0] == line[1] == line[2] && (line[0] == '`' || line[0] == '~') {
      assert line[..3] == (if line[0] == '`' then "```" else "~~~");
    }
  }

  lemma InkShifts(text: string, d: nat, i: nat)
    requires d <= |text| && InkAt(text, d + i)
    ensures InkAt(text[d..], i)
  {
    var k :| d + i <= k < |text| && !IsSpace(text[k]) && forall j :: d + i <= j < k ==> text[j] != '\n';
    var t := text[d..];
    assert t[k - d] == text[k];
    assert forall j :: i <= j < k - d ==> t[j] == text[j + d];
  }

  lemma OpensShifts(text: string, d: nat, i: nat)
    requires d <= |text| && OpensAt(text[d..], i)
    ensures OpensAt(text, d + i)
  {
  }

  lemma RestOpensNothing(text: string, d: nat)
    requires 0 < d <= |text| && text[d - 1] == '\n' && NothingOpens(text)
    ensures NothingOpens(text[d..])
  {
    var t := text[d..];
    forall i | 0 <= i < |t| && LineStart(t, i)
      ensures !OpensAt(t, i)
    {
      assert LineStart(text, d + i);
      if OpensAt(t, i) {
        OpensShifts(text, d, i);
      }
    }
  }

  lemma RestNotBlank(text: string, d: nat)
    requires 0 < d <= |text| && text[d - 1] == '\n' && NoBlankLines(text)
    ensures NoBlankLines(text[d..])
  {
    var t := text[d..];
    forall i | 0 <= i < |t| && LineStart(t, i)
      ensures InkAt(t, i)
    {
      assert LineStart(text, d + i);
      InkShifts(text, d, i);
    }
  }

  /** The lines of the text behind its first line. */
  lemma SplitAfter(text: string, n: nat)
    requires PlainText(text) && n == LineLength(text) < |text|
    ensures n + 1 < |text| && text[n] == '\n' && PlainText(text[n + 1..])
    ensures SplitLines(text) == [text[..n]] + SplitLines(text[n + 1..])
  {
    SplitFirstLine(text, n);
    RestOpensNothing(text, n + 1);
  }

  /** Nothing opens in the first line, and it is blank unless there is text in it. */
  lemma FirstLinePlain(text: string, n: nat)
    requires text != "" && PlainText(text) && n == LineLength(text)
    ensures !Stops(text[..n], false)
    ensures InkAt(text, 0) ==> !IsBlank(text[..n])
  {
    var line := text[..n];
    assert !OpensAt(text, 0);
    StopsMeans(line);
    if InkAt(text, 0) {
      var k :| 0 <= k < |text| && !IsSpace(text[k]) && forall j :: 0 <= j < k ==> text[j] != '\n';
      assert k < n;
      assert line[k] == text[k];
    }
  }

  predicate NoneBlank(lines: seq<string>) {
    forall i :: 0 <= i < |lines| ==> !IsBlank(lines[i])
  }

  lemma PlainCons(line: string, more: seq<string>)
    requires !Stops(line, false) && PlainShape(more)
    ensures PlainShape([line] + more)
    ensures !IsBlank(line) && NoneBlank(more) ==> NoneBlank([line] + more)
  {
  }

  lemma SplitLast(text: string)
    requires text != "" && LineLength(text) == |text|
    ensures SplitLines(text) == [text] + [] && text[..|text|] == text
  {
  }

  lemma {:induction false} LinesPlain(text: string)
    requires PlainText(text)
    ensures PlainShape(SplitLines(text))
    ensures NoBlankLines(text) ==> NoneBlank(SplitLines(text))
    decreases |text|
  {
    if text != "" {
      var n := LineLength(text);
      FirstLinePlain(text, n);
      assert LineStart(text, 0);
      if n < |text| {
        SplitAfter(text, n);
        if NoBlankLines(text) {
          RestNotBlank(text, n + 1);
        }
        LinesPlain(text[n + 1..]);
        PlainCons(text[..n], SplitLines(text[n + 1..]));
      } else {
        SplitLast(text);
        PlainCons(text, []);
      }
    }
  }

  lemma {:induction false} AllOneChunk(lines: seq<string>, boe: bool)
    requires lines != [] && !IsBlank(lines[0]) && PlainShape(lines)
    requires boe ==> NoneBlank(lines)
    ensures Chunks(lines, boe) == [Plain(lines)]
  {
    var n := PlainLength(lines, boe);
    assert n == |lines|;
    assert lines[..|lines|] == lines && lines[|lines|..] == [];
    assert FirstChunk(lines, boe) == Plain(lines);
  }

  /** The block of a plain text. */
  function PlainBlock(text: string): Block {
    Block(text, AutoNormal, None, None, map[], false)
  }

  lemma PlainToBlock(lines: seq<string>, text: string)
    requires JoinLines(lines) == text && StripMd(text) == text
    ensures ToBlock(Plain(lines)) == Ok(PlainBlock(text))
  {
    var none: Tokens := map[];
    assert none - {"id", "t"} == none;
  }

  lemma InkIsClean(text: string)
    requires text != "" && PlainText(text) && InkAt(text, 0)
    ensures StripMd(text) == text
  {
    var k :| 0 <= k < |text| && !IsSpace(text[k]) && forall j :: 0 <= j < k ==> text[j] != '\n';
    assert text[0] != '\n';
    EndsStay(text);
  }

  /** One chunk is one block under all options. */
  lemma {:induction false} OneChunkParsed(text: string, c: Chunk, o: Options)
    requires ProperChunk(c) && Chunks(SplitLines(text), o.breakOnEmptyLine) == [c]
    ensures ParseText(text, o) == match ToBlock(c) case Raised(e) => Raised(e) case Ok(b) => Ok([b])
  {
    ChunksProper(SplitLines(text), o.breakOnEmptyLine);
    OneBlock(c);
    if ToBlock(c).Ok? {
      MergeOne(ToBlock(c).value, o);
    }
  }

  lemma MergeOne(b: Block, o: Options)
    ensures MergeAll([], [b], o) == [b]
  {
    assert [b][1..] == [] && [] + [b] == [b];
  }

  lemma {:induction false} PlainLines(text: string)
    requires text != "" && PlainText(text) && InkAt(text, 0)
    ensures var lines := SplitLines(text);
            lines != [] && !IsBlank(lines[0]) && PlainShape(lines) && JoinLines(lines) == text
  {
    var n := LineLength(text);
    LinesPlain(text);
    JoinSplit(text);
    FirstLinePlain(text, n);
    if n < |text| {
      SplitAfter(text, n);
    }
  }

  /**
   A text in which nothing opens a heading or a fence, which has text on its first line and does not end in
   whitespace, is one paragraph with exactly this text and nothing else; when empty lines break paragraphs, it
   must not have any.
   */
  lemma {:induction false} PlainTextParses(text: string, o: Options)
    requires text != "" && PlainText(text) && InkAt(text, 0)
    requires o.breakOnEmptyLine ==> NoBlankLines(text)
    ensures ParseText(text, o) == Ok([PlainBlock(text)])
  {
    var lines := SplitLines(text);
    PlainLines(text);
    LinesPlain(text);
    AllOneChunk(lines, o.breakOnEmptyLine);
    InkIsClean(text);
    PlainToBlock(lines, text);
    OneChunkParsed(text, Plain(lines), o);
  }

  /** A blank line in front changes nothing. */
  lemma {:induction false} LeadingBlank(blank: string, text: string, o: Options)
    requires NoBreaks(blank) && AllSpace(blank)
    ensures ParseText(blank + "\n" + text, o) == ParseText(text, o)
  {
    SplitLine(blank, text);
    var lines := SplitLines(text);
    assert ([blank] + lines)[0] == blank && ([blank] + lines)[1..] == lines;
    ChunksProper(lines, o.breakOnEmptyLine);
  }

  lemma {:induction false} SplitAround(a: string, b: string)
    requires OnlyNewlines(a) && a != "" && a[|a| - 1] != '\n'
    ensures SplitLines(a + "\n\n" + b) == SplitLines(a) + ([""] + SplitLines(b))
  {
    JoinSplit(a);
    JoinTerminated(SplitLines(a));
    SplitHasNoBreaks(a);
    SplitTerminated(SplitLines(a), "\n" + b);
    SplitLine("", b);
    assert "" + "\n" + b == "\n" + b;
    assert a + "\n\n" + b == (a + "\n") + ("\n" + b);
  }

  lemma {:induction false} BreakChunks(x: seq<string>, y: seq<string>)
    requires x != [] && PlainShape(x) && NoneBlank(x)
    ensures Chunks(x + ([""] + y), true) == [Plain(x)] + Chunks(y, true)
  {
    var all := x + ([""] + y);
    assert forall i :: 0 <= i < |x| ==> all[i] == x[i];
    assert all[|x|] == "";
    var n := PlainLength(all, true);
    assert n == |x|;
    assert all[..|x|] == x && all[|x|..] == [""] + y && ([""] + y)[1..] == y;
    assert FirstChunk(all, true) == Plain(x);
    ChunksCons(all, true);
  }

  /** Lines of plain text without blank ones. */
  predicate DenseLines(x: seq<string>) {
    x != [] && PlainShape(x) && NoneBlank(x)
  }

  lemma {:induction false} PlainPart(a: string)
    requires a != "" && PlainText(a) && NoBlankLines(a)
    ensures DenseLines(SplitLines(a)) && ToBlock(Plain(SplitLines(a))) == Ok(PlainBlock(a))
  {
    assert LineStart(a, 0);
    PlainLines(a);
    LinesPlain(a);
    InkIsClean(a);
    PlainToBlock(SplitLines(a), a);
  }

  lemma {:induction false} DenseChunks(x: seq<string>, y: seq<string>)
    requires DenseLines(x) && DenseLines(y)
    ensures Chunks(x + ([""] + y), true) == [Plain(x), Plain(y)]
  {
    BreakChunks(x, y);
    AllOneChunk(y, true);
  }

  lemma OneBlockIs(c: Chunk, b: Block)
    requires ProperChunk(c) && ToBlock(c) == Ok(b)
    ensures ToBlocks([c]) == Ok([b])
  {
    OneBlock(c);
  }

  lemma {:induction false} TwoBlocks(cs: seq<Chunk>, bs: seq<Block>)
    requires |cs| == |bs| == 2 && ProperChunks(cs[..1]) && ProperChunks(cs[1..])
    requires ToBlocks(cs[..1]) == Ok(bs[..1]) && ToBlocks(cs[1..]) == Ok(bs[1..])
    ensures ProperChunks(cs) && ToBlocks(cs) == Ok(bs)
  {
    ToBlocksAppend(cs[..1], cs[1..]);
    assert cs[..1] + cs[1..] == cs && bs[..1] + bs[1..] == bs;
  }

  lemma Pairwise<T>(x: T, y: T)
    ensures [x, y][..1] == [x] && [x, y][1..] == [y]
  {
  }

  lemma MergeTwo(b: Block, d: Block, o: Options)
    ensures MergeAll([], [b, d], o) == Merge([b], d, o)
  {
    MergeAllAppend([], [b], d, o);
    MergeOne(b, o);
    assert [b] + [d] == [b, d];
  }

  lemma MergePlain(a: string, b: string, o: Options)
    ensures Merge([PlainBlock(a)], PlainBlock(b), o) ==
            if o.breakOnNormal then [PlainBlock(a), PlainBlock(b)] else [PlainBlock(a + "\n\n" + b)]
  {
    assert a + ("\n\n" + b) == a + "\n\n" + b;
  }

  lemma {:induction false} PairParses(a: string, b: string, o: Options)
    requires a != "" && PlainText(a) && NoBlankLines(a) && b != "" && PlainText(b) && NoBlankLines(b)
    requires o.breakOnEmptyLine
    ensures ParseText(a + "\n\n" + b, o) ==
            Ok(if o.breakOnNormal then [PlainBlock(a), PlainBlock(b)] else [PlainBlock(a + "\n\n" + b)])
  {
    var x, y := Plain(SplitLines(a)), Plain(SplitLines(b));
    PlainPart(a);
    PlainPart(b);
    SplitAround(a, b);
    DenseChunks(SplitLines(a), SplitLines(b));
    OneBlockIs(x, PlainBlock(a));
    OneBlockIs(y, PlainBlock(b));
    Pairwise(x, y);
    Pairwise(PlainBlock(a), PlainBlock(b));
    TwoBlocks([x, y], [PlainBlock(a), PlainBlock(b)]);
    MergeTwo(PlainBlock(a), PlainBlock(b), o);
    MergePlain(a, b, o);
  }

  lemma PairBreaks(a: string, b: string)
    requires a != "" && PlainText(a) && b != "" && PlainText(b)
    ensures var s := a + "\n\n" + b;
            && (forall i :: 0 <= i < |s| && IsLineBreak(s[i]) ==> s[i] == '\n') && !IsSpace(s[|s| - 1])
  {
    var s := a + "\n\n" + b;
    assert s[|s| - 1] == b[|b| - 1];
    forall i | 0 <= i < |s| && IsLineBreak(s[i])
      ensures s[i] == '\n'
    {
      assert i >= |a| + 2 ==> s[i] == b[i - |a| - 2];
    }
  }

  lemma PairOpensNothing(a: string, b: string)
    requires a != "" && NothingOpens(a) && NothingOpens(b) && a[|a| - 1] != '\n'
    ensures NothingOpens(a + "\n\n" + b)
  {
    var s := a + "\n\n" + b;
    forall i | 0 <= i < |s| && LineStart(s, i)
      ensures !OpensAt(s, i)
    {
      if i < |a| {
        assert LineStart(a, i);
        assert s[i] == a[i];
        OpensInFront(a, "\n\n" + b, i);
        assert s == a + ("\n\n" + b);
      } else if i >= |a| + 2 {
        var d := |a| + 2;
        assert s[d..] == b;
        assert LineStart(b, i - d);
        OpensBehind(s, d, i);
      }
    }
  }

  lemma OpensBehind(s: string, d: nat, i: nat)
    requires d <= i < |s|
    ensures OpensAt(s, i) <==> OpensAt(s[d..], i - d)
  {
  }

  lemma OpensInFront(a: string, more: string, i: nat)
    requires i < |a| && more != "" && more[0] == '\n'
    ensures OpensAt(a + more, i) <==> OpensAt(a, i)
  {
    var s := a + more;
    assert s[|a|] == '\n';
    assert forall k :: 0 <= k < |a| ==> s[k] == a[k];
  }

  lemma PairPlain(a: string, b: string)
    requires a != "" && PlainText(a) && b != "" && PlainText(b) && InkAt(a, 0)
    ensures PlainText(a + "\n\n" + b) && InkAt(a + "\n\n" + b, 0)
  {
    PairBreaks(a, b);
    PairOpensNothing(a, b);
    var k :| 0 <= k < |a| && !IsSpace(a[k]) && forall j :: 0 <= j < k ==> a[j] != '\n';
    var s := a + "\n\n" + b;
    assert s[k] == a[k];
    assert forall j :: 0 <= j < k ==> s[j] == a[j];
  }

  /**
   An empty line between plain paragraphs without blank lines separates them exactly when both empty lines and
   plain paragraphs break; otherwise they are one paragraph with the empty line in between.
   */
  lemma {:induction false} EmptyLineBetween(a: string, b: string, o: Options)
    requires a != "" && PlainText(a) && NoBlankLines(a) && b != "" && PlainText(b) && NoBlankLines(b)
    ensures ParseText(a + "\n\n" + b, o) ==
            Ok(if o.breakOnEmptyLine && o.breakOnNormal then [PlainBlock(a), PlainBlock(b)]
               else [PlainBlock(a + "\n\n" + b)])
  {
    assert LineStart(a, 0) && LineStart(b, 0);
    if o.breakOnEmptyLine {
      PairParses(a, b, o);
    } else {
      PairPlain(a, b);
      PlainTextParses(a + "\n\n" + b, o);
    }
  }
}
