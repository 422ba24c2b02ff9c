/** What it means for a code block to have attributes at its end, for the parser and for the validator. */
module CodeEnds {
  import opened Text
  import opened AttributeList
  import opened AttributePrinting
  import opened DocumentFormat
  import opened DocumentParsing
  import opened Composition
  import opened CodeBlocks
  import opened ParagraphAttributes
  import opened ParsedAttributes
  import opened RoundTrip
  import opened DocumentRoundTrip
  import opened Validation
  import opened ParsedValidation

  /** The line is read with an attribute list. */
  predicate CarriesList(line: string) {
    GetAttributes(line).Ok? && GetAttributes(line).value.start.Some?
  }

  /** Exactly `n` characters `c` in front. */
  predicate LeadingRun(s: string, c: char, n: nat) {
    n <= |s| && (forall j :: 0 <= j < n ==> s[j] == c) && (n < |s| ==> s[n] != c)
  }

  predicate AtLeast(s: string, c: char, n: nat) {
    n <= |s| && forall j :: 0 <= j < n ==> s[j] == c
  }

  // ----- the check, for any text -----

  lemma {:induction false} LastNewlineIs(front: string, last: string)
    requires forall j :: 0 <= j < |last| ==> last[j] != '\n'
    ensures LastNewline(front + "\n" + last) == |front|
    decreases |last|
  {
    var s := front + "\n" + last;
    NewlineFound(s, |front|);
    assert forall k :: |front| < k < |s| ==> s[k] == last[k - |front| - 1];
  }

  lemma StartsWithRun(s: string, n: nat)
    ensures StartsWith(s, Repeat('`', n)) <==> AtLeast(s, '`', n)
  {
    var r := Repeat('`', n);
    if AtLeast(s, '`', n) {
      assert s[..n] == r;
    }
  }

  /**
   A text that begins with exactly `n` backticks: its end has attributes if and only if its last line begins
   with at least as many and is read with a list. Without a newline the check raises, and otherwise it raises
   what reading such a last line raises.
   */
  lemma {:induction false} EndMeans(front: string, last: string, n: nat)
    requires forall j :: 0 <= j < |last| ==> last[j] != '\n'
    requires LeadingRun(front + "\n" + last, '`', n)
    ensures var r := EndIsClean(front + "\n" + last);
            && (r == Ok(false) <==> AtLeast(last, '`', n) && CarriesList(last))
            && (r.Raised? <==> AtLeast(last, '`', n) && GetAttributes(last).Raised?)
            && (r.Raised? ==> r.error == GetAttributes(last).error)
  {
    var md := front + "\n" + last;
    RunLengthIs(md, '`', n);
    LastNewlineIs(front, last);
    assert md[|front| + 1..] == last;
    StartsWithRun(last, n);
  }

  lemma {:induction false} NoNewline(md: string)
    requires forall j :: 0 <= j < |md| ==> md[j] != '\n'
    ensures EndIsClean(md) == Raised(ValueError)
  {
  }

  // ----- parsed code blocks -----

  lemma {:induction false} LinesEnd(lines: seq<string>)
    requires |lines| >= 2
    ensures JoinLines(lines) == JoinLines(lines[..|lines| - 1]) + "\n" + lines[|lines| - 1]
  {
    var n := |lines| - 1;
    InitLast(lines);
    JoinAppend(lines[..n], [lines[n]]);
  }

  lemma {:induction false} JoinedRun(lines: seq<string>, n: nat)
    requires |lines| >= 2 && LeadingRun(lines[0], '`', n)
    ensures LeadingRun(JoinLines(lines), '`', n)
  {
    var md := JoinLines(lines);
    assert md == lines[0] + "\n" + JoinLines(lines[1..]);
    assert forall j :: 0 <= j < |lines[0]| ==> md[j] == lines[0][j];
    assert md[|lines[0]|] == '\n';
  }

  /** The closing line of a code block has as many backticks as the opening one, and none count for tildes. */
  lemma ClosingTicks(lines: seq<string>) returns (n: nat)
    requires CodeShape(lines)
    ensures LeadingRun(lines[0], '`', n) && AtLeast(lines[|lines| - 1], '`', n)
  {
    var m, last := Marker(lines[0]), lines[|lines| - 1];
    n := if m[0] == '`' then |m| else 0;
    assert m <= lines[0] && m <= last;
    assert forall j :: 0 <= j < |m| ==> last[j] == m[j] && lines[0][j] == m[j];
  }

  /** Closed code lines end in attributes if and only if their last line is read with a list. */
  lemma {:induction false} ShapeEnds(lines: seq<string>)
    requires CodeShape(lines) && NoBreaks(lines[|lines| - 1])
    ensures EndIsClean(JoinLines(lines)) == Ok(false) <==> CarriesList(lines[|lines| - 1])
    ensures EndIsClean(JoinLines(lines)).Raised? <==> GetAttributes(lines[|lines| - 1]).Raised?
  {
    var n := ClosingTicks(lines);
    LinesEnd(lines);
    JoinedRun(lines, n);
    EndMeans(JoinLines(lines[..|lines| - 1]), lines[|lines| - 1], n);
  }

  /** The block is code whose last line is read with a list. */
  predicate EndsInList(b: Block) {
    var lines := SplitLines(b.md);
    b.kind == Code && lines != [] && CarriesList(lines[|lines| - 1])
  }

  lemma TextEnds(md: string, lines: seq<string>)
    requires CodeShape(lines) && JoinLines(lines) == md && Unbroken(lines)
    ensures EndIsClean(md) == Ok(false) <==> CarriesList(lines[|lines| - 1])
  {
    ShapeEnds(lines);
  }

  /** What the check finds at the end of a block. */
  predicate EndFound(b: Block) {
    b.kind == Code && EndIsClean(b.md) == Ok(false)
  }

  lemma {:induction false} ChunkEnds(c: Chunk, b: Block)
    requires Shaped(c) && ToBlock(c) == Ok(b)
    ensures EndFound(b) <==> EndsInList(b)
    ensures b.error <==> EndsInList(b)
  {
    FinishedError(c, b);
    if b.kind == Code {
      CodeShapeOf(c, b);
    }
    EndsAgree(b);
  }

  lemma CodeShapeOf(c: Chunk, b: Block)
    requires Shaped(c) && ToBlock(c) == Ok(b) && b.kind == Code
    ensures CodeShape(SplitLines(b.md)) && JoinLines(SplitLines(b.md)) == b.md
  {
    CodeChunkClosed(c);
  }

  lemma EndsAgree(b: Block)
    requires b.error <==> EndFound(b)
    requires b.kind == Code ==> CodeShape(SplitLines(b.md)) && JoinLines(SplitLines(b.md)) == b.md
    ensures EndFound(b) <==> EndsInList(b)
    ensures b.error <==> EndsInList(b)
  {
    if b.kind == Code {
      SplitUnbroken(b.md);
      TextEnds(b.md, SplitLines(b.md));
    }
  }

  /** The error of a block is what the check of its end finds. */
  lemma FinishedError(c: Chunk, b: Block)
    requires Shaped(c) && ToBlock(c) == Ok(b)
    ensures b.error <==> EndFound(b)
  {
  }

  lemma {:induction false} KeptApart(text: string, o: Options)
    requires KeepsBlocks(o)
    ensures ParseText(text, o) == SplitBlocks(SplitLines(text), o.breakOnEmptyLine)
  {
    var r := SplitBlocks(SplitLines(text), o.breakOnEmptyLine);
    if r.Ok? {
      NothingMerged([], r.value, o);
      assert [] + r.value == r.value;
    }
  }

  /** The block of a text and the chunk that it comes from. */
  lemma {:induction false} BlockOfChunk(text: string, boe: bool, i: nat) returns (c: Chunk)
    requires var r := SplitBlocks(SplitLines(text), boe); r.Ok? && i < |r.value|
    ensures Shaped(c) && ToBlock(c) == Ok(SplitBlocks(SplitLines(text), boe).value[i])
  {
    var cs := Chunks(SplitLines(text), boe);
    ChunksProper(SplitLines(text), boe);
    BlocksCount(cs);
    BlocksAt(cs, i);
    SplitHasNoBreaks(text);
    ChunksShaped(SplitLines(text), boe);
    c := cs[i];
  }

  /**
   Of the blocks of a text, those are in error that are code and whose last line is read with a list,
   whether the fence is one of backticks or of tildes.
   */
  lemma {:induction false} CodeEndsMean(text: string, o: Options, i: nat)
    requires KeepsBlocks(o)
    requires var r := ParseText(text, o); r.Ok? && i < |r.value|
    ensures ParseText(text, o).value[i].error <==> EndsInList(ParseText(text, o).value[i])
  {
    KeptApart(text, o);
    var c := BlockOfChunk(text, o.breakOnEmptyLine, i);
    ChunkEnds(c, ParseText(text, o).value[i]);
  }

  /** The validator reports the end of a parsed block under the same condition, with the id of the block. */
  lemma {:induction false} ValidatorReportsEnds(text: string, o: Options, i: nat, x: Issue)
    requires KeepsBlocks(o)
    requires var r := ParseText(text, o); r.Ok? && i < |r.value|
    ensures var b := ParseText(text, o).value[i];
            EndReports(View(b), x) <==> EndsInList(b) && x == AttributesAtEndOfCodeBlock(View(b).id)
  {
    KeptApart(text, o);
    var c := BlockOfChunk(text, o.breakOnEmptyLine, i);
    ChunkEnds(c, ParseText(text, o).value[i]);
    EndReportsWhen(ParseText(text, o).value[i], x);
  }

  lemma EndReportsWhen(b: Block, x: Issue)
    ensures EndReports(View(b), x) <==> EndFound(b) && x == AttributesAtEndOfCodeBlock(View(b).id)
  {
  }

  // ----- fences closed by a line with a list -----

  /** Code between a plain fence and a line of the same fence with a printed list. */
  function ListedEnd(n: nat, body: seq<string>, d: Entries): seq<string>
    requires Typed(d)
  {
    [Repeat('`', n)] + body + [Repeat('`', n) + " {" + AttrsText(d, {}) + "}"]
  }

  lemma {:induction false} FenceCarries(n: nat, d: Entries)
    requires n >= 3 && Typed(d) && DistinctKeys(d) && AllPrintable(d) && CleanEdges(d)
    ensures CarriesList(Repeat('`', n) + " {" + AttrsText(d, {}) + "}")
  {
    var fence := Repeat('`', n);
    ExportedAll(d, {});
    FenceOfIs(n);
    NoBraceNoList(fence, AttrsText(d, {}));
    CarrierLine(fence, d, {});
  }

  lemma {:induction false} PrintUnbroken(d: Entries)
    requires Typed(d) && AllPrintable(d) && CleanEdges(d)
    ensures NoBreaks(AttrsText(d, {}))
  {
    ExportedAll(d, {});
    EntriesSolid(d, {});
    EntriesEdged(d, {});
    AttrsTextJoined(d, {});
    JoinedUnbroken(EntryTexts(d, {}));
  }

  lemma {:induction false} ListedEndShape(n: nat, body: seq<string>, d: Entries)
    requires n >= 3 && Typed(d) && AllPrintable(d) && CleanEdges(d)
    requires Unbroken(body) && NoneStarts(body, Repeat('`', n))
    ensures var ls := ListedEnd(n, body, d);
            && CodeShape(ls) && Unbroken(ls) && StripMd(JoinLines(ls)) == JoinLines(ls)
            && ClearLine(ls[0]) && SplitLines(JoinLines(ls)) == ls
  {
    var fence, list := Repeat('`', n), AttrsText(d, {});
    var last := fence + " {" + list + "}";
    var ls := ListedEnd(n, body, d);
    FenceOfIs(n);
    PrintUnbroken(d);
    Plainly(fence);
    assert ls[0] == fence && ls[|ls| - 1] == last && ls[1..|ls| - 1] == body;
    assert last[..n] == fence && last[|last| - 1] == '}';
    StripJoined(ls);
    assert ls[..|ls| - 1] + [last] == ls;
    SplitJoined(ls);
  }

  /** Such a fence is always parsed to one code block, and always reported. */
  lemma {:induction false} ListedEndReported(n: nat, body: seq<string>, d: Entries, o: Options)
    requires n >= 3 && Typed(d) && DistinctKeys(d) && AllPrintable(d) && CleanEdges(d) && KeepsBlocks(o)
    requires Unbroken(body) && NoneStarts(body, Repeat('`', n))
    ensures var text := JoinLines(ListedEnd(n, body, d)); var r := ParseText(text, o);
            && r.Ok? && |r.value| == 1 && r.value[0].kind == Code && r.value[0].md == text && r.value[0].error
            && EndReports(View(r.value[0]), AttributesAtEndOfCodeBlock(View(r.value[0]).id))
  {
    var ls := ListedEnd(n, body, d);
    var text := JoinLines(ls);
    ListedEndShape(n, body, d);
    FenceCarries(n, d);
    assert ls[|ls| - 1] == Repeat('`', n) + " {" + AttrsText(d, {}) + "}";
    ShapeEnds(ls);
    KeptApart(text, o);
    CodeBlockStable(ls, o.breakOnEmptyLine);
    CodeEndsMean(text, o, 0);
    ValidatorReportsEnds(text, o, 0, AttributesAtEndOfCodeBlock(View(ParseText(text, o).value[0]).id));
  }
}
