/** What becomes of plain text that is written without a list: alone, and after other text. */
module BareTexts {
  import opened Text
  import opened AttributeList
  import opened DocumentFormat
  import opened DocumentWriting
  import opened Composition
  import opened CodeBlocks
  import opened ParagraphAttributes
  import opened RoundTrip
  import opened ParsedShapes
  import opened BareParagraphs
  import opened DocumentRoundTrip
  import opened PlainTexts

  // ----- a plain paragraph on its own -----

  lemma {:induction false} NewlineAdded(md: string)
    requires PlainText(md) && md != ""
    ensures SplitLines(md + "\n") == SplitLines(md)
    ensures ParseText(md + "\n", WHOLE_DOCUMENT) == ParseText(md, WHOLE_DOCUMENT)
  {
    JoinSplit(md);
    JoinTerminated(SplitLines(md));
    SplitHasNoBreaks(md);
    SplitTerminated(SplitLines(md), "");
    assert md + "\n" + "" == md + "\n" && SplitLines(md) + [] == SplitLines(md);
  }

  lemma {:induction false} WrittenBare(p: Par, ignored: set<string>)
    requires WellTyped(p) && AttrText(p, ignored, false) == "" && PlainText(p.md) && p.md != ""
    ensures WriteText([p], WHOLE_DOCUMENT, ignored) == Ok(p.md + "\n")
  {
    LinesPlain(p.md);
    PlainSeen(p.md);
    WrittenIsText(p, ParseText(p.md, WHOLE_DOCUMENT).value, ignored);
    WrittenAlone(p, WHOLE_DOCUMENT, ignored);
    assert Ended(p.md) == p.md + "\n";
    assert ("" + "\n" + (p.md + "\n"))[1..] == p.md + "\n";
  }

  /** Lines that begin with a blank one are read as fewer lines. */
  lemma {:induction false} BlankFirstShorter(lines: seq<string>)
    requires lines != [] && IsBlank(lines[0]) && PlainShape(lines)
    ensures Chunks(lines, false) == [] ||
            exists j :: 0 < j < |lines| && Chunks(lines, false) == [Plain(lines[j..])]
  {
    var more := lines[1..];
    if more != [] {
      if IsBlank(more[0]) {
        BlankFirstShorter(more);
        if Chunks(more, false) != [] {
          var j :| 0 < j < |more| && Chunks(more, false) == [Plain(more[j..])];
          assert more[j..] == lines[j + 1..];
        }
      } else {
        BareChunk(more);
      }
    }
  }

  lemma {:induction false} SuffixShorter(lines: seq<string>, j: nat)
    requires 0 < j < |lines|
    ensures |JoinLines(lines[j..])| < |JoinLines(lines)|
  {
    JoinAppend(lines[..j], lines[j..]);
    assert lines[..j] + lines[j..] == lines;
  }

  lemma TextOnFirstLine(text: string)
    requires PlainText(text) && text != ""
    ensures SplitLines(text) != [] && (!IsBlank(SplitLines(text)[0]) ==> InkAt(text, 0))
  {
    var n := LineLength(text);
    var line := text[..n];
    assert SplitLines(text)[0] == line;
    if !IsBlank(line) {
      var k :| 0 <= k < |line| && !IsSpace(line[k]);
      assert text[k] == line[k];
      assert forall j :: 0 <= j < k ==> text[j] == line[j];
    }
  }

  lemma {:induction false} BlankFirstLost(text: string)
    requires PlainText(text) && text != "" && !InkAt(text, 0)
    ensures ParseText(text, WHOLE_DOCUMENT) != Ok([PlainBlock(text)])
  {
    var lines := SplitLines(text);
    TextOnFirstLine(text);
    LinesPlain(text);
    BlankFirstShorter(lines);
    WholeIsSplit(text);
    ChunksProper(lines, false);
    JoinSplit(text);
    if Chunks(lines, false) != [] {
      var j :| 0 < j < |lines| && Chunks(lines, false) == [Plain(lines[j..])];
      SuffixShorter(lines, j);
      StripMdShortens(JoinLines(lines[j..]));
      NothingTaken(lines[j..], StripMd(JoinLines(lines[j..])));
      OneBlock(Plain(lines[j..]));
    }
  }

  /**
   A plain paragraph whose list is empty is written as its text, and parsing it gives one block with this text
   and nothing else, exactly when there is text on its first line.
   */
  lemma {:induction false} BareRoundTrip(p: Par, ignored: set<string>)
    requires WellTyped(p) && AttrText(p, ignored, false) == "" && PlainText(p.md) && p.md != ""
    ensures var text := WriteText([p], WHOLE_DOCUMENT, ignored);
            text.Ok? && (ParseText(text.value, WHOLE_DOCUMENT) == Ok([PlainBlock(p.md)]) <==> InkAt(p.md, 0))
  {
    WrittenBare(p, ignored);
    NewlineAdded(p.md);
    if InkAt(p.md, 0) {
      PlainTextParses(p.md, WHOLE_DOCUMENT);
    } else {
      BlankFirstLost(p.md);
    }
  }

  // ----- a bare paragraph after text -----

  /** A text paragraph with a bare one after an empty line. */
  function Joined(prev: Par, p: Par): Par {
    prev.(md := prev.md + "\n\n" + p.md)
  }

  /** The printed list does not depend on the text. */
  lemma {:induction false} SameList(p: Par, md: string, ignored: set<string>)
    requires WellTyped(p) && WriterIgnores(ignored)
    ensures WellTyped(p.(md := md)) && AttrText(p.(md := md), ignored, false) == AttrText(p, ignored, false)
  {
    DictBody(p, ignored);
    DictBody(p.(md := md), ignored);
  }

  lemma SameAttrs(p: Par, md: string, ignored: set<string>, lang: string)
    requires GoodAttrs(p, ignored) && LanguageIs(p, ignored, lang)
    ensures GoodAttrs(p.(md := md), ignored) && LanguageIs(p.(md := md), ignored, lang)
  {
  }

  lemma CleanFirst(md: string)
    requires StripMd(md) == md && md != ""
    ensures md[0] != '\n' && md[0] != '\r' && !IsSpace(md[|md| - 1])
  {
    CleanEnds(md);
    assert RStrip(md) == md;
    LStripNewlinesShortens(md[1..]);
  }

  lemma {:induction false} JoinedLines(prev: Par, p: Par)
    requires CleanMd(prev.md) && CleanMd(p.md) && prev.md != "" && p.md != ""
    ensures CleanMd(Joined(prev, p).md)
    ensures SplitLines(Joined(prev, p).md) == SplitLines(prev.md) + ([""] + SplitLines(p.md))
  {
    var md := Joined(prev, p).md;
    CleanFirst(prev.md);
    CleanFirst(p.md);
    SplitAround(prev.md, p.md);
    assert md[0] == prev.md[0] && md[|md| - 1] == p.md[|p.md| - 1];
    EndsStay(md);
    forall i | 0 <= i < |md| && IsLineBreak(md[i])
      ensures md[i] == '\n'
    {
      assert i >= |prev.md| + 2 ==> md[i] == p.md[i - |prev.md| - 2];
    }
  }

  lemma PlainAround(x: seq<string>, y: seq<string>)
    requires x != [] && PlainShape(y)
    ensures PlainShape(x) ==> PlainShape(x + ([""] + y))
    ensures HeaderShape(x) ==> HeaderShape(x + ([""] + y))
    ensures !PlainShape(x) ==> !PlainShape(x + ([""] + y))
  {
    var all := x + ([""] + y);
    assert !Stops("", false);
    assert forall i :: 0 <= i < |x| ==> all[i] == x[i];
    assert all[1..] == x[1..] + ([""] + y);
    assert forall i :: 1 <= i < |x| ==> x[1..][i - 1] == x[i];
  }

  /** What joining keeps of a paragraph. */
  predicate SameButText(prev: Par, j: Par, ignored: set<string>)
    requires WellTyped(prev)
  {
    && WellTyped(j) && AttrText(j, ignored, false) == AttrText(prev, ignored, false)
    && GoodAttrs(j, ignored) && LanguageIs(j, ignored, "") && CleanMd(j.md)
  }

  lemma BareGrows(prev: Par, j: Par, y: seq<string>, ignored: set<string>)
    requires BarePar(prev, ignored) && SameButText(prev, j, ignored) && PlainShape(y)
    requires SplitLines(j.md) == SplitLines(prev.md) + ([""] + y)
    ensures BarePar(j, ignored) && TextPar(j) && ParLines(j, ignored) == ParLines(prev, ignored) + ([""] + y)
  {
    PlainAround(SplitLines(prev.md), y);
    assert SplitLines(j.md)[0] == SplitLines(prev.md)[0];
  }

  lemma HashGrows(prev: Par, j: Par, y: seq<string>, ignored: set<string>)
    requires GoodPar(prev, ignored) && SameButText(prev, j, ignored) && PlainShape(y)
    requires PlainShape(SplitLines(prev.md)) && SplitLines(prev.md) != []
    requires SplitLines(j.md) == SplitLines(prev.md) + ([""] + y)
    ensures GoodPar(j, ignored) && TextPar(j) && ParLines(j, ignored) == ParLines(prev, ignored) + ([""] + y)
  {
    PlainAround(SplitLines(prev.md), y);
    Assoc([CarrierText("#-", AttrText(prev, ignored, false))], SplitLines(prev.md), [""] + y);
  }

  lemma HeaderLines(p: Par, ignored: set<string>)
    requires WellTyped(p) && !PlainShape(SplitLines(p.md)) && HeaderShape(SplitLines(p.md))
    ensures var x := SplitLines(p.md);
            ParLines(p, ignored) == [WithList(x[0], AttrText(p, ignored, false))] + x[1..]
  {
  }

  lemma HeaderIsGood(prev: Par, j: Par, ignored: set<string>)
    requires GoodPar(prev, ignored) && SameButText(prev, j, ignored)
    requires !PlainShape(SplitLines(prev.md)) && HeaderShape(SplitLines(prev.md))
    requires !PlainShape(SplitLines(j.md)) && HeaderShape(SplitLines(j.md))
    requires SplitLines(j.md)[0] == SplitLines(prev.md)[0]
    ensures GoodPar(j, ignored)
  {
  }

  lemma HeaderGrows(prev: Par, j: Par, y: seq<string>, ignored: set<string>)
    requires GoodPar(prev, ignored) && SameButText(prev, j, ignored) && PlainShape(y)
    requires !PlainShape(SplitLines(prev.md)) && HeaderShape(SplitLines(prev.md))
    requires SplitLines(j.md) == SplitLines(prev.md) + ([""] + y)
    ensures GoodPar(j, ignored) && TextPar(j) && ParLines(j, ignored) == ParLines(prev, ignored) + ([""] + y)
  {
    var x := SplitLines(prev.md);
    PlainAround(x, y);
    AppendTail(x, [""] + y);
    HeaderIsGood(prev, j, ignored);
    HeaderLines(prev, ignored);
    HeaderLines(j, ignored);
    Assoc([WithList(x[0], AttrText(prev, ignored, false))], x[1..], [""] + y);
  }

  lemma TextParLanguage(p: Par, ignored: set<string>)
    requires AnyPar(p, ignored) && TextPar(p)
    ensures GoodAttrs(p, ignored) && LanguageIs(p, ignored, "") && CleanMd(p.md)
  {
  }

  lemma {:induction false} JoinedSame(prev: Par, p: Par, ignored: set<string>)
    requires GoodAttrs(prev, ignored) && LanguageIs(prev, ignored, "") && WriterIgnores(ignored)
    requires CleanMd(prev.md) && CleanMd(p.md) && prev.md != "" && p.md != ""
    ensures SameButText(prev, Joined(prev, p), ignored)
  {
    JoinedLines(prev, p);
    SameList(prev, Joined(prev, p).md, ignored);
    SameAttrs(prev, Joined(prev, p).md, ignored, "");
  }

  /** Joined text is a paragraph of the same form as the first one. */
  lemma {:induction false} JoinedPar(prev: Par, p: Par, ignored: set<string>)
    requires AnyPar(prev, ignored) && TextPar(prev) && prev.md != "" && BarePar(p, ignored) && WriterIgnores(ignored)
    ensures AnyPar(Joined(prev, p), ignored) && TextPar(Joined(prev, p))
    ensures ParLines(Joined(prev, p), ignored) == ParLines(prev, ignored) + ([""] + ParLines(p, ignored))
  {
    var j, y := Joined(prev, p), SplitLines(p.md);
    TextParLanguage(prev, ignored);
    assert p.md != "" by { assert SplitLines("") == []; }
    BareLines(p, ignored);
    CleanJoin(prev.md);
    JoinedLines(prev, p);
    JoinedSame(prev, p, ignored);
    if BarePar(prev, ignored) {
      BareGrows(prev, j, y, ignored);
    } else if PlainShape(SplitLines(prev.md)) {
      HashGrows(prev, j, y, ignored);
    } else {
      HeaderGrows(prev, j, y, ignored);
    }
  }

  predicate AllTyped(pars: seq<Par>) {
    forall i :: 0 <= i < |pars| ==> WellTyped(pars[i])
  }

  lemma AnyTyped(pars: seq<Par>, ignored: set<string>)
    requires AnyPars(pars, ignored)
    ensures AllTyped(pars)
  {
  }

  lemma DocLinesOf(init: seq<Par>, p: Par, ignored: set<string>)
    requires AllTyped(init) && WellTyped(p)
    ensures AllTyped(init + [p])
    ensures DocLines(init + [p], ignored) == DocLines(init, ignored) + ([""] + ParLines(p, ignored))
  {
    assert (init + [p])[..|init|] == init;
  }

  /** The lines depend on the paragraphs in front only through their lines. */
  lemma {:induction false} DocLinesFollow(x: seq<Par>, y: seq<Par>, rest: seq<Par>, ignored: set<string>)
    requires AllTyped(x) && AllTyped(y) && AllTyped(rest)
    requires DocLines(x, ignored) == DocLines(y, ignored)
    ensures AllTyped(x + rest) && AllTyped(y + rest)
    ensures DocLines(x + rest, ignored) == DocLines(y + rest, ignored)
    decreases |rest|
  {
    if rest == [] {
      assert x + rest == x && y + rest == y;
    } else {
      var k := |rest| - 1;
      DocLinesFollow(x, y, rest[..k], ignored);
      InitLast(rest);
      Assoc(x, rest[..k], [rest[k]]);
      Assoc(y, rest[..k], [rest[k]]);
      DocLinesOf(x + rest[..k], rest[k], ignored);
      DocLinesOf(y + rest[..k], rest[k], ignored);
    }
  }

  lemma SameText(x: seq<Par>, y: seq<Par>, ignored: set<string>)
    requires AnyPars(x, ignored) && AnyPars(y, ignored) && WriterIgnores(ignored)
    requires DocLines(x, ignored) == DocLines(y, ignored)
    ensures WriteText(x, WHOLE_DOCUMENT, ignored) == WriteText(y, WHOLE_DOCUMENT, ignored)
  {
    DocWritten(x, ignored);
    DocWritten(y, ignored);
  }

  lemma AnyAppend(x: seq<Par>, y: seq<Par>, ignored: set<string>)
    requires AnyPars(x, ignored) && AnyPars(y, ignored)
    ensures AnyPars(x + y, ignored)
  {
  }

  lemma AnyOne(p: Par, ignored: set<string>)
    requires AnyPar(p, ignored)
    ensures AnyPars([p], ignored) && WellTyped(p)
  {
  }

  lemma FiveParts(a: seq<string>, b: seq<string>, c: seq<string>)
    ensures a + ([""] + b) + c == a + ([""] + (b + c))
  {
  }

  /** The written lines of two paragraphs that join. */
  lemma {:induction false} SameLines(init: seq<Par>, prev: Par, p: Par, ignored: set<string>)
    requires AllTyped(init) && WellTyped(prev) && WellTyped(p) && WellTyped(Joined(prev, p))
    requires ParLines(Joined(prev, p), ignored) == ParLines(prev, ignored) + ([""] + ParLines(p, ignored))
    ensures AllTyped(init + [prev] + [p]) && AllTyped(init + [Joined(prev, p)])
    ensures DocLines(init + [prev] + [p], ignored) == DocLines(init + [Joined(prev, p)], ignored)
  {
    DocLinesOf(init, prev, ignored);
    DocLinesOf(init + [prev], p, ignored);
    DocLinesOf(init, Joined(prev, p), ignored);
    FiveParts(DocLines(init, ignored), ParLines(prev, ignored), [""] + ParLines(p, ignored));
  }

  /**
   A bare paragraph after a plain paragraph, a `#-` paragraph or a header with text is written as a part of it:
   the document is written exactly as if the two were one paragraph with an empty line in its text.
   */
  lemma {:induction false} BareJoins(init: seq<Par>, prev: Par, p: Par, rest: seq<Par>, exportHashes: bool,
                                     exportIds: bool)
    requires var ignored := Ignored(exportHashes, exportIds);
             && AnyPars(init, ignored) && AnyPars(rest, ignored) && AnyPar(prev, ignored) && BarePar(p, ignored)
    requires TextPar(prev) && prev.md != ""
    ensures var ignored := Ignored(exportHashes, exportIds);
            var apart, joined := init + [prev] + [p] + rest, init + [Joined(prev, p)] + rest;
            && AnyPars(apart, ignored) && AnyPars(joined, ignored)
            && WriteText(apart, WHOLE_DOCUMENT, ignored) == WriteText(joined, WHOLE_DOCUMENT, ignored)
  {
    var ignored := Ignored(exportHashes, exportIds);
    var j := Joined(prev, p);
    WritersIgnore(exportHashes, exportIds);
    JoinedPar(prev, p, ignored);
    AnyOne(prev, ignored);
    AnyOne(p, ignored);
    AnyOne(j, ignored);
    AnyTyped(init, ignored);
    AnyTyped(rest, ignored);
    SameLines(init, prev, p, ignored);
    DocLinesFollow(init + [prev] + [p], init + [j], rest, ignored);
    AnyAppend(init, [prev], ignored);
    AnyAppend(init + [prev], [p], ignored);
    AnyAppend(init + [prev] + [p], rest, ignored);
    AnyAppend(init, [j], ignored);
    AnyAppend(init + [j], rest, ignored);
    SameText(init + [prev] + [p] + rest, init + [j] + rest, ignored);
  }
}
