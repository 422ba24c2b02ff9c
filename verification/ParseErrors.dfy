/** When parsing and writing documents raise: the lines at fault. */
module ParseErrors {
  import opened Text
  import opened AttributeList
  import opened AttributePrinting
  import opened AttributeErrors
  import opened DocumentFormat
  import opened DocumentWriting
  import opened Composition
  import opened CodeBlocks

  // ----- the last line of a code block -----

  lemma {:induction false} LastNewlineIs(s: string, i: nat)
    requires i < |s| && s[i] == '\n' && forall k :: i < k < |s| ==> s[k] != '\n'
    ensures LastNewline(s) == i
  {
    NewlineFound(s, i);
  }

  /** The last of several lines is what follows the last newline of the joined text. */
  lemma LastLine(lines: seq<string>)
    requires |lines| >= 2 && NoBreaks(lines[|lines| - 1])
    ensures var md := JoinLines(lines); LastNewline(md) >= 0 && LastLineOf(md) == lines[|lines| - 1]
  {
    var k := |lines| - 1;
    InitLast(lines);
    JoinAppend(lines[..k], [lines[k]]);
    LastPart(JoinLines(lines[..k]), lines[k]);
  }

  lemma LastPart(front: string, last: string)
    requires NoBreaks(last)
    ensures var md := front + "\n" + last; LastNewline(md) == |front| && LastLineOf(md) == last
  {
    var md := front + "\n" + last;
    assert md[|front|] == '\n';
    assert forall j :: |front| < j < |md| ==> md[j] == last[j - |front| - 1];
    LastNewlineIs(md, |front|);
  }

  /** A text that only continues a run of one character, or is blank, has no brace. */
  lemma NoBraceFine(line: string)
    requires forall i :: 0 <= i < |line| ==> line[i] != '{'
    ensures GetAttributes(line).Ok?
  {
    FirstListSkips(line, 0, |line|);
  }

  /** The completed last line, stripped, is the closing line if there is one, and otherwise the marker. */
  lemma {:induction false} ClosingLast(body: seq<string>, close: Option<string>, marker: string)
    requires |marker| >= 3 && (forall i :: 0 <= i < |marker| ==> marker[i] == marker[0]) && !IsSpace(marker[0])
    requires NoneStarts(body, marker)
    ensures var ls := Closing(body, close, marker);
            RStrip(ls[|ls| - 1]) == if close.Some? then RStrip(close.value) else marker
  {
    var ls := Closing(body, close, marker);
    if close.None? && body != [] && ls[|ls| - 1] != marker {
      PartialMarker(body[|body| - 1], marker);
    }
  }

  /** A partial end marker, completed and stripped, is the marker. */
  lemma PartialMarker(last: string, marker: string)
    requires marker != "" && (forall i :: 0 <= i < |marker| ==> marker[i] == marker[0]) && !IsSpace(marker[0])
    requires var n := RunLength(last, marker[0]);
             (n > 0 || last == "") && |Strip(last)| == n && n <= |marker|
    ensures RStrip(Repeat(marker[0], |marker| - RunLength(last, marker[0])) + last) == marker
  {
    var part, w := OnlyRun(last, marker[0]);
    CompletedSpace(part, w, |part|, marker);
  }

  lemma CompletedSpace(part: string, w: string, n: nat, marker: string)
    requires marker != "" && (forall i :: 0 <= i < |marker| ==> marker[i] == marker[0]) && !IsSpace(marker[0])
    requires |part| == n <= |marker| && (forall i :: 0 <= i < |part| ==> part[i] == marker[0]) && AllSpace(w)
    ensures RStrip(Repeat(marker[0], |marker| - n) + (part + w)) == marker
  {
    Completed(part, n, marker);
    Moved(Repeat(marker[0], |marker| - n), part, w);
    RStripAppend(marker, w);
    RunStays(marker);
  }

  lemma Moved<T>(front: seq<T>, part: seq<T>, w: seq<T>)
    ensures front + (part + w) == (front + part) + w
  {
  }

  lemma RunStays(marker: string)
    requires marker != "" && (forall i :: 0 <= i < |marker| ==> marker[i] == marker[0]) && !IsSpace(marker[0])
    ensures RStrip(marker) == marker
  {
    assert marker[|marker| - 1] == marker[0];
  }

  lemma Completed(part: string, n: nat, marker: string)
    requires marker != "" && (forall i :: 0 <= i < |marker| ==> marker[i] == marker[0]) && |part| == n <= |marker|
    requires forall i :: 0 <= i < |part| ==> part[i] == marker[0]
    ensures Repeat(marker[0], |marker| - n) + part == marker
  {
  }

  /** A line whose stripped text is as long as its leading run is that run and whitespace. */
  lemma OnlyRun(last: string, c: char) returns (part: string, w: string)
    requires !IsSpace(c) && |Strip(last)| == RunLength(last, c) && (RunLength(last, c) > 0 || last == "")
    ensures AllSpace(w) && last == part + w && |part| == RunLength(last, c)
    ensures forall i :: 0 <= i < |part| ==> part[i] == c
  {
    var n := RunLength(last, c);
    part, w := last[..n], last[n..];
    if n > 0 {
      assert LStrip(last) == last;
      StripEither(last);
      RStripSplit(last);
    }
  }

  // ----- one chunk -----

  function ErrorOf<T>(r: Result<T>): Option<Error> {
    if r.Raised? then Some(r.error) else None
  }

  /** What the lines of a chunk that are read for attributes raise: its first one, and the closing line of code. */
  function ChunkError(c: Chunk): Option<Error> {
    match c
    case Plain(_) => None
    case Heading(start, _) => ErrorOf(GetAttributes(start))
    case Fence(start, _, close) =>
      if GetAttributes(start).Raised? then ErrorOf(GetAttributes(start))
      else if IsSet(GetAttributes(start).value.tokens, "atom") || close.None? then None
      else ErrorOf(GetAttributes(RStrip(close.value)))
  }

  /** The backticks that open a code block, or none for tildes, are found at its last line again. */
  lemma {:induction false} TicksAtEnd(ls: seq<string>, md: string)
    requires CodeShape(ls) && ls[0] <= md && (|ls[0]| < |md| ==> md[|ls[0]|] == '\n')
    ensures StartsWith(ls[|ls| - 1], Repeat('`', RunLength(md, '`')))
  {
    var m := Marker(ls[0]);
    if m[0] == '`' {
      assert |m| < |md| ==> md[|m|] != '`' by {
        if |m| < |ls[0]| { assert md[|m|] == ls[0][|m|]; }
      }
      RunLengthIs(md, '`', |m|);
      assert m == Repeat('`', |m|);
    } else {
      RunLengthIs(md, '`', 0);
      assert Repeat('`', 0) == "";
    }
  }

  /** The lines of a code block with the last one stripped. */
  function Kept(ls: seq<string>): seq<string>
    requires ls != []
  {
    ls[..|ls| - 1] + [RStrip(ls[|ls| - 1])]
  }

  lemma KeptShape(ls: seq<string>)
    requires CodeShape(ls) && Unbroken(ls)
    ensures CodeShape(Kept(ls)) && NoBreaks(RStrip(ls[|ls| - 1])) && StripMd(JoinLines(ls)) == JoinLines(Kept(ls))
  {
    LastKeepsMarker(ls[|ls| - 1], Marker(ls[0]));
    StripJoined(ls);
    ShapeWithLast(ls, RStrip(ls[|ls| - 1]));
  }

  lemma FirstLineLeads(lines: seq<string>)
    requires |lines| >= 2
    ensures var md := JoinLines(lines); lines[0] <= md && |lines[0]| < |md| && md[|lines[0]|] == '\n'
  {
    assert JoinLines(lines) == lines[0] + "\n" + JoinLines(lines[1..]);
  }

  /** What the check of the last line reads. */
  lemma {:induction false} EndReads(ls: seq<string>)
    requires CodeShape(ls) && Unbroken(ls)
    ensures ErrorOf(EndIsClean(StripMd(JoinLines(ls)))) == ErrorOf(GetAttributes(RStrip(ls[|ls| - 1])))
  {
    var kept := Kept(ls);
    var md := JoinLines(kept);
    KeptShape(ls);
    LastLine(kept);
    FirstLineLeads(kept);
    TicksAtEnd(kept, md);
    LineReads(kept[|kept| - 1], RunLength(md, '`'));
  }

  lemma LineReads(last: string, numTicks: nat)
    requires StartsWith(last, Repeat('`', numTicks))
    ensures ErrorOf(LineIsClean(last, numTicks)) == ErrorOf(GetAttributes(last))
  {
  }

  /** The end of a code block raises exactly when its closing line does. */
  lemma {:induction false} CodeEndRaises(c: Chunk, at: Option<nat>)
    requires Shaped(c) && c.Fence? && (at.Some? ==> at.value < |c.start| && c.start[at.value] == '{')
    ensures var ls := [FirstLine(c.start, at)] + Closing(c.body, c.close, Marker(c.start));
            ErrorOf(EndIsClean(StripMd(JoinLines(ls)))) ==
            if c.close.None? then None else ErrorOf(GetAttributes(RStrip(c.close.value)))
  {
    var m := Marker(c.start);
    var more := Closing(c.body, c.close, m);
    var ls := [FirstLine(c.start, at)] + more;
    BlockLinesShape(c, at);
    EndReads(ls);
    assert ls[|ls| - 1] == more[|more| - 1];
    ClosingLast(c.body, c.close, m);
    if c.close.None? {
      NoBraceFine(m);
    }
  }

  /** A chunk raises exactly what its lines that are read for attributes raise. */
  lemma {:induction false} BlockRaises(c: Chunk)
    requires Shaped(c)
    ensures ErrorOf(ToBlock(c)) == ChunkError(c)
  {
    if c.Fence? && GetAttributes(c.start).Ok? {
      var a := GetAttributes(c.start).value;
      if !IsSet(a.tokens, "atom") {
        CodeEndRaises(c, a.start);
      }
    }
  }

  // ----- documents -----

  /** The chunk at fault for an exception: the first one whose lines raise. */
  predicate AtFault(cs: seq<Chunk>, i: nat, e: Error) {
    i < |cs| && ChunkError(cs[i]) == Some(e) && forall j :: 0 <= j < i ==> ChunkError(cs[j]) == None
  }

  lemma {:induction false} ChunkAtFault(cs: seq<Chunk>, e: Error) returns (i: nat)
    requires ProperChunks(cs) && (forall k :: 0 <= k < |cs| ==> Shaped(cs[k])) && ToBlocks(cs) == Raised(e)
    ensures AtFault(cs, i, e)
  {
    BlockRaises(cs[0]);
    if ToBlock(cs[0]).Raised? {
      i := 0;
    } else {
      i := ChunkAtFault(cs[1..], e);
      i := i + 1;
    }
  }

  lemma FaultLater(cs: seq<Chunk>, i: nat, e: Error)
    requires i > 0 && AtFault(cs, i, e)
    ensures AtFault(cs[1..], i - 1, e)
  {
    var more := cs[1..];
    assert forall k :: 0 <= k < |more| ==> more[k] == cs[k + 1];
  }

  lemma {:induction false} FaultRaises(cs: seq<Chunk>, i: nat, e: Error)
    requires ProperChunks(cs) && (forall k :: 0 <= k < |cs| ==> Shaped(cs[k])) && AtFault(cs, i, e)
    ensures ToBlocks(cs) == Raised(e)
  {
    BlockRaises(cs[0]);
    if i > 0 {
      assert ChunkError(cs[0]) == None;
      FaultLater(cs, i, e);
      var more := cs[1..];
      assert forall k :: 0 <= k < |more| ==> more[k] == cs[k + 1];
      FaultRaises(more, i - 1, e);
    }
  }

  /** Parsing raises exactly when the lines of some chunk do, and what those of the first one do. */
  lemma ParseRaises(text: string, o: Options, e: Error)
    ensures ParseText(text, o) == Raised(e) <==>
            exists i :: AtFault(Chunks(SplitLines(text), o.breakOnEmptyLine), i, e)
  {
    TextShaped(text, o.breakOnEmptyLine);
    ChunksRaise(Chunks(SplitLines(text), o.breakOnEmptyLine), e);
  }

  lemma TextShaped(text: string, boe: bool)
    ensures var cs := Chunks(SplitLines(text), boe);
            ProperChunks(cs) && (forall k :: 0 <= k < |cs| ==> Shaped(cs[k])) &&
            ErrorOf(SplitBlocks(SplitLines(text), boe)) == ErrorOf(ToBlocks(cs))
  {
    ChunksProper(SplitLines(text), boe);
    SplitHasNoBreaks(text);
    ChunksShaped(SplitLines(text), boe);
  }

  lemma ChunksRaise(cs: seq<Chunk>, e: Error)
    requires ProperChunks(cs) && forall k :: 0 <= k < |cs| ==> Shaped(cs[k])
    ensures ToBlocks(cs) == Raised(e) <==> exists i :: AtFault(cs, i, e)
  {
    if ToBlocks(cs) == Raised(e) {
      var i := ChunkAtFault(cs, e);
    }
    if i :| AtFault(cs, i, e) {
      FaultRaises(cs, i, e);
    }
  }

  // ----- what to look for in a text -----

  /** Some line, without the whitespace at its end, looks like one that raises. */
  predicate SuspectText(text: string, e: Error) {
    exists i :: 0 <= i < |SplitLines(text)| &&
      (Suspect(SplitLines(text)[i], e) || Suspect(RStrip(SplitLines(text)[i]), e))
  }

  lemma InParts<T>(s: seq<T>, n: nat, x: T)
    requires n <= |s|
    ensures x in s[..n] ==> x in s
    ensures x in s[n..] ==> x in s
  {
  }

  lemma FirstOfChunks(lines: seq<string>, boe: bool)
    requires lines != [] && !IsBlank(lines[0])
    ensures var c := FirstChunk(lines, boe); Chunks(lines, boe)[0] == c && ChunkLines(c) == lines[..|ChunkLines(c)|]
  {
  }

  lemma {:induction false} ChunkLineIn(lines: seq<string>, boe: bool, i: nat, c: Chunk, line: string)
    requires i < |Chunks(lines, boe)| && Chunks(lines, boe)[i] == c && line in ChunkLines(c)
    ensures line in lines
    decreases |lines|
  {
    if IsBlank(lines[0]) {
      ChunkLineIn(lines[1..], boe, i, c, line);
      InParts(lines, 1, line);
    } else {
      var n := |ChunkLines(FirstChunk(lines, boe))|;
      var rest := lines[n..];
      InParts(lines, n, line);
      FirstOfChunks(lines, boe);
      if i > 0 {
        NextChunk(lines, boe, i - 1);
        ChunkLineIn(rest, boe, i - 1, c, line);
      }
    }
  }

  lemma ChunkSuspect(c: Chunk, e: Error) returns (line: string)
    requires ChunkError(c) == Some(e)
    ensures line in ChunkLines(c) && (Suspect(line, e) || Suspect(RStrip(line), e))
  {
    if GetAttributes(c.start).Raised? {
      line := c.start;
      assert ChunkLines(c)[0] == line;
      OnlySuspectsRaise(line, e);
    } else {
      line := c.close.value;
      assert ChunkLines(c)[|ChunkLines(c)| - 1] == line;
      OnlySuspectsRaise(RStrip(line), e);
    }
  }

  lemma LineSuspect(text: string, line: string, e: Error)
    requires line in SplitLines(text) && (Suspect(line, e) || Suspect(RStrip(line), e))
    ensures SuspectText(text, e)
  {
    var lines := SplitLines(text);
    var i :| 0 <= i < |lines| && lines[i] == line;
  }

  /** A text without a line that looks like it never raises, under any options. */
  lemma OnlySuspectTextsRaise(text: string, o: Options, e: Error)
    requires ParseText(text, o) == Raised(e)
    ensures SuspectText(text, e)
  {
    var lines := SplitLines(text);
    ParseRaises(text, o, e);
    var i: nat :| AtFault(Chunks(lines, o.breakOnEmptyLine), i, e);
    var c := Chunks(lines, o.breakOnEmptyLine)[i];
    var line := ChunkSuspect(c, e);
    ChunkLineIn(lines, o.breakOnEmptyLine, i, c, line);
    LineSuspect(text, line, e);
  }

  // ----- writing -----

  /** The first of several errors is at place `i`. */
  predicate FirstAt(errors: seq<Option<Error>>, i: nat, e: Error) {
    i < |errors| && errors[i] == Some(e) && forall j :: 0 <= j < i ==> errors[j] == None
  }

  function FirstError(errors: seq<Option<Error>>): Option<Error> {
    if errors == [] then None
    else
      var before := FirstError(errors[..|errors| - 1]);
      if before.Some? then before else errors[|errors| - 1]
  }

  lemma {:induction false} FirstErrorIs(errors: seq<Option<Error>>, e: Error)
    ensures FirstError(errors) == Some(e) <==> exists i :: FirstAt(errors, i, e)
    ensures FirstError(errors) == None <==> forall i :: 0 <= i < |errors| ==> errors[i] == None
  {
    if errors != [] {
      var n := |errors| - 1;
      FirstErrorIs(errors[..n], e);
      assert forall i :: 0 <= i < n ==> errors[..n][i] == errors[i];
      if i: nat :| FirstAt(errors[..n], i, e) {
        assert FirstAt(errors, i, e);
      }
      if i: nat :| FirstAt(errors, i, e) && i < n {
        assert FirstAt(errors[..n], i, e);
      }
      if FirstError(errors[..n]) == None && errors[n] == Some(e) {
        assert FirstAt(errors, n, e);
      }
    }
  }

  /** What parsing the text of each paragraph raises. */
  function Errors(pars: seq<Par>, o: Options): (errors: seq<Option<Error>>)
    ensures |errors| == |pars|
    ensures forall i :: 0 <= i < |pars| ==> errors[i] == ErrorOf(ParseText(pars[i].md, o))
  {
    seq(|pars|, i requires 0 <= i < |pars| => ErrorOf(ParseText(pars[i].md, o)))
  }

  lemma ErrorsOfInit(pars: seq<Par>, o: Options)
    requires pars != []
    ensures Errors(pars, o)[..|pars| - 1] == Errors(pars[..|pars| - 1], o)
  {
  }

  lemma WrittenOne(pars: seq<Par>, o: Options, ignored: set<string>)
    requires pars != [] && forall i :: 0 <= i < |pars| ==> WellTyped(pars[i])
    ensures var n := |pars| - 1; var before := WrittenAll(pars[..n], o, ignored);
            ErrorOf(WrittenAll(pars, o, ignored)) ==
            if before.Raised? then Some(before.error) else ErrorOf(ParseText(pars[n].md, o))
  {
  }

  lemma {:induction false} WrittenError(pars: seq<Par>, o: Options, ignored: set<string>)
    requires forall i :: 0 <= i < |pars| ==> WellTyped(pars[i])
    ensures ErrorOf(WrittenAll(pars, o, ignored)) == FirstError(Errors(pars, o))
  {
    if pars != [] {
      var n := |pars| - 1;
      WrittenOne(pars, o, ignored);
      WrittenError(pars[..n], o, ignored);
      ErrorsOfInit(pars, o);
    }
  }

  /** Writing raises exactly when parsing the text of a paragraph does, with the exception of the first. */
  lemma WriteRaises(pars: seq<Par>, o: Options, ignored: set<string>, e: Error)
    requires forall i :: 0 <= i < |pars| ==> WellTyped(pars[i])
    ensures WriteText(pars, o, ignored) == Raised(e) <==> exists i :: FirstAt(Errors(pars, o), i, e)
  {
    WrittenError(pars, o, ignored);
    FirstErrorIs(Errors(pars, o), e);
  }

  /** Paragraphs without a line that looks like it are always written. */
  lemma OnlySuspectsUnwritten(pars: seq<Par>, o: Options, ignored: set<string>, e: Error)
    requires (forall i :: 0 <= i < |pars| ==> WellTyped(pars[i])) && WriteText(pars, o, ignored) == Raised(e)
    ensures exists i :: 0 <= i < |pars| && SuspectText(pars[i].md, e)
  {
    WriteRaises(pars, o, ignored, e);
    var i: nat :| FirstAt(Errors(pars, o), i, e);
    OnlySuspectTextsRaise(pars[i].md, o, e);
  }

  // ----- a text that raises -----

  /** Headers that end in a cut-off assignment are texts that neither parse nor can be written. */
  lemma {:induction false} CutOffTextRaises(title: string, key: string, v: string, o: Options)
    requires PlainKey(key) && NoBreaks(title) && NoBreaks(v) && forall i :: 0 <= i < |title| ==> title[i] != '{'
    ensures ParseText("#" + title + "{" + Dangling(key, v), o) == Raised(IndexError)
  {
    var line := "#" + title + "{" + Dangling(key, v);
    EscapeNoBreaks(v);
    assert line == ("#" + title) + "{" + Dangling(key, v);
    BackslashRaises("#" + title, key, v);
    HeadingLine(line, o.breakOnEmptyLine);
    ParseRaises(line, o, IndexError);
    assert AtFault([Heading(line, [])], 0, IndexError);
  }

  lemma HeadingLine(line: string, boe: bool)
    requires line != "" && line[0] == '#' && NoBreaks(line)
    ensures Chunks(SplitLines(line), boe) == [Heading(line, [])]
  {
    SplitOne(line);
    var lines := [line];
    assert !IsSpace(line[0]);
    assert lines[1..] == [] && !IsFence(line);
    assert FirstChunk(lines, boe) == Heading(line, []);
    assert lines[1..] == lines[|ChunkLines(Heading(line, []))|..];
  }
}
