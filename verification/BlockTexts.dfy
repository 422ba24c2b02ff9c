/**
 Which lines of a document become which block: the relation between a text and its blocks in terms of
 characters and lines.
 */
module BlockTexts {
  import opened Text
  import opened AttributeList
  import opened DocumentFormat
  import opened Composition
  import opened CodeBlocks
  import opened RoundTrip
  import opened ParsedAttributes
  import opened ParsedShapes
  import opened DocumentRoundTrip
  import opened CodeEnds

  // ----- lines -----

  predicate HashLine(line: string) {
    |line| >= 1 && line[0] == '#'
  }

  predicate FenceLine(line: string) {
    |line| >= 3 && (line[0] == '`' || line[0] == '~') && line[0] == line[1] == line[2]
  }

  /** At least `n` characters `c` in front. */
  predicate Begins(line: string, c: char, n: nat) {
    n <= |line| && forall i :: 0 <= i < n ==> line[i] == c
  }

  /** `kept` is the line without its trailing whitespace, which is not the whole line. */
  predicate Cut(line: string, kept: string) {
    && kept != "" && kept <= line && !IsSpace(kept[|kept| - 1])
    && forall i :: |kept| <= i < |line| ==> IsSpace(line[i])
  }

  /** `kept` are the lines from `j` to the last one with text, that one cut; the lines before are empty. */
  predicate KeptFrom(lines: seq<string>, kept: seq<string>, j: nat) {
    && j + |kept| <= |lines|
    && (forall i :: 0 <= i < j ==> lines[i] == "")
    && (forall i :: 0 <= i < |kept| - 1 ==> kept[i] == lines[j + i])
    && (kept != [] ==> kept[0] != "" && Cut(lines[j + |kept| - 1], kept[|kept| - 1]))
    && (forall i :: j + |kept| <= i < |lines| ==> IsBlank(lines[i]))
  }

  ghost predicate KeptOf(lines: seq<string>, kept: seq<string>) {
    exists j :: KeptFrom(lines, kept, j)
  }

  // ----- the lines of each block -----

  /** The attributes of a block from those of its first line. */
  ghost predicate AttributesFrom(b: Block, t: Tokens) {
    && b.id == (if "id" in t then Some(t["id"]) else None)
    && b.t == (if "t" in t then Some(t["t"]) else None)
    && (forall k :: k in b.attrs <==> k in t && k != "id" && k != "t" && (b.kind == Atom ==> k != "atom"))
    && (forall k :: k in b.attrs ==> b.attrs[k] == t[k])
  }

  /** What stays of a first line: the part before its list, if it has one. */
  predicate HeadOf(start: string, at: Option<nat>, head: string) {
    if at.Some? then at.value <= |start| && Cut(start[..at.value], head) else Cut(start, head)
  }

  /** Plain paragraphs have no attributes, and their lines stay as they are. */
  ghost predicate PlainLinesOf(lines: seq<string>, b: Block) {
    b.kind == AutoNormal && b.id == None && b.t == None && b.attrs == map[] && KeptOf(lines, SplitLines(b.md))
  }

  /** A line that begins with `#-` is dropped; of another heading the list is cut off. */
  ghost predicate HeadingLinesOf(lines: seq<string>, b: Block, a: Attributes)
    requires lines != []
  {
    var md := SplitLines(b.md);
    && AttributesFrom(b, a.tokens)
    && if |lines[0]| >= 2 && lines[0][1] == '-' then b.kind == Normal && KeptOf(lines[1..], md)
       else b.kind == Header && md != [] && HeadOf(lines[0], a.start, md[0]) && KeptOf([md[0]] + lines[1..], md)
  }

  /** A line that holds a part of the closing marker only. */
  predicate PartOfMarker(line: string, c: char, n: nat) {
    line == "" ||
    exists k :: 0 < k < n && Begins(line, c, k) && k <= |line| && forall i :: k <= i < |line| ==> IsSpace(line[i])
  }

  predicate Closed(lines: seq<string>, c: char, n: nat) {
    lines != [] && Begins(lines[|lines| - 1], c, n)
  }

  /** The lines of a code block stay, and a missing or partial closing line is completed. */
  predicate CodeLinesOf(lines: seq<string>, rest: seq<string>, c: char, n: nat) {
    && rest != []
    && var k := |rest| - 1;
       if Closed(lines, c, n) then |lines| == k + 1 && rest[..k] == lines[..k] && Cut(lines[k], rest[k])
       else
         && |rest[k]| == n && Begins(rest[k], c, n)
         && rest[..k] == if lines != [] && PartOfMarker(lines[|lines| - 1], c, n) then lines[..|lines| - 1] else lines
  }

  predicate AtomSet(t: Tokens) {
    "atom" in t && t["atom"] != Str("") && t["atom"] != Names([])
  }

  /** Of an atom only the lines between the fences stay; of code the list is cut off. */
  ghost predicate FenceLinesOf(lines: seq<string>, b: Block, a: Attributes)
    requires lines != [] && lines[0] != ""
  {
    var md, c := SplitLines(b.md), lines[0][0];
    var n := RunLength(lines[0], c);
    && AttributesFrom(b, a.tokens)
    && if AtomSet(a.tokens) then
         b.kind == Atom && KeptOf(if Closed(lines[1..], c, n) then lines[1..|lines| - 1] else lines[1..], md)
       else
         b.kind == Code && md != [] && HeadOf(lines[0], a.start, md[0]) && CodeLinesOf(lines[1..], md[1..], c, n)
  }

  /** The block is what the lines say, and its text consists of its lines. */
  ghost predicate LinesOf(lines: seq<string>, b: Block) {
    && lines != []
    && (forall i :: 0 <= i < |b.md| && IsLineBreak(b.md[i]) ==> b.md[i] == '\n')
    && (b.md == "" || !IsSpace(b.md[|b.md| - 1]))
    && if FenceLine(lines[0]) then
         GetAttributes(lines[0]).Ok? && FenceLinesOf(lines, b, GetAttributes(lines[0]).value)
       else if HashLine(lines[0]) then
         GetAttributes(lines[0]).Ok? && HeadingLinesOf(lines, b, GetAttributes(lines[0]).value)
       else PlainLinesOf(lines, b)
  }

  // ----- the proof, chunk by chunk -----

  lemma CutIs(line: string)
    requires !IsBlank(line)
    ensures Cut(line, RStrip(line))
  {
    RStripSplit(line);
    RStripNotBlank(line);
    var k := |RStrip(line)|;
    assert forall i :: k <= i < |line| ==> line[i] == line[k..][i - k];
  }

  lemma FenceMeans(line: string)
    ensures IsFence(line) <==> FenceLine(line)
  {
    if FenceLine(line) {
      assert line[..3] == (if line[0] == '`' then "```" else "~~~");
    }
  }

  lemma MarkerMeans(start: string, line: string)
    requires IsFence(start)
    ensures FenceLine(start) && |Marker(start)| == RunLength(start, start[0])
    ensures StartsWith(line, Marker(start)) <==> Begins(line, start[0], RunLength(start, start[0]))
  {
    var m := Marker(start);
    FenceMeans(start);
    RunLengthIs(start, start[0], |m|);
    if Begins(line, start[0], |m|) {
      assert line[..|m|] == m;
    }
  }

  lemma KeptIs(lines: seq<string>, rest: seq<string>, j: nat)
    requires Remain(rest, lines, j) && (forall i :: 0 <= i < j ==> lines[i] == "" || rest == [])
    requires rest == [] ==> forall i :: 0 <= i < |lines| ==> IsBlank(lines[i])
    requires rest != [] ==> rest[0] != "" && forall i :: j + |rest| <= i < |lines| ==> IsBlank(lines[i])
    ensures KeptOf(lines, rest)
  {
    if rest == [] {
      assert KeptFrom(lines, rest, 0);
    } else {
      var k := |rest| - 1;
      if IsBlank(lines[j + k]) {
        assert "" + lines[j + k] == lines[j + k];
        RStripAppend("", lines[j + k]);
        assert false;
      }
      CutIs(lines[j + k]);
      assert KeptFrom(lines, rest, j);
    }
  }

  /** Stripping a joined text keeps the lines between its ends. */
  lemma {:induction false} StripKeeps(lines: seq<string>)
    requires Unbroken(lines)
    ensures var md := StripMd(JoinLines(lines)); CleanMd(md) && KeptOf(lines, SplitLines(md))
  {
    var rest, j := StripLines(lines);
    KeptIs(lines, rest, j);
  }

  /** What is left of a first line. */
  lemma HeadIs(start: string, at: Option<nat>)
    requires start != "" && !IsSpace(start[0])
    requires at.Some? ==> 0 < at.value <= |start|
    ensures HeadOf(start, at, FirstLine(start, at))
    ensures FirstLine(start, at)[0] == start[0]
  {
    var cut := if at.Some? then start[..at.value] else start;
    assert cut[0] == start[0];
    CutIs(cut);
    RStripHead(cut);
  }

  /** A cut line cannot be cut further. */
  lemma CutAgain(line: string, kept: string)
    requires Cut(line, kept) && line != "" && !IsSpace(line[|line| - 1])
    ensures kept == line
  {
  }

  /** Kept lines begin with the first line when that is not blank. */
  lemma KeptFirst(lines: seq<string>, kept: seq<string>)
    requires KeptOf(lines, kept) && lines != [] && lines[0] != "" && !IsSpace(lines[0][|lines[0]| - 1])
    ensures kept != [] && kept[0] == lines[0]
  {
    var j :| KeptFrom(lines, kept, j);
    assert !IsBlank(lines[0]) by { assert !IsSpace(lines[0][|lines[0]| - 1]); }
    if kept != [] && |kept| == 1 {
      CutAgain(lines[0], kept[0]);
    }
  }

  lemma CleanText(md: string)
    requires CleanMd(md)
    ensures forall i :: 0 <= i < |md| && IsLineBreak(md[i]) ==> md[i] == '\n'
    ensures md == "" || !IsSpace(md[|md| - 1])
  {
    CleanEnds(md);
  }

  lemma {:induction false} PlainOf(c: Chunk, b: Block)
    requires c.Plain? && c.body != [] && Unbroken(c.body) && ToBlock(c) == Ok(b)
    requires !IsFence(c.body[0]) && !IsHeading(c.body[0])
    ensures LinesOf(c.body, b)
  {
    StripKeeps(c.body);
    CleanText(b.md);
    FenceMeans(c.body[0]);
  }

  lemma AttributesTaken(b: Block, t: Tokens)
    requires b.id == Get(t, "id") && b.t == Get(t, "t")
    requires b.attrs == (if b.kind == Atom then t - {"atom"} - {"id", "t"} else t - {"id", "t"})
    ensures AttributesFrom(b, t)
  {
  }

  lemma BehindHead(start: string, body: seq<string>)
    ensures ([start] + body)[0] == start && ([start] + body)[1..] == body
  {
  }

  lemma FirstLineReads(c: Chunk)
    requires !c.Plain? && ProperChunk(c) && ToBlock(c).Ok?
    ensures GetAttributes(c.start).Ok?
  {
  }

  lemma {:induction false} HashDashOf(c: Chunk, b: Block, a: Attributes)
    requires c.Heading? && IsHeading(c.start) && Unbroken(c.body) && ToBlock(c) == Ok(b)
    requires GetAttributes(c.start) == Ok(a) && StartsWith(c.start, "#-")
    ensures HeadingLinesOf(ChunkLines(c), b, a) && CleanMd(b.md)
  {
    StripKeeps(c.body);
    BehindHead(c.start, c.body);
    assert c.start[..2] == "#-";
    AttributesTaken(b, a.tokens);
  }

  lemma NotHashDash(start: string)
    requires IsHeading(start)
    ensures StartsWith(start, "#-") <==> |start| >= 2 && start[1] == '-'
  {
    if |start| >= 2 && start[1] == '-' {
      assert start[..2] == "#-";
    }
  }

  lemma HeaderText(c: Chunk, b: Block, a: Attributes)
    requires c.Heading? && IsHeading(c.start) && ToBlock(c) == Ok(b)
    requires GetAttributes(c.start) == Ok(a) && !StartsWith(c.start, "#-")
    ensures b.kind == Header && b.id == Get(a.tokens, "id") && b.t == Get(a.tokens, "t")
    ensures b.attrs == a.tokens - {"id", "t"}
    ensures b.md == StripMd(FirstLine(c.start, a.start) + "\n" + JoinLines(c.body))
  {
  }

  lemma {:induction false} HeaderKept(start: string, body: seq<string>, at: Option<nat>, md: string)
    requires IsHeading(start) && !StartsWith(start, "#-") && Unbroken([start] + body)
    requires at.Some? ==> at.value < |start| && start[at.value] == '{'
    requires md == StripMd(FirstLine(start, at) + "\n" + JoinLines(body))
    ensures CleanMd(md) && SplitLines(md) != [] && HeadOf(start, at, SplitLines(md)[0])
    ensures KeptOf([SplitLines(md)[0]] + body, SplitLines(md))
  {
    var first := FirstLine(start, at);
    HeadingUnbroken(start, "", body);
    HeaderFirstLine(start, at);
    HeadingUnbroken(start, first, body);
    HeadIs(start, at);
    HeaderJoin(first, body);
    StripKeeps([first] + body);
    BehindHead(first, body);
    KeptFirst([first] + body, SplitLines(md));
  }

  lemma {:induction false} HeaderOf(c: Chunk, b: Block, a: Attributes)
    requires c.Heading? && IsHeading(c.start) && Unbroken([c.start] + c.body) && ToBlock(c) == Ok(b)
    requires GetAttributes(c.start) == Ok(a) && !StartsWith(c.start, "#-")
    ensures HeadingLinesOf(ChunkLines(c), b, a) && CleanMd(b.md)
  {
    HeaderText(c, b, a);
    HeaderKept(c.start, c.body, a.start, b.md);
    BehindHead(c.start, c.body);
    NotHashDash(c.start);
    AttributesTaken(b, a.tokens);
  }

  lemma HeadingLinesRead(lines: seq<string>, b: Block, a: Attributes)
    requires lines != [] && HashLine(lines[0]) && GetAttributes(lines[0]) == Ok(a)
    requires HeadingLinesOf(lines, b, a) && CleanMd(b.md)
    ensures LinesOf(lines, b)
  {
    CleanText(b.md);
    assert !FenceLine(lines[0]);
  }

  lemma {:induction false} HeadingOf(c: Chunk, b: Block)
    requires c.Heading? && IsHeading(c.start) && Unbroken([c.start] + c.body) && ToBlock(c) == Ok(b)
    ensures LinesOf(ChunkLines(c), b)
  {
    FirstLineReads(c);
    var a := GetAttributes(c.start).value;
    HeadingUnbroken(c.start, "", c.body);
    if StartsWith(c.start, "#-") {
      HashDashOf(c, b, a);
    } else {
      HeaderOf(c, b, a);
    }
    HeadingLinesRead(ChunkLines(c), b, a);
  }

  // ----- the proof for fences -----

  lemma StripRun(s: string, k: nat)
    requires 0 < k <= |s| && (forall i :: k <= i < |s| ==> IsSpace(s[i]))
    requires !IsSpace(s[0]) && !IsSpace(s[k - 1])
    ensures Strip(s) == s[..k]
  {
    var v := s[k..];
    assert s == "" + s[..k] + v;
    assert forall i :: 0 <= i < |v| ==> v[i] == s[k + i];
    StripPadded("", s[..k], v);
  }

  lemma PartIsRun(last: string, c: char, n: nat)
    requires !IsSpace(c) && last != "" && PartOfMarker(last, c, n)
    ensures var k := RunLength(last, c);
            0 < k < n && |Strip(last)| == k && forall i :: k <= i < |last| ==> IsSpace(last[i])
  {
    var j :| 0 < j < n && Begins(last, c, j) && j <= |last| && forall i :: j <= i < |last| ==> IsSpace(last[i]);
    RunLengthIs(last, c, j);
    StripRun(last, j);
  }

  lemma RunIsPart(last: string, c: char, n: nat)
    requires !IsSpace(c) && 0 < RunLength(last, c) < n && |Strip(last)| == RunLength(last, c)
    ensures PartOfMarker(last, c, n)
  {
    var k := RunLength(last, c);
    RStripSplit(last);
    RStripHead(last);
    var r := RStrip(last);
    assert |r| == k;
    assert forall i :: k <= i < |last| ==> last[i] == last[|r|..][i - k];
    assert Begins(last, c, k);
  }

  /** When the parser completes the last line of an open fence. */
  lemma PartMeans(last: string, c: char, n: nat)
    requires !IsSpace(c) && !Begins(last, c, n)
    ensures var k := RunLength(last, c);
            (k > 0 || last == "") && |Strip(last)| == k && k <= n <==> PartOfMarker(last, c, n)
  {
    var k := RunLength(last, c);
    if last == "" {
      assert Strip(last) == "";
    } else if PartOfMarker(last, c, n) {
      PartIsRun(last, c, n);
    } else if k > 0 && |Strip(last)| == k && k <= n {
      assert k < n;
      RunIsPart(last, c, n);
    }
  }

  /** A fence line, its body and its closing line as the lines behind the first one. */
  function Behind(c: Chunk): seq<string>
    requires c.Fence?
  {
    c.body + (if c.close.Some? then [c.close.value] else [])
  }

  lemma BehindClosed(c: Chunk)
    requires c.Fence? && Shaped(c)
    ensures Closed(Behind(c), c.start[0], RunLength(c.start, c.start[0])) <==> c.close.Some?
  {
    var ls := Behind(c);
    if c.close.Some? {
      MarkerMeans(c.start, c.close.value);
      assert ls[|ls| - 1] == c.close.value;
    } else if ls != [] {
      assert ls == c.body;
      assert !StartsWith(c.body[|ls| - 1], Marker(c.start));
      MarkerMeans(c.start, ls[|ls| - 1]);
    }
  }

  lemma CutOfMarker(line: string, kept: string, c: char, n: nat)
    requires Cut(line, kept) && Begins(line, c, n) && n > 0 && !IsSpace(c)
    requires forall i :: n <= i < |line| ==> IsSpace(line[i])
    ensures |kept| == n && Begins(kept, c, n)
  {
    assert line[n - 1] == c;
  }

  /** All but the last of the kept lines, when the first and the last line have text. */
  lemma KeptWhole(lines: seq<string>, kept: seq<string>)
    requires KeptOf(lines, kept) && lines != [] && lines[0] != "" && !IsBlank(lines[|lines| - 1])
    ensures var k := |lines| - 1;
            |kept| == |lines| && kept[..k] == lines[..k] && Cut(lines[k], kept[k])
  {
    var j :| KeptFrom(lines, kept, j);
    assert |kept| == |lines|;
  }

  lemma TailOf<T>(s: seq<T>, t: seq<T>, k: nat)
    requires |s| == |t| == k + 1 && k >= 1 && s[..k] == t[..k]
    ensures s[1..][..k - 1] == t[1..][..k - 1] && s[1..][k - 1] == s[k] && t[1..][k - 1] == t[k]
  {
    assert forall i :: 1 <= i < k ==> s[i] == s[..k][i] == t[..k][i] == t[i];
  }

  /** The lines behind the first one of a code block, up to the last one. */
  lemma {:induction false} ClosingKept(c: Chunk, rest: seq<string>)
    requires c.Fence? && Shaped(c)
    requires var ls := Closing(c.body, c.close, Marker(c.start)); var k := |ls| - 1;
             |rest| == k + 1 && rest[..k] == ls[..k] && Cut(ls[k], rest[k])
    ensures CodeLinesOf(Behind(c), rest, c.start[0], RunLength(c.start, c.start[0]))
  {
    var m := Marker(c.start);
    BehindClosed(c);
    FenceMeans(c.start);
    MarkerMeans(c.start, "");
    if c.close.None? {
      OpenKept(c.body, rest, m, c.start[0]);
      assert Behind(c) == c.body;
    }
  }

  lemma {:induction false} OpenKept(body: seq<string>, rest: seq<string>, m: string, c: char)
    requires m != "" && (forall i :: 0 <= i < |m| ==> m[i] == c) && !IsSpace(c)
    requires body != [] ==> !Begins(body[|body| - 1], c, |m|)
    requires var ls := Closing(body, None, m); var k := |ls| - 1;
             |rest| == k + 1 && rest[..k] == ls[..k] && Cut(ls[k], rest[k])
    ensures var k := |rest| - 1;
            && |rest[k]| == |m| && Begins(rest[k], c, |m|)
            && rest[..k] == if body != [] && PartOfMarker(body[|body| - 1], c, |m|) then body[..|body| - 1] else body
  {
    var ls := Closing(body, None, m);
    var k := |ls| - 1;
    if body == [] {
      CutOfMarker(m, rest[0], c, |m|);
    } else {
      var last := body[|body| - 1];
      var n := RunLength(last, c);
      PartMeans(last, c, |m|);
      assert m[0] == c;
      if PartOfMarker(last, c, |m|) {
        var line := Repeat(c, |m| - n) + last;
        if last != "" {
          PartIsRun(last, c, |m|);
        }
        assert ls == body[..|body| - 1] + [line];
        assert forall i :: |m| <= i < |line| ==> line[i] == last[i - (|m| - n)];
        CutOfMarker(line, rest[k], c, |m|);
        assert ls[..k] == body[..|body| - 1];
      } else {
        assert ls == body + [m];
        CutOfMarker(m, rest[k], c, |m|);
        assert ls[..k] == body;
      }
    }
  }

  lemma ChunkIsBehind(c: Chunk)
    requires c.Fence?
    ensures ChunkLines(c)[0] == c.start && ChunkLines(c)[1..] == Behind(c)
    ensures c.close.Some? ==> ChunkLines(c)[1..|ChunkLines(c)| - 1] == c.body
    ensures c.close.None? ==> Behind(c) == c.body
  {
  }

  lemma AtomIsSet(t: Tokens)
    ensures AtomSet(t) <==> IsSet(t, "atom")
  {
  }

  lemma {:induction false} AtomOf(c: Chunk, b: Block, a: Attributes)
    requires c.Fence? && Shaped(c) && ToBlock(c) == Ok(b)
    requires GetAttributes(c.start) == Ok(a) && IsSet(a.tokens, "atom")
    ensures FenceLinesOf(ChunkLines(c), b, a) && CleanMd(b.md)
  {
    FenceUnbroken(c);
    StripKeeps(c.body);
    BehindClosed(c);
    ChunkIsBehind(c);
    AtomIsSet(a.tokens);
    AttributesTaken(b, a.tokens);
  }

  lemma {:induction false} CodeText(c: Chunk, b: Block, a: Attributes)
    requires c.Fence? && Shaped(c) && ToBlock(c) == Ok(b)
    requires GetAttributes(c.start) == Ok(a) && !IsSet(a.tokens, "atom")
    ensures b.kind == Code && b.id == Get(a.tokens, "id") && b.t == Get(a.tokens, "t")
    ensures b.attrs == a.tokens - {"id", "t"}
    ensures b.md == StripMd(JoinLines([FirstLine(c.start, a.start)] + Closing(c.body, c.close, Marker(c.start))))
  {
  }

  lemma CodeShapeEnds(ls: seq<string>)
    requires CodeShape(ls)
    ensures |ls| >= 2 && ls[0] != "" && !IsSpace(ls[0][|ls[0]| - 1]) && !IsBlank(ls[|ls| - 1])
  {
    var m := Marker(ls[0]);
    assert m <= ls[|ls| - 1] && ls[|ls| - 1][0] == m[0];
  }

  lemma {:induction false} CodeKept(c: Chunk, first: string, md: seq<string>)
    requires c.Fence? && Shaped(c)
    requires var ls := [first] + Closing(c.body, c.close, Marker(c.start)); CodeShape(ls) && KeptOf(ls, md)
    ensures md != [] && md[0] == first
    ensures CodeLinesOf(Behind(c), md[1..], c.start[0], RunLength(c.start, c.start[0]))
  {
    var more := Closing(c.body, c.close, Marker(c.start));
    var ls := [first] + more;
    var k := |ls| - 1;
    CodeShapeEnds(ls);
    KeptFirst(ls, md);
    KeptWhole(ls, md);
    TailOf(md, ls, k);
    assert ls[1..] == more;
    ClosingKept(c, md[1..]);
  }

  lemma {:induction false} CodeOf(c: Chunk, b: Block, a: Attributes)
    requires c.Fence? && Shaped(c) && ToBlock(c) == Ok(b)
    requires GetAttributes(c.start) == Ok(a) && !IsSet(a.tokens, "atom")
    ensures FenceLinesOf(ChunkLines(c), b, a) && CleanMd(b.md)
  {
    var first := FirstLine(c.start, a.start);
    CodeText(c, b, a);
    BlockLinesShape(c, a.start);
    StripKeeps([first] + Closing(c.body, c.close, Marker(c.start)));
    CodeKept(c, first, SplitLines(b.md));
    FenceMeans(c.start);
    HeadIs(c.start, a.start);
    ChunkIsBehind(c);
    AtomIsSet(a.tokens);
    AttributesTaken(b, a.tokens);
  }

  lemma FenceLinesRead(lines: seq<string>, b: Block, a: Attributes)
    requires lines != [] && FenceLine(lines[0]) && GetAttributes(lines[0]) == Ok(a)
    requires FenceLinesOf(lines, b, a) && CleanMd(b.md)
    ensures LinesOf(lines, b)
  {
    CleanText(b.md);
  }

  lemma {:induction false} FenceOf(c: Chunk, b: Block)
    requires c.Fence? && Shaped(c) && ToBlock(c) == Ok(b)
    ensures LinesOf(ChunkLines(c), b)
  {
    FirstLineReads(c);
    var a := GetAttributes(c.start).value;
    FenceMeans(c.start);
    ChunkIsBehind(c);
    if IsSet(a.tokens, "atom") {
      AtomOf(c, b, a);
    } else {
      CodeOf(c, b, a);
    }
    FenceLinesRead(ChunkLines(c), b, a);
  }

  // ----- whole documents -----

  /** Blank lines and the lines of one block after them. */
  datatype Piece = Piece(gap: seq<string>, lines: seq<string>)

  predicate OpensLine(line: string) {
    HashLine(line) || FenceLine(line)
  }

  /** The lines from the first one of a block to its last one, and no more. */
  predicate OneBlockLong(lines: seq<string>, more: seq<string>, boe: bool) {
    && lines != [] && !IsBlank(lines[0])
    && if FenceLine(lines[0]) then
         var c := lines[0][0];
         var n := RunLength(lines[0], c);
         && (forall i :: 1 <= i < |lines| - 1 ==> !Begins(lines[i], c, n))
         && (more != [] ==> Closed(lines[1..], c, n))
       else
         && (forall i :: 1 <= i < |lines| ==> !OpensLine(lines[i]) && (boe ==> !IsBlank(lines[i])))
         && (more != [] ==> OpensLine(more[0]) || (boe && IsBlank(more[0])))
  }

  function Length(p: Piece): nat {
    |p.gap| + |p.lines|
  }

  /** The lines begin with the piece, which is one block long. */
  predicate BeginsWith(lines: seq<string>, p: Piece, boe: bool) {
    && Length(p) <= |lines| && lines[..|p.gap|] == p.gap && lines[|p.gap|..Length(p)] == p.lines
    && (forall i :: 0 <= i < |p.gap| ==> IsBlank(lines[i]))
    && OneBlockLong(p.lines, lines[Length(p)..], boe)
  }

  /** The lines are the pieces one after the other, with blank lines at the end. */
  predicate Pieces(lines: seq<string>, ps: seq<Piece>, boe: bool)
    decreases |ps|
  {
    if ps == [] then forall i :: 0 <= i < |lines| ==> IsBlank(lines[i])
    else BeginsWith(lines, ps[0], boe) && Pieces(lines[Length(ps[0])..], ps[1..], boe)
  }

  lemma OpensMeans(line: string, boe: bool)
    ensures Stops(line, boe) <==> OpensLine(line) || (boe && IsBlank(line))
  {
    FenceMeans(line);
  }

  lemma FenceLong(c: Chunk, more: seq<string>, boe: bool)
    requires c.Fence? && IsFence(c.start) && NoneStarts(c.body, Marker(c.start))
    requires c.close.Some? ==> StartsWith(c.close.value, Marker(c.start))
    requires more != [] ==> c.close.Some?
    ensures OneBlockLong(ChunkLines(c), more, boe)
  {
    var ls := ChunkLines(c);
    FenceMeans(c.start);
    StartsBlockNotBlank(c.start);
    ChunkIsBehind(c);
    forall i | 1 <= i < |ls| - 1
      ensures !Begins(ls[i], c.start[0], RunLength(c.start, c.start[0]))
    {
      assert ls[i] == c.body[i - 1];
      MarkerMeans(c.start, ls[i]);
    }
    if c.close.Some? {
      MarkerMeans(c.start, c.close.value);
      assert ls[1..][|ls| - 2] == c.close.value;
    }
  }

  lemma OpenIsLast(lines: seq<string>, boe: bool)
    requires lines != [] && !IsBlank(lines[0]) && IsFence(lines[0])
    ensures var c := FirstChunk(lines, boe);
            && c.Fence? && c.start == lines[0] && NoneStarts(c.body, Marker(c.start))
            && (c.close.Some? ==> StartsWith(c.close.value, Marker(c.start)))
            && (c.close.None? ==> lines[|ChunkLines(c)|..] == [])
  {
  }

  /** The end of a chunk of plain lines. */
  lemma PlainEnds(lines: seq<string>, boe: bool)
    requires lines != [] && !IsBlank(lines[0]) && !IsFence(lines[0])
    ensures var n := |ChunkLines(FirstChunk(lines, boe))|;
            && 1 <= n <= |lines| && (forall i :: 1 <= i < n ==> !Stops(lines[i], boe))
            && (n < |lines| ==> Stops(lines[n], boe))
  {
    var tail := lines[1..];
    if IsHeading(lines[0]) {
      var k := PlainLength(tail, boe);
      assert forall i :: 1 <= i < k + 1 ==> lines[i] == tail[i - 1];
      assert k < |tail| ==> tail[k] == lines[k + 1];
    }
  }

  lemma FirstIsLong(lines: seq<string>, boe: bool)
    requires lines != [] && !IsBlank(lines[0])
    ensures var ls := ChunkLines(FirstChunk(lines, boe)); OneBlockLong(ls, lines[|ls|..], boe)
  {
    var ls := ChunkLines(FirstChunk(lines, boe));
    FenceMeans(lines[0]);
    if IsFence(lines[0]) {
      OpenIsLast(lines, boe);
      FenceLong(FirstChunk(lines, boe), lines[|ls|..], boe);
    } else {
      PlainEnds(lines, boe);
      PlainLong(lines, |ls|, boe);
      assert ls == lines[..|ls|];
    }
  }

  lemma PlainLong(lines: seq<string>, n: nat, boe: bool)
    requires 1 <= n <= |lines| && !IsBlank(lines[0]) && !IsFence(lines[0])
    requires (forall i :: 1 <= i < n ==> !Stops(lines[i], boe)) && (n < |lines| ==> Stops(lines[n], boe))
    ensures OneBlockLong(lines[..n], lines[n..], boe)
  {
    FenceMeans(lines[0]);
    forall i | 1 <= i < n
      ensures !OpensLine(lines[i]) && (boe ==> !IsBlank(lines[i]))
    {
      OpensMeans(lines[i], boe);
    }
    if n < |lines| {
      OpensMeans(lines[n], boe);
    }
  }

  /** The chunk is read from these lines. */
  predicate ReadFrom(c: Chunk, lines: seq<string>) {
    && ChunkLines(c) == lines && lines != [] && Shaped(c)
    && match c
       case Fence(_, _, _) => true
       case Heading(start, _) => IsHeading(start)
       case Plain(body) => !IsFence(lines[0]) && !IsHeading(lines[0])
  }

  predicate AllReadFrom(cs: seq<Chunk>, ps: seq<Piece>) {
    |cs| == |ps| && forall i :: 0 <= i < |cs| ==> ReadFrom(cs[i], ps[i].lines)
  }

  lemma SliceShift<T>(s: seq<T>, n: nat, m: nat)
    requires n <= m < |s|
    ensures s[..n + 1] == [s[0]] + s[1..][..n] && s[n + 1..m + 1] == s[1..][n..m] && s[m + 1..] == s[1..][m..]
  {
  }

  /** One more piece in front. */
  lemma PieceCons(lines: seq<string>, p: Piece, ps: seq<Piece>, boe: bool)
    requires BeginsWith(lines, p, boe) && Pieces(lines[Length(p)..], ps, boe)
    ensures Pieces(lines, [p] + ps, boe)
  {
    assert ([p] + ps)[0] == p && ([p] + ps)[1..] == ps;
  }

  lemma BlankBefore(lines: seq<string>, p: Piece, boe: bool)
    requires lines != [] && IsBlank(lines[0]) && BeginsWith(lines[1..], p, boe)
    ensures BeginsWith(lines, Piece([lines[0]] + p.gap, p.lines), boe)
    ensures lines[1..][Length(p)..] == lines[Length(p) + 1..]
  {
    var n := |p.gap|;
    SliceShift(lines, n, Length(p));
    assert forall i :: 0 <= i < n ==> lines[i + 1] == lines[1..][i];
  }

  lemma GapGrows(lines: seq<string>, ps: seq<Piece>, boe: bool)
    requires lines != [] && IsBlank(lines[0]) && Pieces(lines[1..], ps, boe) && ps != []
    ensures Pieces(lines, [Piece([lines[0]] + ps[0].gap, ps[0].lines)] + ps[1..], boe)
  {
    BlankBefore(lines, ps[0], boe);
    PieceCons(lines, Piece([lines[0]] + ps[0].gap, ps[0].lines), ps[1..], boe);
  }

  lemma ReadCons(c: Chunk, p: Piece, cs: seq<Chunk>, ps: seq<Piece>)
    requires ReadFrom(c, p.lines) && AllReadFrom(cs, ps)
    ensures AllReadFrom([c] + cs, [p] + ps)
  {
  }

  lemma GapReads(cs: seq<Chunk>, ps: seq<Piece>, p: Piece)
    requires AllReadFrom(cs, ps) && ps != [] && p.lines == ps[0].lines
    ensures AllReadFrom(cs, [p] + ps[1..])
  {
  }

  lemma FirstRead(lines: seq<string>, boe: bool)
    requires lines != [] && !IsBlank(lines[0]) && Unbroken(lines)
    ensures ReadFrom(FirstChunk(lines, boe), ChunkLines(FirstChunk(lines, boe)))
  {
    var c := FirstChunk(lines, boe);
    var ls := ChunkLines(c);
    assert forall i :: 0 <= i < |ls| ==> ls[i] == lines[i];
    if IsFence(lines[0]) {
      OpenIsLast(lines, boe);
    }
  }

  /** The pieces of the lines of a text, one for each chunk. */
  lemma {:induction false} PiecesOf(lines: seq<string>, boe: bool) returns (ps: seq<Piece>)
    requires Unbroken(lines)
    ensures Pieces(lines, ps, boe) && AllReadFrom(Chunks(lines, boe), ps)
    decreases |lines|
  {
    if lines == [] {
      ps := [];
    } else if IsBlank(lines[0]) {
      var more := PiecesOf(lines[1..], boe);
      if more == [] {
        ps := [];
        assert forall i :: 1 <= i < |lines| ==> lines[i] == lines[1..][i - 1];
      } else {
        var p := Piece([lines[0]] + more[0].gap, more[0].lines);
        GapGrows(lines, more, boe);
        GapReads(Chunks(lines[1..], boe), more, p);
        ps := [p] + more[1..];
      }
    } else {
      var c := FirstChunk(lines, boe);
      var ls := ChunkLines(c);
      var more := PiecesOf(lines[|ls|..], boe);
      FirstIsLong(lines, boe);
      FirstRead(lines, boe);
      assert lines[..0] == [] && lines[0..|ls|] == ls;
      assert Length(Piece([], ls)) == |ls|;
      PieceCons(lines, Piece([], ls), more, boe);
      ReadCons(c, Piece([], ls), Chunks(lines[|ls|..], boe), more);
      ChunksCons(lines, boe);
      ps := [Piece([], ls)] + more;
    }
  }

  lemma {:induction false} ChunkOf(c: Chunk, lines: seq<string>, b: Block)
    requires ReadFrom(c, lines) && ToBlock(c) == Ok(b)
    ensures LinesOf(lines, b)
  {
    match c {
      case Fence(_, _, _) => FenceOf(c, b);
      case Heading(_, _) => HeadingOf(c, b);
      case Plain(_) => PlainOf(c, b);
    }
  }

  /** The lines are those of the block, which is in error exactly when it is code that ends in a list. */
  ghost predicate BlockOf(lines: seq<string>, b: Block) {
    LinesOf(lines, b) && (b.error <==> EndsInList(b))
  }

  ghost predicate BlocksOf(ps: seq<Piece>, bs: seq<Block>) {
    |ps| == |bs| && forall i :: 0 <= i < |bs| ==> BlockOf(ps[i].lines, bs[i])
  }

  lemma {:induction false} ReadBlocks(cs: seq<Chunk>, ps: seq<Piece>)
    requires AllReadFrom(cs, ps) && ProperChunks(cs) && ToBlocks(cs).Ok?
    ensures BlocksOf(ps, ToBlocks(cs).value)
  {
    var bs := ToBlocks(cs).value;
    BlocksCount(cs);
    forall i | 0 <= i < |bs|
      ensures BlockOf(ps[i].lines, bs[i])
    {
      BlocksAt(cs, i);
      assert ReadFrom(cs[i], ps[i].lines);
      ChunkOf(cs[i], ps[i].lines, bs[i]);
      ChunkEnds(cs[i], bs[i]);
    }
  }

  /**
   The blocks of a text before merging: its lines are those of the blocks one after the other, with only blank
   lines between them; each block has the lines up to the next one that opens a block, to its closing fence, or
   to a blank line that breaks; and its text consists of these lines, up to the list of its first line, blank
   lines at its ends, trailing whitespace, and a closing line that is missing or incomplete.
   */
  lemma {:induction false} BlocksOfText(text: string, boe: bool) returns (ps: seq<Piece>)
    requires SplitBlocks(SplitLines(text), boe).Ok?
    ensures Pieces(SplitLines(text), ps, boe) && BlocksOf(ps, SplitBlocks(SplitLines(text), boe).value)
  {
    var lines := SplitLines(text);
    SplitUnbroken(text);
    ChunksProper(lines, boe);
    ps := PiecesOf(lines, boe);
    ReadBlocks(Chunks(lines, boe), ps);
  }

  /** The same for parsing under any options, with the groups of blocks that are merged. */
  lemma {:induction false} ParsedBlocks(text: string, o: Options)
    returns (ps: seq<Piece>, bs: seq<Block>, parts: seq<seq<Block>>)
    requires ParseText(text, o).Ok?
    ensures Pieces(SplitLines(text), ps, o.breakOnEmptyLine) && BlocksOf(ps, bs)
    ensures Groups(parts, bs) && MergedParts(parts, ParseText(text, o).value, o)
  {
    bs := SplitBlocks(SplitLines(text), o.breakOnEmptyLine).value;
    ps := BlocksOfText(text, o.breakOnEmptyLine);
    parts := FlagsOnlyMerge(bs, o);
  }

  // ----- no line is lost -----

  /** A line that may be taken as the first or the last line of a block. */
  predicate MayBeTaken(line: string) {
    OpensLine(line) || PartOfMarker(line, '`', 3) || PartOfMarker(line, '~', 3)
  }

  /** The text of the block has the line, up to trailing whitespace at its end. */
  ghost predicate HasLine(b: Block, line: string) {
    exists j :: 0 <= j < |SplitLines(b.md)| &&
      (SplitLines(b.md)[j] == line || (j == |SplitLines(b.md)| - 1 && Cut(line, SplitLines(b.md)[j])))
  }

  lemma {:induction false} LineInPiece(lines: seq<string>, ps: seq<Piece>, boe: bool, k: nat)
    returns (i: nat, j: nat)
    requires Pieces(lines, ps, boe) && k < |lines| && !IsBlank(lines[k])
    ensures i < |ps| && j < |ps[i].lines| && ps[i].lines[j] == lines[k]
  {
    var n, m := |ps[0].gap|, Length(ps[0]);
    if k < m {
      i, j := 0, k - n;
      assert lines[n..m][k - n] == lines[k];
    } else {
      i, j := LineInPiece(lines[m..], ps[1..], boe, k - m);
      i := i + 1;
    }
  }

  lemma KeptHas(lines: seq<string>, b: Block, k: nat)
    requires KeptOf(lines, SplitLines(b.md)) && k < |lines| && !IsBlank(lines[k])
    ensures HasLine(b, lines[k])
  {
    var md := SplitLines(b.md);
    var j :| KeptFrom(lines, md, j);
    assert k >= j;
    assert md[k - j] == lines[k] || (k - j == |md| - 1 && Cut(lines[k], md[k - j]));
  }

  lemma MarkerTaken(line: string, c: char, n: nat)
    requires (c == '`' || c == '~') && n >= 3 && line != ""
    requires Begins(line, c, n) || PartOfMarker(line, c, n)
    ensures MayBeTaken(line)
  {
    if !Begins(line, c, n) {
      var k :| 0 < k < n && Begins(line, c, k) && k <= |line| && forall i :: k <= i < |line| ==> IsSpace(line[i]);
      if k < 3 {
        assert PartOfMarker(line, c, 3);
      }
    }
  }

  lemma FenceRun(start: string)
    requires FenceLine(start)
    ensures RunLength(start, start[0]) >= 3
  {
  }

  lemma AtomHas(lines: seq<string>, b: Block, a: Attributes, j: nat)
    requires lines != [] && FenceLine(lines[0]) && FenceLinesOf(lines, b, a) && b.kind == Atom
    requires 0 < j < |lines| && !IsBlank(lines[j]) && !MayBeTaken(lines[j])
    ensures HasLine(b, lines[j])
  {
    var c := lines[0][0];
    var n := RunLength(lines[0], c);
    FenceRun(lines[0]);
    if Closed(lines[1..], c, n) {
      if j == |lines| - 1 {
        MarkerTaken(lines[j], c, n);
        assert false;
      }
      assert lines[1..|lines| - 1][j - 1] == lines[j];
      KeptHas(lines[1..|lines| - 1], b, j - 1);
    } else {
      KeptHas(lines[1..], b, j - 1);
    }
  }

  lemma CodeHas(lines: seq<string>, b: Block, a: Attributes, j: nat)
    requires lines != [] && FenceLine(lines[0]) && FenceLinesOf(lines, b, a) && b.kind == Code
    requires 0 < j < |lines| && !IsBlank(lines[j]) && !MayBeTaken(lines[j])
    ensures HasLine(b, lines[j])
  {
    var c := lines[0][0];
    var n := RunLength(lines[0], c);
    var ls, md := lines[1..], SplitLines(b.md);
    var rest := md[1..];
    var k := |rest| - 1;
    FenceRun(lines[0]);
    if j == |lines| - 1 && (Closed(ls, c, n) || PartOfMarker(ls[|ls| - 1], c, n)) {
      MarkerTaken(lines[j], c, n);
      assert false;
    }
    assert rest[..k][j - 1] == ls[j - 1];
    assert md[j] == rest[j - 1];
  }

  lemma {:induction false} LineInBlock(lines: seq<string>, b: Block, j: nat)
    requires LinesOf(lines, b) && j < |lines| && !IsBlank(lines[j]) && !MayBeTaken(lines[j])
    ensures HasLine(b, lines[j])
  {
    if FenceLine(lines[0]) {
      var a := GetAttributes(lines[0]).value;
      if b.kind == Atom { AtomHas(lines, b, a, j); } else { CodeHas(lines, b, a, j); }
    } else if HashLine(lines[0]) {
      if b.kind == Normal {
        KeptHas(lines[1..], b, j - 1);
      } else {
        var ls := [SplitLines(b.md)[0]] + lines[1..];
        assert ls[j] == lines[j];
        KeptHas(ls, b, j);
      }
    } else {
      KeptHas(lines, b, j);
    }
  }

  /**
   Every nonblank line of a text that is no heading, no fence and no part of one is a line of the text of some
   block, up to trailing whitespace when it is the last one.
   */
  lemma {:induction false} NoLineLost(text: string, boe: bool, k: nat) returns (i: nat)
    requires SplitBlocks(SplitLines(text), boe).Ok?
    requires var lines := SplitLines(text); k < |lines| && !IsBlank(lines[k]) && !MayBeTaken(lines[k])
    ensures var bs := SplitBlocks(SplitLines(text), boe).value;
            i < |bs| && HasLine(bs[i], SplitLines(text)[k])
  {
    var ps := BlocksOfText(text, boe);
    var j;
    i, j := LineInPiece(SplitLines(text), ps, boe, k);
    assert BlockOf(ps[i].lines, SplitBlocks(SplitLines(text), boe).value[i]);
    LineInBlock(ps[i].lines, SplitBlocks(SplitLines(text), boe).value[i], j);
  }
}
