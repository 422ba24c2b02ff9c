/** Code blocks are always closed, and their texts parse back to themselves. */
module CodeBlocks {
  import opened Text
  import opened AttributeList
  import opened DocumentFormat
  import opened Composition

  predicate Unbroken(lines: seq<string>) {
    forall i :: 0 <= i < |lines| ==> NoBreaks(lines[i])
  }

  predicate NoneStarts(lines: seq<string>, marker: string) {
    forall i :: 0 <= i < |lines| ==> !StartsWith(lines[i], marker)
  }

  /** Lines of a closed code block: only the last line repeats the opening marker. */
  predicate CodeShape(lines: seq<string>) {
    && |lines| >= 2
    && IsFence(lines[0]) && Trimmed(lines[0])
    && StartsWith(lines[|lines| - 1], Marker(lines[0]))
    && NoneStarts(lines[1..|lines| - 1], Marker(lines[0]))
  }

  predicate Shaped(c: Chunk) {
    && Unbroken(ChunkLines(c))
    && (c.Fence? ==>
          && IsFence(c.start) && NoneStarts(c.body, Marker(c.start))
          && (c.close.Some? ==> StartsWith(c.close.value, Marker(c.start))))
  }

  lemma {:induction false} ChunksShaped(lines: seq<string>, boe: bool)
    requires Unbroken(lines)
    ensures forall i :: 0 <= i < |Chunks(lines, boe)| ==> Shaped(Chunks(lines, boe)[i])
    decreases |lines|
  {
    if lines != [] {
      if IsBlank(lines[0]) {
        ChunksShaped(lines[1..], boe);
      } else {
        var c := FirstChunk(lines, boe);
        assert forall i :: 0 <= i < |ChunkLines(c)| ==> ChunkLines(c)[i] == lines[i];
        assert Shaped(c);
        ChunksShaped(lines[|ChunkLines(c)|..], boe);
      }
    }
  }

  lemma {:induction false} MarkerIs(line: string, marker: string)
    requires |marker| >= 3 && marker <= line && (marker[0] == '`' || marker[0] == '~')
    requires forall i :: 0 <= i < |marker| ==> marker[i] == marker[0]
    requires |marker| < |line| ==> line[|marker|] != marker[0]
    ensures IsFence(line) && Marker(line) == marker
  {
    assert line[0] == line[1] == line[2] == marker[0];
    assert line[..3] == (if marker[0] == '`' then "```" else "~~~");
    RunLengthIs(line, marker[0], |marker|);
  }

  /** What `rstrip` leaves reaches at least to any character that is not whitespace. */
  lemma {:induction false} RStripKeeps(s: string, k: nat)
    requires 0 < k <= |s| && !IsSpace(s[k - 1])
    ensures |RStrip(s)| >= k
  {
    if IsSpace(s[|s| - 1]) {
      RStripKeeps(s[..|s| - 1], k);
    }
  }

  /** Cutting off an attribute list and stripping keeps the marker of a fence line. */
  lemma {:induction false} FirstLineKeepsMarker(line: string, start: Option<nat>)
    requires IsFence(line)
    requires start.Some? ==> start.value < |line| && line[start.value] == '{'
    ensures IsFence(FirstLine(line, start)) && Marker(FirstLine(line, start)) == Marker(line)
    ensures Trimmed(FirstLine(line, start))
    ensures NoBreaks(line) ==> NoBreaks(FirstLine(line, start))
  {
    var m := Marker(line);
    var cut := if start.Some? then line[..start.value] else line;
    assert |m| <= |cut| && m <= cut;
    RStripSplit(cut);
    var r := RStrip(cut);
    assert cut[|m| - 1] == m[|m| - 1];
    RStripKeeps(cut, |m|);
    assert LStrip(r) == r by { assert r[0] == m[0]; }
    StripTrims(cut);
    MarkerIs(r, m);
  }

  /** Whatever the input leaves open, the completed lines end with the marker and repeat it nowhere else. */
  lemma {:induction false} ClosingShape(body: seq<string>, close: Option<string>, marker: string)
    requires |marker| >= 3 && forall i :: 0 <= i < |marker| ==> marker[i] == marker[0]
    requires NoneStarts(body, marker)
    requires close.Some? ==> StartsWith(close.value, marker)
    ensures var ls := Closing(body, close, marker);
            ls != [] && StartsWith(ls[|ls| - 1], marker) && NoneStarts(ls[..|ls| - 1], marker)
  {
    var ls := Closing(body, close, marker);
    if close.Some? {
      assert ls[..|ls| - 1] == body;
    } else if body != [] {
      var last := body[|body| - 1];
      var n := RunLength(last, marker[0]);
      if (n > 0 || last == "") && |Strip(last)| == n && n <= |marker| {
        var line := Repeat(marker[0], |marker| - n) + last;
        assert line[..|marker|] == marker;
        assert ls[..|ls| - 1] == body[..|body| - 1];
      } else {
        assert ls[..|ls| - 1] == body;
      }
    }
  }

  lemma {:induction false} ClosingUnbroken(body: seq<string>, close: Option<string>, marker: string)
    requires marker != "" && Unbroken(body) && NoBreaks(marker) && (close.Some? ==> NoBreaks(close.value))
    ensures Unbroken(Closing(body, close, marker))
  {
  }

  /** Stripping a joined text only touches its last line when that line is not blank and the first begins with text. */
  lemma {:induction false} StripJoined(lines: seq<string>)
    requires lines != [] && lines[0] != "" && !IsSpace(lines[0][0]) && !IsBlank(lines[|lines| - 1])
    ensures var k := |lines| - 1;
            StripMd(JoinLines(lines)) == JoinLines(lines[..k] + [RStrip(lines[k])])
  {
    RStripJoined(lines);
    var k := |lines| - 1;
    var ls := lines[..k] + [RStrip(lines[k])];
    RStripSplit(lines[k]);
    RStripNotBlank(lines[k]);
    JoinStarts(ls);
    if k > 0 {
      assert ls[0] == lines[0];
    } else {
      assert RStrip(lines[0])[0] == lines[0][0];
    }
  }

  lemma RStripNotBlank(s: string)
    requires !IsBlank(s)
    ensures RStrip(s) != ""
  {
    var i :| 0 <= i < |s| && !IsSpace(s[i]);
    RStripKeeps(s, i + 1);
  }

  lemma JoinStarts(lines: seq<string>)
    requires lines != [] && lines[0] != ""
    ensures JoinLines(lines) != "" && JoinLines(lines)[0] == lines[0][0]
  {
  }

  lemma {:induction false} RStripJoined(lines: seq<string>)
    requires lines != [] && !IsBlank(lines[|lines| - 1])
    ensures var k := |lines| - 1; RStrip(JoinLines(lines)) == JoinLines(lines[..k] + [RStrip(lines[k])])
  {
    var k := |lines| - 1;
    if k == 0 {
      assert lines[..k] + [RStrip(lines[k])] == [RStrip(lines[0])];
    } else {
      assert lines == lines[..k] + [lines[k]];
      JoinAppend(lines[..k], [lines[k]]);
      JoinAppend(lines[..k], [RStrip(lines[k])]);
      RStripAfter(JoinLines(lines[..k]) + "\n", lines[k]);
    }
  }

  lemma {:induction false} BlankTail(tail: seq<string>, boe: bool)
    requires forall i :: 0 <= i < |tail| ==> IsBlank(tail[i])
    ensures Chunks(tail, boe) == []
  {
    if tail != [] {
      BlankTail(tail[1..], boe);
    }
  }

  lemma EndsApart<T>(s: seq<T>, tail: seq<T>)
    requires |s| >= 2
    ensures [s[0]] + s[1..|s| - 1] + [s[|s| - 1]] + tail == s + tail
  {
  }

  lemma HeadApart<T>(s: seq<T>)
    requires s != []
    ensures [s[0]] + s[1..] == s
  {
  }

  /** Closed code lines are one chunk; blank lines after them are dropped. */
  lemma {:induction false} CodeShapeChunk(lines: seq<string>, tail: seq<string>, boe: bool)
    requires CodeShape(lines) && forall i :: 0 <= i < |tail| ==> IsBlank(tail[i])
    ensures var k := |lines| - 1;
            Chunks(lines + tail, boe) == [Fence(lines[0], lines[1..k], Some(lines[k]))]
  {
    FenceChunkOf(lines[0], lines[1..|lines| - 1], lines[|lines| - 1], tail, boe);
    EndsApart(lines, tail);
  }

  lemma {:induction false} FenceChunkOf(start: string, body: seq<string>, close: string, tail: seq<string>, boe: bool)
    requires IsFence(start) && NoneStarts(body, Marker(start)) && StartsWith(close, Marker(start))
    requires forall i :: 0 <= i < |tail| ==> IsBlank(tail[i])
    ensures Chunks([start] + body + [close] + tail, boe) == [Fence(start, body, Some(close))]
  {
    var all := [start] + body + [close] + tail;
    var rest := body + [close] + tail;
    var m := Marker(start);
    StartsBlockNotBlank(start);
    assert all[0] == start && all[1..] == rest;
    BodyLengthIs(rest, m, |body|);
    assert rest[..|body|] == body && rest[|body|] == close;
    var c := Fence(start, body, Some(close));
    assert FirstChunk(all, boe) == c;
    assert all[|ChunkLines(c)|..] == tail;
    BlankTail(tail, boe);
  }

  lemma {:induction false} BodyLengthIs(lines: seq<string>, marker: string, n: nat)
    requires n < |lines| && StartsWith(lines[n], marker) && NoneStarts(lines[..n], marker)
    ensures BodyLength(lines, marker) == n
  {
    var m := BodyLength(lines, marker);
    assert forall i :: 0 <= i < n ==> lines[..n][i] == lines[i];
  }

  // ----- the text of a code block -----

  lemma {:induction false} NewlineFound(s: string, i: nat)
    requires i < |s| && s[i] == '\n'
    ensures LastNewline(s) >= i
  {
  }

  /** Shape of the lines that make up a code block before stripping. */
  lemma {:induction false} BlockLinesShape(c: Chunk, start: Option<nat>)
    requires Shaped(c) && c.Fence?
    requires start.Some? ==> start.value < |c.start| && c.start[start.value] == '{'
    ensures var ls := [FirstLine(c.start, start)] + Closing(c.body, c.close, Marker(c.start));
            CodeShape(ls) && Unbroken(ls) && Marker(ls[0]) == Marker(c.start)
  {
    var m := Marker(c.start);
    var first, more := FirstLine(c.start, start), Closing(c.body, c.close, m);
    var ls := [first] + more;
    FenceUnbroken(c);
    FirstLineKeepsMarker(c.start, start);
    ClosingShape(c.body, c.close, m);
    ClosingUnbroken(c.body, c.close, m);
    ConsEnds(first, more);
  }

  lemma ConsEnds<T>(x: T, more: seq<T>)
    requires more != []
    ensures var s := [x] + more;
            s[0] == x && s[1..|s| - 1] == more[..|more| - 1] && s[|s| - 1] == more[|more| - 1]
  {
  }

  lemma FenceUnbroken(c: Chunk)
    requires c.Fence? && IsFence(c.start) && Unbroken(ChunkLines(c))
    ensures Unbroken(c.body) && (c.close.Some? ==> NoBreaks(c.close.value))
    ensures NoBreaks(c.start) && NoBreaks(Marker(c.start))
  {
    var ls := ChunkLines(c);
    assert ls[0] == c.start;
    assert forall i :: 0 <= i < |c.body| ==> ls[i + 1] == c.body[i];
    if c.close.Some? {
      assert ls[|ls| - 1] == c.close.value;
    }
  }

  /** Shortening the last line keeps the shape as long as the marker remains. */
  lemma ShapeWithLast(ls: seq<string>, last: string)
    requires CodeShape(ls) && StartsWith(last, Marker(ls[0]))
    ensures CodeShape(ls[..|ls| - 1] + [last])
  {
    var kept := ls[..|ls| - 1] + [last];
    assert kept[0] == ls[0] && kept[1..|kept| - 1] == ls[1..|ls| - 1];
  }

  lemma LastKeepsMarker(line: string, marker: string)
    requires marker != "" && StartsWith(line, marker) && !IsSpace(marker[|marker| - 1])
    ensures StartsWith(RStrip(line), marker) && RStrip(line) != "" && !IsBlank(line)
    ensures RStrip(RStrip(line)) == RStrip(line)
    ensures NoBreaks(line) ==> NoBreaks(RStrip(line))
  {
    assert line[|marker| - 1] == marker[|marker| - 1];
    RStripKeeps(line, |marker|);
    RStripSplit(line);
  }

  /** A stripped text made of closed code lines is still made of closed code lines. */
  lemma {:induction false} StrippedShape(ls: seq<string>)
    requires CodeShape(ls) && Unbroken(ls)
    ensures var md := StripMd(JoinLines(ls)); var kept := SplitLines(md);
            CodeShape(kept) && kept[0] == ls[0] && JoinLines(kept) == md && StripMd(md) == md
  {
    var k := |ls| - 1;
    var last := RStrip(ls[k]);
    var kept := ls[..k] + [last];
    LastKeepsMarker(ls[k], Marker(ls[0]));
    StripJoined(ls);
    ShapeWithLast(ls, last);
    assert kept[0] == ls[0] && kept[k] == last && kept[..k] == ls[..k];
    LastKeepsMarker(last, Marker(ls[0]));
    StripJoined(kept);
    JoinedShape(kept);
  }

  lemma JoinedShape(kept: seq<string>)
    requires CodeShape(kept) && Unbroken(kept)
    ensures SplitLines(JoinLines(kept)) == kept
  {
    assert forall l :: l in kept ==> NoBreaks(l);
    SplitJoined(kept);
  }

  /** The text of a code block always contains a newline, so looking for its last line never fails. */
  lemma {:induction false} EndNeverMissing(ls: seq<string>)
    requires CodeShape(ls)
    ensures EndIsClean(JoinLines(ls)) != Raised(ValueError)
  {
    var md := JoinLines(ls);
    assert md == ls[0] + "\n" + JoinLines(ls[1..]);
    assert md[|ls[0]|] == '\n';
    NewlineFound(md, |ls[0]|);
  }

  /** What one chunk becomes when it is a code block. */
  lemma {:induction false} CodeChunkClosed(c: Chunk)
    requires Shaped(c)
    ensures ToBlock(c) != Raised(ValueError)
    ensures ToBlock(c).Ok? && ToBlock(c).value.kind == Code ==>
              var md := ToBlock(c).value.md;
              CodeShape(SplitLines(md)) && JoinLines(SplitLines(md)) == md && StripMd(md) == md
  {
    if c.Fence? && GetAttributes(c.start).Ok? {
      var a := GetAttributes(c.start).value;
      if !IsSet(a.tokens, "atom") {
        var ls := [FirstLine(c.start, a.start)] + Closing(c.body, c.close, Marker(c.start));
        BlockLinesShape(c, a.start);
        StrippedShape(ls);
        EndNeverMissing(SplitLines(StripMd(JoinLines(ls))));
      }
    }
  }

  lemma {:induction false} ChunksClosed(cs: seq<Chunk>)
    requires ProperChunks(cs) && forall i :: 0 <= i < |cs| ==> Shaped(cs[i])
    ensures ToBlocks(cs) != Raised(ValueError)
    ensures ToBlocks(cs).Ok? ==>
              forall i :: 0 <= i < |ToBlocks(cs).value| && ToBlocks(cs).value[i].kind == Code ==>
                var md := ToBlocks(cs).value[i].md;
                CodeShape(SplitLines(md)) && JoinLines(SplitLines(md)) == md && StripMd(md) == md
  {
    if cs != [] {
      CodeChunkClosed(cs[0]);
      ChunksClosed(cs[1..]);
    }
  }

  /**
   Code blocks are always closed. Every code block parsed from any text, unterminated or half
   terminated input included, has at least two lines; its last line starts with its opening marker
   and no interior line does.
   */
  lemma {:induction false} CodeBlocksClosed(text: string, boe: bool)
    ensures SplitBlocks(SplitLines(text), boe) != Raised(ValueError)
    ensures var r := SplitBlocks(SplitLines(text), boe);
            r.Ok? ==> forall i :: 0 <= i < |r.value| && r.value[i].kind == Code ==>
              var md := r.value[i].md;
              CodeShape(SplitLines(md)) && JoinLines(SplitLines(md)) == md && StripMd(md) == md
  {
    SplitHasNoBreaks(text);
    ChunksShaped(SplitLines(text), boe);
    ChunksProper(SplitLines(text), boe);
    ChunksClosed(Chunks(SplitLines(text), boe));
  }

  // ----- parsing the text of a code block again -----

  /** No brace of the line opens an attribute list. */
  predicate ClearLine(line: string) {
    GetAttributes(line).Ok? && GetAttributes(line).value.start.None?
  }

  lemma {:induction false} ShorterFirst(f: string, g: string, rest: seq<string>)
    requires rest != [] && |f| < |g|
    ensures |StripMd(JoinLines([f] + rest))| < |JoinLines([g] + rest)|
  {
    JoinCons(f, rest);
    JoinCons(g, rest);
    StripMdShortens(JoinLines([f] + rest));
  }

  lemma {:induction false} StripMdShortens(s: string)
    ensures |StripMd(s)| <= |s|
  {
    RStripSplit(s);
    LStripNewlinesShortens(RStrip(s));
  }

  lemma {:induction false} LStripNewlinesShortens(s: string)
    ensures |LStripNewlines(s)| <= |s|
  {
    if s != "" && (s[0] == '\n' || s[0] == '\r') {
      LStripNewlinesShortens(s[1..]);
    }
  }

  lemma {:induction false} FirstLineShorter(line: string, start: nat)
    requires start < |line|
    ensures |FirstLine(line, Some(start))| < |line|
  {
    RStripSplit(line[..start]);
    StripShortens(line[..start]);
  }

  lemma {:induction false} StripShortens(s: string)
    ensures |Strip(s)| <= |s|
  {
    RStripSplit(s);
    LStripTrims(RStrip(s));
  }

  lemma {:induction false} StripTrimmed(s: string)
    requires Trimmed(s)
    ensures Strip(s) == s
  {
  }

  /** Closed code lines parse to one block unless their first line raises. */
  lemma {:induction false} CodeShapeParses(ls: seq<string>, boe: bool)
    requires CodeShape(ls)
    ensures var c := Fence(ls[0], ls[1..|ls| - 1], Some(ls[|ls| - 1]));
            SplitBlocks(ls, boe) ==
            match ToBlock(c) case Raised(e) => Raised(e) case Ok(b) => Ok([b])
  {
    var c := Fence(ls[0], ls[1..|ls| - 1], Some(ls[|ls| - 1]));
    assert ls + [] == ls;
    CodeShapeChunk(ls, [], boe);
    OneBlock(c);
    ChunksProper(ls, boe);
  }

  lemma OneBlock(c: Chunk)
    requires ProperChunk(c)
    ensures ToBlocks([c]) == match ToBlock(c) case Raised(e) => Raised(e) case Ok(b) => Ok([b])
  {
    assert [c][1..] == [];
    if ToBlock(c).Ok? {
      assert [ToBlock(c).value] + [] == [ToBlock(c).value];
    }
  }

  lemma {:induction false} CodeShapeText(ls: seq<string>, a: Attributes)
    requires CodeShape(ls) && GetAttributes(ls[0]) == Ok(a) && !IsSet(a.tokens, "atom")
    ensures var c := Fence(ls[0], ls[1..|ls| - 1], Some(ls[|ls| - 1]));
            BlockText(c, a) == JoinLines([FirstLine(ls[0], a.start)] + ls[1..])
  {
    assert ls[1..|ls| - 1] + [ls[|ls| - 1]] == ls[1..];
  }

  /** The text read from closed code lines is theirs unless an attribute list was cut off the first line. */
  lemma {:induction false} CodeTextStable(ls: seq<string>, a: Attributes)
    requires CodeShape(ls) && StripMd(JoinLines(ls)) == JoinLines(ls)
    requires GetAttributes(ls[0]) == Ok(a) && !IsSet(a.tokens, "atom")
    ensures var c := Fence(ls[0], ls[1..|ls| - 1], Some(ls[|ls| - 1]));
            StripMd(BlockText(c, a)) == JoinLines(ls) <==> a.start.None?
  {
    CodeShapeText(ls, a);
    HeadApart(ls);
    if a.start.Some? {
      FirstLineShorter(ls[0], a.start.value);
      ShorterFirst(FirstLine(ls[0], a.start), ls[0], ls[1..]);
    } else {
      StripTrimmed(ls[0]);
    }
  }

  /**
   Parsing the text of a code block again gives one code block with the same text if and only if
   its first line opens no attribute list.
   */
  lemma {:induction false} CodeBlockStable(ls: seq<string>, boe: bool)
    requires CodeShape(ls) && StripMd(JoinLines(ls)) == JoinLines(ls)
    requires EndIsClean(JoinLines(ls)).Ok?
    ensures var r := SplitBlocks(ls, boe);
            (r.Ok? && |r.value| == 1 && r.value[0].kind == Code && r.value[0].md == JoinLines(ls))
            <==> ClearLine(ls[0])
  {
    CodeShapeParses(ls, boe);
    if GetAttributes(ls[0]).Ok? {
      var a := GetAttributes(ls[0]).value;
      if !IsSet(a.tokens, "atom") {
        CodeTextStable(ls, a);
      } else {
        assert "atom" !in CodeInfo(ls[0]);
      }
    }
  }
}
