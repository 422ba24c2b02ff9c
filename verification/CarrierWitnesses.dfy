/** Lines that a printed attribute list is not told apart from: where the conditions on carrier lines fail. */
module CarrierWitnesses {
  import opened Text
  import opened AttributeList
  import opened AttributePrinting
  import opened AttributeErrors
  import opened DocumentFormat
  import opened Composition
  import opened CodeBlocks
  import opened AtomFences

  // ----- a brace in front of the list -----

  /** A class behind a brace takes the printed list into its own. */
  lemma ClassTakesList(name: string, list: string, t: Tokens)
    requires PlainName(name) && Scan(list, map["classes" := Names([name])]) == Found(t)
    ensures Scan("." + name + (" " + list), map[]) == Found(t)
  {
    var classes := map["classes" := Names([name])];
    ScanClass([], name, " " + list, map[]);
    ScanSkips(list, classes);
    assert [] + [name] == [name];
  }

  lemma NoBraceBefore(first: string, list: string)
    requires forall i :: 0 <= i < |first| ==> first[i] != '{'
    ensures NoListBefore(first + " {" + list, |first|)
  {
    assert forall i :: 0 <= i < |first| ==> (first + " {" + list)[i] == first[i];
  }

  /** A list behind the first brace of a line is the one that is read. */
  lemma FirstBraceOpens(list: string, t: Tokens)
    requires Scan(list, map[]) == Found(t)
    ensures GetAttributes("#" + " {" + list) == Ok(Attributes(t, Some(2)))
  {
    NoBraceBefore("#", list);
    LineKept("#" + " {" + list, "#", list, t);
  }

  /** The header `# {.a` cannot carry a list: whatever attribute it is given, the first brace opens the list. */
  lemma CarrierHides(k: string, v: string)
    requires PlainKey(k)
    ensures var first := "# {.a"; var line := first + " {" + (Assignment(k, v) + "}");
            var t: Tokens := map["classes" := Names(["a"]), "{" + k := Str(v)];
            && GetAttributes(line) == Ok(Attributes(t, Some(2)))
            && !NoListBefore(line, |first|)
  {
    var key, t := "{" + k, map["classes" := Names(["a"])];
    var list := Assignment(key, v) + "}";
    PairScanned(key, v, t);
    ClassTakesList("a", list, t[key := Str(v)]);
    FirstBraceOpens("." + "a" + (" " + list), t[key := Str(v)]);
    BraceInKey(k, v);
    OpensEarly("#", "." + "a" + (" " + list), t[key := Str(v)], 5);
  }

  lemma BraceInKey(k: string, v: string)
    ensures "# {.a" + " {" + (Assignment(k, v) + "}") ==
            "#" + " {" + ("." + "a" + (" " + (Assignment("{" + k, v) + "}")))
  {
    assert Assignment("{" + k, v) == "{" + Assignment(k, v);
    assert "# {.a" + " {" == "#" + " {" + ("." + "a" + (" " + "{"));
  }

  lemma OpensEarly(first: string, list: string, t: Tokens, n: nat)
    requires Scan(list, map[]) == Found(t) && |first| + 1 < n <= |first + " {" + list|
    ensures !NoListBefore(first + " {" + list, n)
  {
    var line, i := first + " {" + list, |first| + 1;
    assert line[i] == '{' && line[i + 1..] == list;
  }

  // ----- a list in front of the list -----

  const LISTED := "``` {x=1}"
  const TWICE := "``` {x=1} {a=\"b\"}"

  lemma UnquotedCloses(rest: string)
    ensures KeyValue("x=1" + ("}" + rest)) == Pair("x", "1", "}" + rest)
  {
    var r := "x=1" + ("}" + rest);
    KeyLengthIs(r, 1);
    var v := "1" + ("}" + rest);
    assert r[2..] == v && r[..1] == "x";
    TokenLengthIs(v, 1);
    assert v[..1] == "1" && v[1..] == "}" + rest;
  }

  lemma XReads(rest: string)
    ensures Scan("x=1" + ("}" + rest), map[]) ==
            if SkipSpaces(rest) == "" then Found(map["x" := Str("1")]) else NoList
  {
    var r := "x=1" + ("}" + rest);
    UnquotedCloses(rest);
    assert r[0] == 'x' && Marked(r, '#') == (None, r) && Marked(r, '.') == (None, r);
    ScanFirst(r, map[]);
    assert ("}" + rest)[1..] == rest;
  }

  lemma ListedOpens()
    ensures !ClearLine(LISTED)
  {
    XReads("");
    ListedTail();
    ListedBrace();
    FirstListSkips(LISTED, 0, 4);
    ListHere(LISTED, 4);
  }

  lemma ListedTail()
    ensures LISTED[4] == '{' && LISTED[5..] == "x=1" + ("}" + "")
  {
  }

  /** A list behind a text that hides none: the line is cut where it was put together. */
  lemma LineKept(line: string, first: string, list: string, t: Tokens)
    requires line == first + " {" + list && first != "" && Trimmed(first) && CodeInfo(first) == map[]
    requires Scan(list, map[]) == Found(t) && NoListBefore(line, |first|)
    ensures GetAttributes(line) == Ok(Attributes(t, Some(|first| + 1)))
    ensures FirstLine(line, Some(|first| + 1)) == first
  {
    LineWithList(first, list, t);
    assert t + map[] == t;
    CutBack(line, first, list);
  }

  lemma CutBack(line: string, first: string, list: string)
    requires line == first + " {" + list && Trimmed(first)
    ensures FirstLine(line, Some(|first| + 1)) == first
  {
    assert line[..|first| + 1] == "" + first + " ";
    StripPadded("", first, " ");
  }

  lemma {:induction false} TwiceReads()
    ensures GetAttributes(TWICE) == Ok(Attributes(map["a" := Str("b")], Some(|LISTED| + 1)))
    ensures FirstLine(TWICE, Some(|LISTED| + 1)) == LISTED
  {
    TwiceParts();
    PairScanned("a", "b", map[]);
    ListedHides();
    NoLanguage();
    LineKept(TWICE, LISTED, Assignment("a", "b") + "}", map["a" := Str("b")]);
  }

  lemma TwiceParts()
    ensures LISTED + " {" + (Assignment("a", "b") + "}") == TWICE
  {
    assert "b"[1..] == "" && Escape("b") == "b" + "";
  }

  /** The first list does not reach the end of the line. */
  lemma ListedHides()
    ensures NoListBefore(TWICE, |LISTED|)
  {
    TwiceTail();
    MoreBehind(TWICE[5..], "{a=\"b\"}");
    ListedBrace();
    OneBrace(TWICE, 4, |LISTED|);
  }

  lemma ListedBrace()
    ensures |LISTED| == 9 && LISTED == TWICE[..9] && forall k :: 0 <= k < 9 && TWICE[k] == '{' ==> k == 4
  {
    assert TWICE[0] == '`' && TWICE[1] == '`' && TWICE[2] == '`' && TWICE[3] == ' ';
    assert TWICE[5] == 'x' && TWICE[6] == '=' && TWICE[7] == '1' && TWICE[8] == '}';
  }

  lemma MoreBehind(r: string, more: string)
    requires r == "x=1" + ("}" + (" " + more)) && more != "" && more[0] != ' '
    ensures Scan(r, map[]) == NoList
  {
    XReads(" " + more);
    SpaceSkipped(more);
  }

  lemma SpaceSkipped(more: string)
    requires more != "" && more[0] != ' '
    ensures SkipSpaces(" " + more) != ""
  {
    assert (" " + more)[1..] == more;
  }

  lemma TwiceTail()
    ensures TWICE[5..] == "x=1" + ("}" + (" " + "{a=\"b\"}"))
  {
  }

  lemma OneBrace(line: string, i: nat, n: nat)
    requires i < n <= |line| && Scan(line[i + 1..], map[]) == NoList
    requires forall k :: 0 <= k < n && line[k] == '{' ==> k == i
    ensures NoListBefore(line, n)
  {
  }

  lemma NoLanguage()
    ensures CodeInfo(LISTED) == map[]
  {
    RunLengthIs(LISTED, '`', 3);
    assert LISTED[3..] == " {x=1}" && LISTED[3..][1..] == "{x=1}";
    assert SkipSpaces(LISTED[3..]) == SkipSpaces("{x=1}") == "{x=1}";
  }

  lemma ListedShape()
    ensures CodeShape([LISTED, "```"]) && IsFence(TWICE) && Marker(TWICE) == "```"
  {
    MarkerIs(LISTED, "```");
    MarkerIs(TWICE, "```");
    assert [LISTED, "```"][1..1] == [];
  }

  lemma ListedJoined()
    ensures JoinLines([LISTED, "```"]) == LISTED + "\n" + "```"
    ensures JoinLines([TWICE, "```"]) == TWICE + "\n" + "```"
  {
    assert [LISTED, "```"][1..] == ["```"] && [TWICE, "```"][1..] == ["```"];
  }

  /** The text of a code block whose first line is a list and whose last line has no attributes. */
  lemma {:induction false} ListedEnds()
    ensures var md := JoinLines([LISTED, "```"]); StripMd(md) == md && EndIsClean(md) == Ok(true)
  {
    var md := LISTED + "\n" + "```";
    ListedJoined();
    Plainly("```");
    NewlineFound(md, |LISTED|);
    assert LastNewline(md) == |LISTED| && md[|LISTED| + 1..] == "```";
  }

  lemma TwiceUnbroken()
    ensures NoBreaks(TWICE) && NoBreaks(LISTED) && NoBreaks("```")
  {
    assert LISTED == TWICE[..9] && "```" == TWICE[..3];
  }

  /** The block of a fence whose first line is cut, without lines inside. */
  lemma EmptyCode(start: string, a: Attributes, first: string, close: string)
    requires IsFence(start) && StartsWith(close, Marker(start)) && GetAttributes(start) == Ok(a)
    requires !IsSet(a.tokens, "atom") && "id" !in a.tokens && "t" !in a.tokens
    requires FirstLine(start, a.start) == first
    requires var md := JoinLines([first, close]); StripMd(md) == md && EndIsClean(md) == Ok(true)
    ensures ToBlock(Fence(start, [], Some(close))) ==
            Ok(Block(JoinLines([first, close]), Code, None, None, a.tokens, false))
  {
    assert a.tokens - {"id", "t"} == a.tokens;
    assert [first] + [close] == [first, close] && [] + [close] == [close];
  }

  lemma {:induction false} EmptyParses(start: string, a: Attributes, first: string, close: string)
    requires IsFence(start) && StartsWith(close, Marker(start)) && GetAttributes(start) == Ok(a)
    requires !IsSet(a.tokens, "atom") && "id" !in a.tokens && "t" !in a.tokens
    requires FirstLine(start, a.start) == first
    requires var md := JoinLines([first, close]); StripMd(md) == md && EndIsClean(md) == Ok(true)
    ensures SplitBlocks([start, close], false) ==
            Ok([Block(JoinLines([first, close]), Code, None, None, a.tokens, false)])
  {
    FenceChunkOf(start, [], close, [], false);
    assert [start] + [] + [close] + [] == [start, close];
    EmptyCode(start, a, first, close);
    OneBlock(Fence(start, [], Some(close)));
    ChunksProper([start, close], false);
  }

  lemma {:induction false} TwiceParses()
    ensures SplitBlocks([TWICE, "```"], false) ==
            Ok([Block(JoinLines([LISTED, "```"]), Code, None, None, map["a" := Str("b")], false)])
  {
    ListedShape();
    TwiceReads();
    ListedEnds();
    EmptyParses(TWICE, Attributes(map["a" := Str("b")], Some(|LISTED| + 1)), LISTED, "```");
  }

  /**
   The code block of this text keeps a first line that is a list once the other list is cut off, so its text is
   not parsed to it again.
   */
  lemma {:induction false} ListedCodeChanges()
    ensures var r := ParseText(JoinLines([TWICE, "```"]), WHOLE_DOCUMENT);
            && r.Ok? && |r.value| == 1 && r.value[0].kind == Code
            && var again := ParseText(r.value[0].md, WHOLE_DOCUMENT);
               again.Ok? && |again.value| == 1 && again.value[0].kind == Code ==> again.value[0].md != r.value[0].md
  {
    var text, md := JoinLines([TWICE, "```"]), JoinLines([LISTED, "```"]);
    TwiceParses();
    TwiceUnbroken();
    SplitJoined([TWICE, "```"]);
    SplitJoined([LISTED, "```"]);
    WholeIsSplit(text);
    WholeIsSplit(md);
    ListedShape();
    ListedEnds();
    ListedOpens();
    CodeBlockStable([LISTED, "```"], false);
  }
}
