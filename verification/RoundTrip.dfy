/** Parsing what the writer wrote gives the paragraphs back. */
module RoundTrip {
  import opened Text
  import opened AttributeList
  import opened AttributePrinting
  import opened DocumentFormat
  import opened DocumentWriting
  import opened Composition
  import opened CodeBlocks
  import opened ParagraphAttributes

  /** The attributes the writer leaves out by default; ids and hashes may or may not be among them. */
  predicate WriterIgnores(ignored: set<string>) {
    && "md" in ignored && "code_lang" in ignored
    && "attrs" !in ignored && "atom" !in ignored && "taskId" !in ignored && "classes" !in ignored
  }

  lemma WritersIgnore(exportHashes: bool, exportIds: bool)
    ensures WriterIgnores(Ignored(exportHashes, exportIds))
  {
  }

  // ----- the shapes of a paragraph's text -----

  predicate PlainShape(lines: seq<string>) {
    forall i :: 0 <= i < |lines| ==> !Stops(lines[i], false)
  }

  predicate HeaderShape(lines: seq<string>) {
    lines != [] && IsHeading(lines[0]) && !StartsWith(lines[0], "#-") && Trimmed(lines[0]) &&
    PlainShape(lines[1..])
  }

  predicate AllBlank(lines: seq<string>) {
    forall i :: 0 <= i < |lines| ==> IsBlank(lines[i])
  }

  /** A text as the parser leaves it. */
  predicate CleanMd(md: string) {
    OnlyNewlines(md) && StripMd(md) == md
  }

  lemma {:induction false} PlainLengthIs(lines: seq<string>)
    requires PlainShape(lines)
    ensures PlainLength(lines, false) == |lines|
  {
    var n := PlainLength(lines, false);
    assert n < |lines| ==> Stops(lines[n], false);
  }

  lemma {:induction false} HeadingChunk(start: string, body: seq<string>)
    requires IsHeading(start) && PlainShape(body)
    ensures Chunks([start] + body, false) == [Heading(start, body)]
  {
    var all := [start] + body;
    StartsBlockNotBlank(start);
    assert all[0] == start && all[1..] == body;
    PlainLengthIs(body);
    assert body[..|body|] == body;
    assert !IsFence(start) by { assert start[0] == '#'; }
    assert FirstChunk(all, false) == Heading(start, body);
    assert all[|all|..] == [];
  }

  /** Plain lines are at most one chunk. */
  lemma {:induction false} PlainChunks(lines: seq<string>)
    requires PlainShape(lines)
    ensures Chunks(lines, false) == [] ||
            exists body :: Chunks(lines, false) == [Plain(body)]
  {
    if lines != [] {
      if IsBlank(lines[0]) {
        PlainChunks(lines[1..]);
      } else {
        PlainLengthIs(lines);
        assert lines[..|lines|] == lines;
        assert FirstChunk(lines, false) == Plain(lines);
        assert lines[|lines|..] == [];
        assert Chunks(lines, false) == [Plain(lines)];
      }
    }
  }

  lemma BlankIsPlain(tail: seq<string>)
    requires AllBlank(tail)
    ensures PlainShape(tail)
  {
    forall i | 0 <= i < |tail|
      ensures !Stops(tail[i], false)
    {
      if StartsBlock(tail[i]) { StartsBlockNotBlank(tail[i]); }
    }
  }

  lemma PlainAppend(a: seq<string>, b: seq<string>)
    requires PlainShape(a) && PlainShape(b)
    ensures PlainShape(a + b)
  {
  }

  // ----- stripping -----

  predicate AllNewlines(s: string) {
    forall i :: 0 <= i < |s| ==> s[i] == '\n'
  }

  /** Newlines after a stripped text are stripped again. */
  lemma StripMdAppend(md: string, w: string)
    requires StripMd(md) == md && AllNewlines(w)
    ensures StripMd(md + w) == md
  {
    RStripAppend(md, w);
  }

  /** Empty lines after some lines only add newlines to the joined text. */
  lemma {:induction false} JoinEmpty(lines: seq<string>, tail: seq<string>) returns (w: string)
    requires forall i :: 0 <= i < |tail| ==> tail[i] == ""
    ensures AllNewlines(w) && JoinLines(lines + tail) == JoinLines(lines) + w
  {
    if tail == [] {
      assert lines + tail == lines;
      w := "";
    } else if lines == [] {
      assert lines + tail == tail;
      w := JoinLines(tail);
      JoinedEmpty(tail);
    } else {
      JoinAppend(lines, tail);
      JoinedEmpty(tail);
      w := "\n" + JoinLines(tail);
      Assoc(JoinLines(lines), "\n", JoinLines(tail));
    }
  }

  lemma {:induction false} JoinedEmpty(tail: seq<string>)
    requires forall i :: 0 <= i < |tail| ==> tail[i] == ""
    ensures AllNewlines(JoinLines(tail))
  {
    if |tail| > 1 {
      JoinedEmpty(tail[1..]);
    }
  }

  // ----- well-formed paragraphs -----

  /** The first line can carry an attribute list: no brace of it opens a list of its own. */
  predicate CanCarry(first: string, attrs: string) {
    ClearLine(first) && (attrs == "" || NoListBefore(CarrierText(first, attrs), |first|))
  }

  function FenceOf(blocks: seq<Block>): string {
    Repeat('`', LongestFence(blocks) + 1)
  }

  /** The text has several blocks and none of its lines would close the fence around it. */
  predicate AtomShape(md: string) {
    var r := ParseText(md, WHOLE_DOCUMENT);
    r.Ok? && |r.value| > 1 && NoneStarts(SplitLines(md), FenceOf(r.value))
  }

  /** A paragraph that survives export: what a caller can check before writing it. */
  predicate GoodPar(p: Par, ignored: set<string>) {
    && GoodAttrs(p, ignored)
    && CleanMd(p.md)
    && var lines := SplitLines(p.md);
       var attrs := AttrText(p, ignored, false);
       if PlainShape(lines) then LanguageIs(p, ignored, "") && attrs != ""
       else if HeaderShape(lines) then LanguageIs(p, ignored, "") && CanCarry(lines[0], attrs)
       else if CodeShape(lines) then
         && LanguageIs(p, ignored, Language(lines[0])) && CanCarry(lines[0], attrs)
         && EndIsClean(p.md).Ok? && !IsSet(AsMap(p.attrs), "atom")
       else LanguageIs(p, ignored, "") && AtomShape(p.md) && GoodFor(p, ignored, true)
  }

  /** The block is the paragraph. */
  predicate Matches(b: Block, p: Par, ignored: set<string>) {
    && b.md == p.md
    && b.attrs == AsMap(p.attrs)
    && b.id == (if "id" in ignored then None else Some(Str(p.id)))
    && b.t == (if "t" in ignored then None else Some(Str(p.t)))
  }

  /** The lines that the writer produces for a paragraph. */
  function ParLines(p: Par, ignored: set<string>): seq<string>
    requires WellTyped(p)
  {
    var lines := SplitLines(p.md);
    var attrs := AttrText(p, ignored, false);
    if PlainShape(lines) then (if attrs == "" then lines else [CarrierText("#-", attrs)] + lines)
    else if HeaderShape(lines) || CodeShape(lines) then
      [WithList(lines[0], attrs)] + lines[1..]
    else
      var r := ParseText(p.md, WHOLE_DOCUMENT);
      var fence := FenceOf(if r.Ok? then r.value else []);
      [CarrierText(fence, AttrText(p, ignored, true))] + lines + [fence]
  }

  /** A first line with its attribute list, if there is any. */
  function WithList(line: string, attrs: string): string {
    if attrs == "" then line else CarrierText(line, attrs)
  }

  function CarrierText(first: string, attrs: string): string {
    first + " {" + attrs + "}"
  }

  /** The attributes read from a carrier line. */
  lemma {:induction false} CarrierRead(first: string, p: Par, ignored: set<string>, atom: bool)
    requires first != "" && Trimmed(first)
    requires GoodFor(p, ignored, atom) && WriterIgnores(ignored)
    requires NoListBefore(CarrierText(first, AttrText(p, ignored, atom)), |first|)
    ensures GetAttributes(CarrierText(first, AttrText(p, ignored, atom))) ==
            Ok(Attributes(AsMap(ParEntries(p, ignored, atom)) + CodeInfo(first), Some(|first| + 1)))
  {
    var d := ParEntries(p, ignored, atom);
    ParEntriesGood(p, ignored, atom);
    ExportedAll(d, ignored);
    GoodStays(p, ignored);
    FlatText(p, ignored, atom);
    CarrierLine(first, d, ignored);
  }

  lemma CarrierFirst(first: string, attrs: string)
    requires Trimmed(first)
    ensures FirstLine(CarrierText(first, attrs), Some(|first| + 1)) == first
  {
    assert CarrierText(first, attrs)[..|first| + 1] == "" + first + " ";
    StripPadded("", first, " ");
  }

  lemma NoBraceNoList(first: string, attrs: string)
    requires forall i :: 0 <= i < |first| ==> first[i] != '{'
    ensures NoListBefore(CarrierText(first, attrs), |first|)
  {
    assert forall i :: 0 <= i < |first| ==> CarrierText(first, attrs)[i] == first[i];
  }

  /** The line break characters of a written paragraph are the ones between its lines. */
  lemma {:induction false} AttrTextUnbroken(p: Par, ignored: set<string>, atom: bool)
    requires GoodFor(p, ignored, atom) && WriterIgnores(ignored)
    ensures NoBreaks(AttrText(p, ignored, atom))
  {
    var d := ParEntries(p, ignored, atom);
    ParEntriesGood(p, ignored, atom);
    ExportedAll(d, ignored);
    GoodStays(p, ignored);
    FlatText(p, ignored, atom);
    EntriesSolid(d, ignored);
    JoinedUnbroken(EntryTexts(d, ignored));
  }

  lemma {:induction false} JoinedUnbroken(items: seq<string>)
    requires forall i :: 0 <= i < |items| ==> NoBreaks(items[i])
    ensures NoBreaks(Joined(items))
  {
    if |items| > 1 {
      JoinedUnbroken(items[1..]);
    }
  }

  // ----- each carrier -----

  /** What the parser makes of the lines of one paragraph, blank lines after them included. */
  predicate ParsesBack(lines: seq<string>, p: Par, ignored: set<string>) {
    var cs := Chunks(lines, false);
    |cs| == 1 && AllClosed(cs) && ProperChunk(cs[0]) &&
    ToBlock(cs[0]).Ok? && Matches(ToBlock(cs[0]).value, p, ignored)
  }

  /** The chunk is read as the paragraph. */
  predicate ChunkMatches(c: Chunk, p: Par, ignored: set<string>) {
    ProperChunk(c) && ToBlock(c).Ok? && Matches(ToBlock(c).value, p, ignored)
  }

  /** Tokens that give the attributes, the id and the hash of the paragraph. */
  predicate TokensMatch(t: Tokens, p: Par, ignored: set<string>) {
    && t - {"id", "t"} == AsMap(p.attrs)
    && Get(t, "id") == (if "id" in ignored then None else Some(Str(p.id)))
    && Get(t, "t") == (if "t" in ignored then None else Some(Str(p.t)))
  }

  lemma {:induction false} TokensRead(p: Par, ignored: set<string>, lang: string)
    requires GoodAttrs(p, ignored) && WriterIgnores(ignored) && LanguageIs(p, ignored, lang)
    ensures var m := AsMap(ParEntries(p, ignored, false)) + LanguageInfo(lang);
            TokensMatch(m, p, ignored)
  {
    BuiltinValues(p, ignored, false);
    ReadKeys(p, ignored, false, "id");
    ReadKeys(p, ignored, false, "t");
    AttributesReadBack(p, ignored, false, lang);
  }

  lemma AtomKept(t: Tokens, p: Par, ignored: set<string>)
    requires TokensMatch(t, p, ignored)
    ensures IsSet(t, "atom") <==> IsSet(AsMap(p.attrs), "atom")
  {
    assert IsSet(t, "atom") <==> IsSet(t - {"id", "t"}, "atom");
  }

  lemma {:induction false} AtomTokensRead(p: Par, ignored: set<string>)
    requires GoodFor(p, ignored, true) && WriterIgnores(ignored) && LanguageIs(p, ignored, "")
    ensures var m := AsMap(ParEntries(p, ignored, true)) + map[];
            IsSet(m, "atom") && TokensMatch(m - {"atom"}, p, ignored)
  {
    var m := AsMap(ParEntries(p, ignored, true)) + map[];
    BuiltinValues(p, ignored, true);
    ReadKeys(p, ignored, true, "id");
    ReadKeys(p, ignored, true, "t");
    AttributesReadBack(p, ignored, true, "");
    assert (m - {"atom"}) - {"id", "t"} == m - {"atom", "id", "t"};
  }

  /** The lines of a clean text join to it. */
  lemma CleanJoin(md: string)
    requires CleanMd(md)
    ensures JoinLines(SplitLines(md)) == md
    ensures md != "" ==> !IsSpace(md[|md| - 1])
    ensures md != "" ==> SplitLines(md) != []
  {
    CleanEnds(md);
    JoinSplit(md);
  }

  lemma CleanEnds(md: string)
    requires StripMd(md) == md
    ensures md == "" || !IsSpace(md[|md| - 1])
  {
    RStripSplit(md);
    LStripNewlinesShortens(RStrip(md));
    assert |RStrip(md)| == |md|;
    assert md[..|md|] == md;
  }

  lemma {:induction false} HeadingReads(first: string, body: seq<string>, p: Par, ignored: set<string>, a: Attributes)
    requires IsHeading(first) && PlainShape(body) && GetAttributes(first) == Ok(a)
    requires TokensMatch(a.tokens, p, ignored)
    requires StripMd(BlockText(Heading(first, body), a)) == p.md
    ensures ParsesBack([first] + body, p, ignored)
  {
    HeadingChunk(first, body);
  }

  lemma {:induction false} PaddedText(lines: seq<string>, tail: seq<string>, md: string)
    requires JoinLines(lines) == md && StripMd(md) == md && forall i :: 0 <= i < |tail| ==> tail[i] == ""
    ensures StripMd(JoinLines(lines + tail)) == md
  {
    var w := JoinEmpty(lines, tail);
    StripMdAppend(md, w);
  }

  lemma {:induction false} HashRoundTrip(p: Par, ignored: set<string>, tail: seq<string>)
    requires GoodAttrs(p, ignored) && WriterIgnores(ignored) && CleanMd(p.md)
    requires PlainShape(SplitLines(p.md)) && LanguageIs(p, ignored, "")
    requires forall i :: 0 <= i < |tail| ==> tail[i] == ""
    ensures var first := CarrierText("#-", AttrText(p, ignored, false));
            ParsesBack([first] + (SplitLines(p.md) + tail), p, ignored)
  {
    var lines := SplitLines(p.md);
    var first := CarrierText("#-", AttrText(p, ignored, false));
    BlankIsPlain(tail);
    PlainAppend(lines, tail);
    HashAttributes(p, ignored);
    CleanJoin(p.md);
    PaddedText(lines, tail, p.md);
    HeadingReads(first, lines + tail, p, ignored, GetAttributes(first).value);
  }

  lemma {:induction false} HashAttributes(p: Par, ignored: set<string>)
    requires GoodAttrs(p, ignored) && WriterIgnores(ignored) && LanguageIs(p, ignored, "")
    ensures var first := CarrierText("#-", AttrText(p, ignored, false));
            && IsHeading(first) && StartsWith(first, "#-") && GetAttributes(first).Ok?
            && TokensMatch(GetAttributes(first).value.tokens, p, ignored)
  {
    var attrs := AttrText(p, ignored, false);
    assert CarrierText("#-", attrs)[..2] == "#-";
    NoBraceNoList("#-", attrs);
    CarrierRead("#-", p, ignored, false);
    TokensRead(p, ignored, "");
  }

  /** A header line followed by the rest joins like the lines do, up to newlines at the end. */
  lemma {:induction false} HeaderText(lines: seq<string>, tail: seq<string>, md: string)
    requires lines != [] && JoinLines(lines) == md && StripMd(md) == md
    requires forall i :: 0 <= i < |tail| ==> tail[i] == ""
    ensures StripMd(lines[0] + "\n" + JoinLines(lines[1..] + tail)) == md
  {
    var more := lines[1..] + tail;
    assert [lines[0]] + more == lines + tail;
    if more == [] {
      assert lines == [lines[0]];
      StripMdAppend(md, "\n");
      assert lines[0] + "\n" + "" == md + "\n";
    } else {
      JoinCons(lines[0], more);
      PaddedText(lines, tail, md);
    }
  }

  lemma {:induction false} HeaderRoundTrip(p: Par, ignored: set<string>, tail: seq<string>)
    requires GoodPar(p, ignored) && WriterIgnores(ignored)
    requires !PlainShape(SplitLines(p.md)) && HeaderShape(SplitLines(p.md))
    requires forall i :: 0 <= i < |tail| ==> tail[i] == ""
    ensures ParsesBack(ParLines(p, ignored) + tail, p, ignored)
  {
    var lines := SplitLines(p.md);
    var attrs := AttrText(p, ignored, false);
    var first := ParLines(p, ignored)[0];
    assert first[0] == '#' && !StartsWith(first, "#-") by { HeaderFirst(lines[0], attrs); }
    BlankIsPlain(tail);
    PlainAppend(lines[1..], tail);
    CleanJoin(p.md);
    HeaderText(lines, tail, p.md);
    HeaderAttributes(p, ignored);
    var a := GetAttributes(first).value;
    HeadingReads(first, lines[1..] + tail, p, ignored, a);
    assert ParLines(p, ignored) == [first] + lines[1..];
    Assoc([first], lines[1..], tail);
  }

  lemma HeaderFirst(line: string, attrs: string)
    requires IsHeading(line) && !StartsWith(line, "#-") && Trimmed(line)
    ensures CarrierText(line, attrs)[0] == '#' && !StartsWith(CarrierText(line, attrs), "#-")
  {
    if |line| > 1 {
      assert CarrierText(line, attrs)[1] == line[1];
      assert line[..2] == [line[0], line[1]];
    } else {
      assert CarrierText(line, attrs)[1] == ' ';
    }
  }

  /** The first line of a header or code paragraph gives back its attributes and itself. */
  lemma {:induction false} CarriedAttributes(p: Par, ignored: set<string>, first: string)
    requires GoodAttrs(p, ignored) && WriterIgnores(ignored) && LanguageIs(p, ignored, Language(first))
    requires first != "" && Trimmed(first)
    requires CanCarry(first, AttrText(p, ignored, false))
    ensures var attrs := AttrText(p, ignored, false);
            var line := WithList(first, attrs);
            && GetAttributes(line).Ok?
            && var a := GetAttributes(line).value;
               TokensMatch(a.tokens, p, ignored) && FirstLine(line, a.start) == first
  {
    var attrs := AttrText(p, ignored, false);
    TokensRead(p, ignored, Language(first));
    if attrs == "" {
      StripTrimmed(first);
      NoEntries(p, ignored);
    } else {
      CarrierRead(first, p, ignored, false);
      CarrierFirst(first, attrs);
    }
  }

  /** An empty list was printed from no entries. */
  lemma {:induction false} NoEntries(p: Par, ignored: set<string>)
    requires GoodAttrs(p, ignored) && WriterIgnores(ignored) && AttrText(p, ignored, false) == ""
    ensures ParEntries(p, ignored, false) == []
  {
    var d := ParEntries(p, ignored, false);
    ParEntriesGood(p, ignored, false);
    ExportedAll(d, ignored);
    GoodStays(p, ignored);
    FlatText(p, ignored, false);
    EntriesSolid(d, ignored);
    if d != [] {
      SpacedJoined(EntryTexts(d, ignored));
    }
  }

  lemma HeaderAttributes(p: Par, ignored: set<string>)
    requires GoodPar(p, ignored) && WriterIgnores(ignored)
    requires !PlainShape(SplitLines(p.md)) && HeaderShape(SplitLines(p.md))
    ensures var first := ParLines(p, ignored)[0];
            && GetAttributes(first).Ok?
            && var a := GetAttributes(first).value;
               TokensMatch(a.tokens, p, ignored) && FirstLine(first, a.start) == SplitLines(p.md)[0]
  {
    assert Language(SplitLines(p.md)[0]) == "";
    CarriedAttributes(p, ignored, SplitLines(p.md)[0]);
  }

  lemma FenceNotHeading(line: string)
    requires IsFence(line)
    ensures !IsHeading(line) && Stops(line, false)
  {
  }

  lemma CodeFirst(line: string, attrs: string)
    requires IsFence(line) && Trimmed(line)
    ensures IsFence(CarrierText(line, attrs)) && Marker(CarrierText(line, attrs)) == Marker(line)
  {
    var m := Marker(line);
    assert CarrierText(line, attrs)[|line|] == ' ';
    MarkerIs(CarrierText(line, attrs), m);
  }

  lemma {:induction false} FenceReads(start: string, body: seq<string>, close: string, tail: seq<string>)
    requires IsFence(start) && NoneStarts(body, Marker(start)) && StartsWith(close, Marker(start))
    requires forall i :: 0 <= i < |tail| ==> tail[i] == ""
    ensures var cs := Chunks([start] + body + [close] + tail, false);
            cs == [Fence(start, body, Some(close))] && AllClosed(cs) && ProperChunk(cs[0])
  {
    FenceChunkOf(start, body, close, tail, false);
  }

  lemma {:induction false} CodeBlockOf(p: Par, ignored: set<string>, first: string)
    requires CleanMd(p.md) && CodeShape(SplitLines(p.md)) && EndIsClean(p.md).Ok?
    requires IsFence(first) && Marker(first) == Marker(SplitLines(p.md)[0]) && GetAttributes(first).Ok?
    requires var a := GetAttributes(first).value;
             TokensMatch(a.tokens, p, ignored) && !IsSet(a.tokens, "atom") &&
             FirstLine(first, a.start) == SplitLines(p.md)[0]
    ensures var lines := SplitLines(p.md); var k := |lines| - 1;
            ChunkMatches(Fence(first, lines[1..k], Some(lines[k])), p, ignored)
  {
    var lines := SplitLines(p.md);
    var k := |lines| - 1;
    CleanJoin(p.md);
    CodeText(first, lines, GetAttributes(first).value);
  }

  lemma CodeText(first: string, lines: seq<string>, a: Attributes)
    requires |lines| >= 2 && IsFence(first) && !IsSet(a.tokens, "atom")
    requires a.start.Some? ==> a.start.value <= |first|
    requires FirstLine(first, a.start) == lines[0]
    ensures BlockText(Fence(first, lines[1..|lines| - 1], Some(lines[|lines| - 1])), a) == JoinLines(lines)
  {
    WholeAgain(lines);
  }

  lemma WholeAgain<T>(s: seq<T>)
    requires |s| >= 2
    ensures [s[0]] + (s[1..|s| - 1] + [s[|s| - 1]]) == s
  {
  }

  lemma {:induction false} CodeRoundTrip(p: Par, ignored: set<string>, tail: seq<string>)
    requires GoodPar(p, ignored) && WriterIgnores(ignored)
    requires CodeShape(SplitLines(p.md))
    requires forall i :: 0 <= i < |tail| ==> tail[i] == ""
    ensures ParsesBack(ParLines(p, ignored) + tail, p, ignored)
  {
    var lines := SplitLines(p.md);
    var first := WithList(lines[0], AttrText(p, ignored, false));
    CodeNotOthers(lines);
    WithListMarker(lines[0], AttrText(p, ignored, false));
    CarriedAttributes(p, ignored, lines[0]);
    AtomKept(GetAttributes(first).value.tokens, p, ignored);
    CodeReads(p, ignored, first, tail);
  }

  lemma WithListMarker(line: string, attrs: string)
    requires IsFence(line) && Trimmed(line)
    ensures IsFence(WithList(line, attrs)) && Marker(WithList(line, attrs)) == Marker(line)
  {
    if attrs != "" {
      CodeFirst(line, attrs);
    }
  }

  lemma CodeParts(lines: seq<string>, marker: string)
    requires CodeShape(lines) && Marker(lines[0]) == marker
    ensures NoneStarts(lines[1..|lines| - 1], marker) && StartsWith(lines[|lines| - 1], marker)
  {
  }

  /** The lines of a code paragraph behind a first line that carries its attributes. */
  lemma {:induction false} CodeReads(p: Par, ignored: set<string>, first: string, tail: seq<string>)
    requires CleanMd(p.md) && CodeShape(SplitLines(p.md)) && EndIsClean(p.md).Ok?
    requires IsFence(first) && Marker(first) == Marker(SplitLines(p.md)[0]) && GetAttributes(first).Ok?
    requires var a := GetAttributes(first).value;
             TokensMatch(a.tokens, p, ignored) && !IsSet(a.tokens, "atom") &&
             FirstLine(first, a.start) == SplitLines(p.md)[0]
    requires forall i :: 0 <= i < |tail| ==> tail[i] == ""
    ensures ParsesBack([first] + SplitLines(p.md)[1..] + tail, p, ignored)
  {
    var lines := SplitLines(p.md);
    var body, close := lines[1..|lines| - 1], lines[|lines| - 1];
    CodeBlockOf(p, ignored, first);
    CodeParts(lines, Marker(first));
    FenceMatches(first, body, close, tail, p, ignored);
    CodeLines(first, lines, tail);
  }

  lemma CodeLines(first: string, lines: seq<string>, tail: seq<string>)
    requires |lines| >= 2
    ensures [first] + lines[1..] + tail == [first] + lines[1..|lines| - 1] + [lines[|lines| - 1]] + tail
  {
  }

  lemma CodeNotOthers(lines: seq<string>)
    requires CodeShape(lines)
    ensures !PlainShape(lines) && !HeaderShape(lines)
  {
    FenceNotHeading(lines[0]);
  }

  lemma FenceOfIs(n: nat)
    requires n >= 3
    ensures var f := Repeat('`', n);
            IsFence(f) && Marker(f) == f && Trimmed(f) && Language(f) == "" && NoBreaks(f)
  {
    var f := Repeat('`', n);
    MarkerIs(f, f);
    RunLengthIs(f, '`', |f|);
    assert f[|f|..] == "";
  }

  /** The chunk and the text of a fenced paragraph, whatever its lines are. */
  lemma {:induction false} AtomCarrier(p: Par, ignored: set<string>, n: nat)
    requires GoodFor(p, ignored, true) && WriterIgnores(ignored) && LanguageIs(p, ignored, "") && n >= 3
    ensures var fence := Repeat('`', n);
            var start := CarrierText(fence, AttrText(p, ignored, true));
            && IsFence(start) && Marker(start) == fence && GetAttributes(start).Ok?
            && var t := GetAttributes(start).value.tokens;
               IsSet(t, "atom") && TokensMatch(t - {"atom"}, p, ignored)
  {
    var fence, attrs := Repeat('`', n), AttrText(p, ignored, true);
    FenceOfIs(n);
    CodeFirst(fence, attrs);
    NoBraceNoList(fence, attrs);
    CarrierRead(fence, p, ignored, true);
    AtomTokensRead(p, ignored);
  }

  /** A closed fence whose text and attributes are those of the paragraph. */
  lemma {:induction false} FenceMatches(start: string, body: seq<string>, close: string, tail: seq<string>,
                                        p: Par, ignored: set<string>)
    requires IsFence(start) && NoneStarts(body, Marker(start)) && StartsWith(close, Marker(start))
    requires forall i :: 0 <= i < |tail| ==> tail[i] == ""
    requires ChunkMatches(Fence(start, body, Some(close)), p, ignored)
    ensures ParsesBack([start] + body + [close] + tail, p, ignored)
  {
    FenceReads(start, body, close, tail);
  }

  lemma {:induction false} AtomBlock(p: Par, ignored: set<string>, n: nat)
    requires GoodFor(p, ignored, true) && WriterIgnores(ignored) && LanguageIs(p, ignored, "") && n >= 3
    requires CleanMd(p.md)
    ensures var start := CarrierText(Repeat('`', n), AttrText(p, ignored, true));
            ChunkMatches(Fence(start, SplitLines(p.md), Some(Repeat('`', n))), p, ignored)
  {
    AtomCarrier(p, ignored, n);
    CleanJoin(p.md);
  }

  /**
   Atom fencing is transparent: a clean text inside a fence is read back as one block with the text
   unchanged if and only if none of its lines begins with the fence.
   */
  lemma {:induction false} FencingTransparent(p: Par, ignored: set<string>, n: nat, tail: seq<string>)
    requires GoodFor(p, ignored, true) && WriterIgnores(ignored) && LanguageIs(p, ignored, "") && n >= 3
    requires CleanMd(p.md)
    requires forall i :: 0 <= i < |tail| ==> tail[i] == ""
    ensures var fence := Repeat('`', n);
            var start := CarrierText(fence, AttrText(p, ignored, true));
            ParsesBack([start] + SplitLines(p.md) + [fence] + tail, p, ignored)
            <==> NoneStarts(SplitLines(p.md), fence)
  {
    var fence := Repeat('`', n);
    var lines := SplitLines(p.md);
    var start := CarrierText(fence, AttrText(p, ignored, true));
    AtomCarrier(p, ignored, n);
    CleanJoin(p.md);
    if NoneStarts(lines, fence) {
      AtomBlock(p, ignored, n);
      FenceMatches(start, lines, fence, tail, p, ignored);
    } else {
      FenceTooShort(start, lines, [fence] + tail, p.md);
      FourParts(start, lines, fence, tail);
    }
  }

  lemma FourParts(start: string, lines: seq<string>, fence: string, tail: seq<string>)
    ensures [start] + (lines + ([fence] + tail)) == [start] + lines + [fence] + tail
  {
  }

  /** A line that begins with the fence ends the block early, with less text. */
  lemma {:induction false} FenceTooShort(start: string, lines: seq<string>, rest: seq<string>, md: string)
    requires IsFence(start) && !NoneStarts(lines, Marker(start)) && JoinLines(lines) == md
    requires GetAttributes(start).Ok? && IsSet(GetAttributes(start).value.tokens, "atom")
    ensures var cs := Chunks([start] + (lines + rest), false);
            |cs| >= 1 && ProperChunk(cs[0]) && ToBlock(cs[0]).Ok? && ToBlock(cs[0]).value.md != md
  {
    var all := [start] + (lines + rest);
    var m := Marker(start);
    StartsBlockNotBlank(start);
    assert all[0] == start && all[1..] == lines + rest;
    var n := BodyLength(lines, m);
    assert n < |lines|;
    BodyLengthAppend(lines, rest, m);
    assert (lines + rest)[..n] == lines[..n];
    var c := FirstChunk(all, false);
    assert c.body == lines[..n];
    StripMdShortens(JoinLines(lines[..n]));
    ShorterPrefix(lines, n, m);
  }

  lemma {:induction false} ShorterPrefix(lines: seq<string>, n: nat, m: string)
    requires n < |lines| && StartsWith(lines[n], m) && m != ""
    ensures |JoinLines(lines[..n])| < |JoinLines(lines)|
  {
    assert lines == lines[..n] + lines[n..];
    JoinAtLeast(lines[n..]);
    if n > 0 {
      JoinAppend(lines[..n], lines[n..]);
    }
  }

  lemma JoinAtLeast(lines: seq<string>)
    requires lines != []
    ensures |JoinLines(lines)| >= |lines[0]|
  {
  }
}
