/** The language named by a fence line, in terms of the characters of the line. */
module Languages {
  import opened Text
  import opened AttributeList
  import opened AttributePrinting
  import opened DocumentFormat
  import opened Composition
  import opened CodeBlocks

  // ----- lists are read where they are found -----

  /** A list that was found is the one that is read behind its brace. */
  predicate ReadThere(s: string, r: ListResult) {
    r.ListAt? ==> r.at < |s| && s[r.at] == '{' && Scan(s[r.at + 1..], map[]) == Found(r.tokens)
  }

  lemma ReadHere(s: string, i: nat)
    requires i < |s| && s[i] == '{' && Scan(s[i + 1..], map[]) != NoList
    ensures ReadThere(s, FirstList(s, i))
  {
    ListHere(s, i);
  }

  lemma {:induction false} FoundIsRead(s: string, i: nat)
    requires i <= |s|
    ensures ReadThere(s, FirstList(s, i))
    decreases |s| - i
  {
    if i < |s| {
      if s[i] == '{' && Scan(s[i + 1..], map[]) != NoList {
        ReadHere(s, i);
      } else {
        SkipsOne(s, i);
        FoundIsRead(s, i + 1);
      }
    }
  }

  // ----- the name behind the backticks -----

  /** A name that ends before the first space or opening brace of the line. */
  predicate LanguageName(name: string) {
    name != "" && forall i :: 0 <= i < |name| ==> name[i] != ' ' && name[i] != '{'
  }

  /** The line goes on with a space or an opening brace, or ends. */
  predicate NameEnds(tail: string) {
    tail == "" || tail[0] == ' ' || tail[0] == '{'
  }

  /** `n` backticks, `k` spaces and what follows them. */
  function Ticked(n: nat, k: nat, rest: string): string {
    Repeat('`', n) + (Repeat(' ', k) + rest)
  }

  lemma TickedRun(n: nat, k: nat, rest: string)
    requires k > 0 || rest == "" || rest[0] != '`'
    ensures RunLength(Ticked(n, k, rest), '`') == n && Ticked(n, k, rest)[n..] == Repeat(' ', k) + rest
  {
    var s := Ticked(n, k, rest);
    assert n < |s| ==> s[n] == (Repeat(' ', k) + rest)[0];
    RunLengthIs(s, '`', n);
  }

  lemma {:induction false} SpacesSkipped(k: nat, rest: string)
    requires rest == "" || rest[0] != ' '
    ensures SkipSpaces(Repeat(' ', k) + rest) == rest
  {
    if k == 0 {
      assert Repeat(' ', 0) + rest == rest;
    } else {
      assert (Repeat(' ', k) + rest)[1..] == Repeat(' ', k - 1) + rest;
      SpacesSkipped(k - 1, rest);
    }
  }

  lemma NameLength(name: string, tail: string)
    requires (forall i :: 0 <= i < |name| ==> name[i] != ' ' && name[i] != '{') && NameEnds(tail)
    ensures LanguageLength(name + tail) == |name| && (name + tail)[..|name|] == name
  {
    var s := name + tail;
    var n := LanguageLength(s);
    assert |name| < |s| ==> s[|name|] == tail[0];
    assert forall i :: 0 <= i < |name| ==> s[i] == name[i];
  }

  lemma {:induction false} NamedLanguage(n: nat, k: nat, name: string, tail: string)
    requires n >= 1 && (name == "" || LanguageName(name)) && NameEnds(tail)
    requires name == "" ==> tail == "" || tail[0] == '{'
    requires k > 0 || name == "" || name[0] != '`'
    ensures Language(Ticked(n, k, name + tail)) == name
  {
    TickedRun(n, k, name + tail);
    SpacesSkipped(k, name + tail);
    NameLength(name, tail);
    assert Ticked(n, k, name + tail)[0] == '`';
  }

  /** The attributes of a line with its list, if it has one, and nothing else. */
  predicate ListOnly(s: string, a: Attributes) {
    if a.start.None? then a.tokens == map[]
    else a.start.value < |s| && s[a.start.value] == '{' && Scan(s[a.start.value + 1..], map[]) == Found(a.tokens)
  }

  /** The same with a language, which a list cannot change. */
  ghost predicate ListAndLanguage(s: string, a: Attributes, name: string) {
    exists t: Tokens :: ListOnly(s, Attributes(t, a.start)) && a.tokens == t["code_lang" := Str(name)]
  }

  function Named(lang: string): Tokens {
    if lang == "" then map[] else map["code_lang" := Str(lang)]
  }

  /** The list of the line, if any, and the language, if any. */
  ghost predicate ReadsAs(s: string, a: Attributes, lang: string) {
    if lang == "" then ListOnly(s, a) else ListAndLanguage(s, a, lang)
  }

  lemma Combined(s: string, t: Tokens, start: Option<nat>, lang: string)
    requires ListOnly(s, Attributes(t, start))
    ensures var a := Attributes(t + Named(lang), start);
            ReadsAs(s, a, lang)
  {
    assert t + map[] == t && t + map["code_lang" := Str(lang)] == t["code_lang" := Str(lang)];
  }

  function ListPart(r: ListResult): Attributes
    requires !r.ListRaised?
  {
    if r.ListAt? then Attributes(r.tokens, Some(r.at)) else Attributes(map[], None)
  }

  lemma ListPartRead(s: string, r: ListResult)
    requires ReadThere(s, r) && !r.ListRaised?
    ensures ListOnly(s, ListPart(r))
  {
  }

  lemma PartsRead(s: string, r: ListResult)
    requires Yields(s, r) && !r.ListRaised?
    ensures GetAttributes(s) == Ok(Attributes(ListPart(r).tokens + Named(Language(s)), ListPart(r).start))
  {
    assert CodeInfo(s) == Named(Language(s));
    assert map[] + Named(Language(s)) == Named(Language(s));
  }

  lemma NotRaised(s: string, r: ListResult)
    requires Yields(s, r) && GetAttributes(s).Ok?
    ensures !r.ListRaised?
  {
  }

  lemma ByLanguage(s: string)
    requires GetAttributes(s).Ok?
    ensures ReadsAs(s, GetAttributes(s).value, Language(s))
  {
    var r := FirstList(s, 0);
    LineYields(s);
    FoundIsRead(s, 0);
    NotRaised(s, r);
    ListPartRead(s, r);
    PartsRead(s, r);
    Combined(s, ListPart(r).tokens, ListPart(r).start, Language(s));
  }

  /**
   Behind one or more backticks and any spaces, the text up to the next space or brace is the language, and it
   overrides one that the list of the line gives.
   */
  lemma {:induction false} LanguageRead(n: nat, k: nat, name: string, tail: string)
    requires n >= 1 && LanguageName(name) && NameEnds(tail) && (k > 0 || name[0] != '`')
    requires GetAttributes(Ticked(n, k, name + tail)).Ok?
    ensures var s := Ticked(n, k, name + tail); var a := GetAttributes(s).value;
            && "code_lang" in a.tokens && a.tokens["code_lang"] == Str(name)
            && ListAndLanguage(s, a, name)
  {
    NamedLanguage(n, k, name, tail);
    ByLanguage(Ticked(n, k, name + tail));
  }

  /** Without backticks in front a line has the attributes of its list only. */
  lemma {:induction false} NoTicksNoLanguage(s: string)
    requires (s == "" || s[0] != '`') && GetAttributes(s).Ok?
    ensures ListOnly(s, GetAttributes(s).value)
  {
    ByLanguage(s);
  }

  /** So has a line without a name behind its backticks. */
  lemma {:induction false} NoNameNoLanguage(n: nat, k: nat, tail: string)
    requires n >= 1 && (tail == "" || tail[0] == '{') && GetAttributes(Ticked(n, k, tail)).Ok?
    ensures ListOnly(Ticked(n, k, tail), GetAttributes(Ticked(n, k, tail)).value)
  {
    NamedLanguage(n, k, "", tail);
    assert "" + tail == tail;
    ByLanguage(Ticked(n, k, tail));
  }

  // ----- the language of a parsed block -----

  /** A fence with its body, and its closing line if there is one. */
  predicate Fenced(start: string, body: seq<string>, close: seq<string>) {
    && IsFence(start) && NoneStarts(body, Marker(start)) && |close| <= 1
    && (close != [] ==> StartsWith(close[0], Marker(start)))
  }

  function CloseOf(close: seq<string>): Option<string> {
    if close == [] then None else Some(close[0])
  }

  lemma NoneCloses(body: seq<string>, marker: string)
    requires NoneStarts(body, marker)
    ensures BodyLength(body, marker) == |body|
  {
    var n := BodyLength(body, marker);
  }

  lemma {:induction false} OneFence(start: string, body: seq<string>, close: seq<string>)
    requires Fenced(start, body, close)
    ensures Chunks([start] + body + close, false) == [Fence(start, body, CloseOf(close))]
  {
    var ls := [start] + body + close;
    if close == [] {
      assert ls[0] == start && ls[1..] == body;
      StartsBlockNotBlank(start);
      NoneCloses(body, Marker(start));
      assert body[..|body|] == body;
      assert FirstChunk(ls, false) == Fence(start, body, None);
      assert ls[|ChunkLines(FirstChunk(ls, false))|..] == [];
    } else {
      FenceChunkOf(start, body, close[0], [], false);
      assert [start] + body + [close[0]] + [] == ls;
    }
  }

  /** The attributes that a fenced block gets from its first line. */
  predicate AttrsFrom(b: Block, t: Tokens) {
    b.attrs == if IsSet(t, "atom") then t - {"atom"} - {"id", "t"} else t - {"id", "t"}
  }

  lemma {:induction false} OneFenceText(ls: seq<string>)
    requires ls != [] && ls[|ls| - 1] != "" && Unbroken(ls)
    ensures ParseText(JoinLines(ls), WHOLE_DOCUMENT) == SplitBlocks(ls, false)
  {
    assert forall l :: l in ls ==> NoBreaks(l);
    SplitJoined(ls);
    WholeIsSplit(JoinLines(ls));
  }

  lemma {:induction false} OneChunkBlock(ls: seq<string>, c: Chunk)
    requires ProperChunk(c) && Chunks(ls, false) == [c]
    ensures SplitBlocks(ls, false) == match ToBlock(c) case Raised(e) => Raised(e) case Ok(b) => Ok([b])
  {
    ChunksProper(ls, false);
    OneBlock(c);
  }

  lemma FenceAttributes(c: Chunk)
    requires c.Fence? && IsFence(c.start) && ToBlock(c).Ok?
    ensures GetAttributes(c.start).Ok? && AttrsFrom(ToBlock(c).value, GetAttributes(c.start).value.tokens)
  {
  }

  lemma {:induction false} FencedParses(start: string, body: seq<string>, close: seq<string>)
    requires Fenced(start, body, close) && Unbroken([start] + body + close)
    requires body != [] && close == [] ==> body[|body| - 1] != ""
    requires ParseText(JoinLines([start] + body + close), WHOLE_DOCUMENT).Ok?
    ensures var r := ParseText(JoinLines([start] + body + close), WHOLE_DOCUMENT).value;
            |r| == 1 && GetAttributes(start).Ok? && AttrsFrom(r[0], GetAttributes(start).value.tokens)
  {
    var ls := [start] + body + close;
    var c := Fence(start, body, CloseOf(close));
    assert ls[|ls| - 1] != "";
    OneFenceText(ls);
    OneFence(start, body, close);
    OneChunkBlock(ls, c);
    FenceAttributes(c);
  }

  /** A fenced block with a language has that language, closed or not and whatever list is on its first line. */
  lemma {:induction false} BlockLanguage(n: nat, k: nat, name: string, tail: string, body: seq<string>,
                                         close: seq<string>)
    requires n >= 3 && LanguageName(name) && NameEnds(tail) && (k > 0 || name[0] != '`')
    requires Unbroken([Ticked(n, k, name + tail)] + body + close) && |close| <= 1
    requires NoneStarts(body, Repeat('`', n)) && (close != [] ==> StartsWith(close[0], Repeat('`', n)))
    requires body != [] && close == [] ==> body[|body| - 1] != ""
    requires ParseText(JoinLines([Ticked(n, k, name + tail)] + body + close), WHOLE_DOCUMENT).Ok?
    ensures var r := ParseText(JoinLines([Ticked(n, k, name + tail)] + body + close), WHOLE_DOCUMENT).value;
            |r| == 1 && "code_lang" in r[0].attrs && r[0].attrs["code_lang"] == Str(name)
  {
    var start := Ticked(n, k, name + tail);
    TickedRun(n, k, name + tail);
    assert start[..n] == Repeat('`', n);
    MarkerIs(start, Repeat('`', n));
    FencedParses(start, body, close);
    LanguageRead(n, k, name, tail);
  }
}
