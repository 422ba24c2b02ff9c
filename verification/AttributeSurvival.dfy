/** Which parsed attributes survive printing and reading. */
module AttributeSurvival {
  import opened Text
  import opened AttributeList
  import opened AttributePrinting
  import opened AttributeErrors
  import opened DocumentFormat
  import opened DocumentWriting
  import opened Composition
  import opened CodeBlocks
  import opened ParagraphAttributes
  import opened ParsedAttributes
  import opened AttributeInk
  import opened RoundTrip

  // ----- keys that are not read back -----

  predicate Braced(r: string, from: nat) {
    exists j :: from <= j < |r| && r[j] == '}'
  }

  lemma TailBraced(rest: string, r: string, from: nat)
    requires TailOf(rest, r) && Braced(rest, 0) && from <= |r| - |rest|
    ensures Braced(r, from)
  {
    var j :| 0 <= j < |rest| && rest[j] == '}';
    assert r[|r| - |rest| + j] == '}';
  }

  lemma {:induction false} FoundBraced(r: string, t: Tokens)
    requires Scan(r, t).Found?
    ensures Braced(SkipSpaces(r), if HasItem(r, t) then 1 else 0) && Braced(r, 0)
    decreases |r|
  {
    var r1 := SkipSpaces(r);
    SpacesTail(r);
    if HasItem(r, t) {
      ScanMore(r, t);
      var item := NextItem(r1, t);
      FoundBraced(item.rest, item.tokens);
      ItemTail(r1, t);
      TailBraced(item.rest, r1, 1);
      assert Braced(r1, 0);
    } else {
      ScanStops(r, t);
      assert r1[0] == '}';
    }
    TailBraced(r1, r, 0);
  }

  predicate Marks(c: char) {
    c == '#' || c == '.'
  }

  /** If a brace follows, what a mark leaves does not begin with that mark. */
  lemma PastMark(r: string, mark: char)
    requires r != "" && (Braced(r, 1) || r[0] != mark)
    ensures var (name, rest) := Marked(r, mark);
            name.None? || name.value == "" ==>
              rest != "" && rest[0] != mark && (rest == r || rest[0] == ' ' || rest[0] == '}')
    requires Marks(mark)
  {
    var n := TokenLength(r[1..]);
    if Braced(r, 1) {
      var j :| 1 <= j < |r| && r[j] == '}';
      assert r[1..][j - 1] == '}';
    }
  }

  lemma PairUnmarked(r: string)
    requires r != "" && Braced(r, 1) && !NamesTask(r) && !NamesClass(r)
    ensures !Marks(PastMarks(r)[0])
  {
    PastMark(r, '#');
    PastMark(PastHash(r), '.');
  }

  predicate Unmarked(t: Tokens) {
    forall k :: k in t ==> k != "" && !Marks(k[0])
  }

  /** No list is read with a key that begins with a mark. */
  lemma {:induction false} FoundUnmarked(r: string, t: Tokens)
    requires Scan(r, t).Found? && Unmarked(t)
    ensures Unmarked(Scan(r, t).tokens)
    decreases |r|
  {
    if HasItem(r, t) {
      ScanMore(r, t);
      FoundBraced(r, t);
      ItemUnmarked(SkipSpaces(r), t);
      var item := NextItem(SkipSpaces(r), t);
      FoundUnmarked(item.rest, item.tokens);
    } else {
      ScanStops(r, t);
    }
  }

  lemma ItemUnmarked(r: string, t: Tokens)
    requires r != "" && NextItem(r, t).Item? && Braced(r, 1) && Unmarked(t)
    ensures Unmarked(NextItem(r, t).tokens)
  {
    if NamesTask(r) {
      TaskRead(r, t);
    } else if NamesClass(r) {
      ClassRead(r, t);
    } else {
      PairRead(r, t);
      PairUnmarked(r);
      PairReads(PastMarks(r));
    }
  }

  lemma {:induction false} SkipsNoFurther(r: string, j: nat)
    requires j < |r| && r[j] != ' '
    ensures SkipSpaces(r) != ""
  {
    if j > 0 && r[0] == ' ' {
      SkipsNoFurther(r[1..], j - 1);
    }
  }

  /** A closing brace with text behind it ends the list without success. */
  lemma ClosesEarly(r: string, j: nat, t: Tokens)
    requires 0 < j < |r| && r[0] == '}' && r[j] != ' '
    ensures Scan(r, t) == NoList
  {
    SkipsNoFurther(r[1..], j - 1);
  }

  /** Entries without a key that begins with a mark. */
  predicate RegularAll(d: Entries) {
    SolidEntries(d) && forall i :: 0 <= i < |d| ==> Regular(d[i]) && !Marks(d[i].key[0])
  }

  lemma RegularPrints(e: Entry)
    requires SolidEntry(e.key, e.val) && Regular(e) && !Marks(e.key[0])
    ensures Typed([e]) && (e.key[0] != '}' ==> Prints(e) && Printable(e.key, e.val))
  {
  }

  /** A key that begins with a closing brace ends the list, whatever entries are before it. */
  lemma {:induction false} BraceKeyEnds(d: Entries, i: nat, t: Tokens, ignored: set<string>)
    requires RegularAll(d) && Typed(d) && DistinctKeys(d) && i < |d| && d[i].key[0] == '}'
    requires forall k :: 0 <= k < |d| ==> d[k].key !in t && d[k].key !in ignored
    ensures Scan(Joined(EntryTexts(d, ignored)) + "}", t) == NoList
    decreases |d|
  {
    var e := d[0];
    RegularPrints(e);
    var text, more := EntryText(e.key, e.val, ignored), EntryTexts(d[1..], ignored);
    assert EntryTexts(d, ignored) == [text] + more;
    if e.key[0] == '}' {
      JoinedStarts(text, more);
      assert text[|text| - 1] == '"';
      ClosesEarly(Joined([text] + more) + "}", |text| - 1, t);
    } else {
      TextsCount(d[1..], ignored);
      var tail := Joined(more) + "}";
      JoinedHead(text, more, "}");
      ScanEntry(e.key, e.val, " " + tail, t, ignored);
      ScanSkips(tail, t[e.key := e.val]);
      BraceKeyEnds(d[1..], i - 1, t[e.key := e.val], ignored);
    }
  }

  lemma JoinedStarts(text: string, more: seq<string>)
    ensures text <= Joined([text] + more)
  {
  }

  // ----- a list of parsed entries -----

  /** Regular entries print to nonempty texts, with clean ends if theirs are. */
  lemma {:induction false} RegularEdged(e: Entries, ignored: set<string>)
    requires RegularAll(e) && Typed(e) && CleanEdges(e) && forall i :: 0 <= i < |e| ==> e[i].key !in ignored
    ensures Solid(EntryTexts(e, ignored)) && Edged(EntryTexts(e, ignored))
  {
    TextsCount(e, ignored);
    forall i | 0 <= i < |e|
      ensures EntryTexts(e, ignored)[i] != ""
    {
      TextAt(e, ignored, i);
      RegularText(e[i], ignored);
    }
    if e != [] {
      TextAt(e, ignored, 0);
      TextAt(e, ignored, |e| - 1);
      RegularText(e[0], ignored);
      RegularText(e[|e| - 1], ignored);
    }
  }

  /** Entries that are all read back from their own list are regular and have clean ends. */
  lemma {:induction false} ListRegular(d: Entries)
    requires SolidEntries(d) && DistinctKeys(d) && Typed(d)
    requires Scan(AttrsText(d, {}) + "}", map[]) == Found(AsMap(d))
    ensures RegularAll(d) && CleanEdges(d)
  {
    ApplyHolds(map[], d);
    CollectedCosts(d, AttrsText(d, {}));
    BodyInk(d, {}, {});
    ExportedAll(d, {});
    InkStrip(Body(d, {}));
    CleanWhenKept(d, {});
    FoundUnmarked(AttrsText(d, {}) + "}", map[]);
    assert forall i :: 0 <= i < |d| ==> d[i].key in AsMap(d);
  }

  /**
   A list of parsed entries with distinct keys is read back if and only if every entry prints and the outer
   ends are not whitespace.
   */
  lemma {:induction false} ListSurvives(d: Entries)
    requires SolidEntries(d) && DistinctKeys(d)
    ensures Typed(d) && (Scan(AttrsText(d, {}) + "}", map[]) == Found(AsMap(d)) <==> AllPrint(d))
  {
    SolidTyped(d);
    ExportedAll(d, {});
    if AllPrint(d) {
      PrintableMeans(d);
      AttributesRoundTrip(d, {});
    }
    if Scan(AttrsText(d, {}) + "}", map[]) == Found(AsMap(d)) {
      ListRegular(d);
      forall i | 0 <= i < |d|
        ensures Prints(d[i])
      {
        ListUnbraced(d, i);
        RegularPrints(d[i]);
      }
    }
  }

  lemma ListUnbraced(d: Entries, i: nat)
    requires RegularAll(d) && CleanEdges(d) && DistinctKeys(d) && Typed(d) && i < |d|
    requires Scan(AttrsText(d, {}) + "}", map[]).Found?
    ensures SolidEntry(d[i].key, d[i].val) && d[i].key[0] != '}'
  {
    assert SolidEntry(d[i].key, d[i].val);
    RegularEdged(d, {});
    AttrsTextJoined(d, {});
    if d[i].key[0] == '}' {
      BraceKeyEnds(d, i, map[], {});
    }
  }

  // ----- a paragraph's own list -----

  /** What is read from the list printed for the paragraph, joined with the language of its line, is the paragraph. */
  predicate ReadsBack(p: Par, ignored: set<string>, lang: string)
    requires WellTyped(p)
  {
    var r := Scan(AttrText(p, ignored, false) + "}", map[]);
    r.Found? && TokensMatch(r.tokens + LanguageInfo(lang), p, ignored)
  }

  /** The keys that the language of the line supplies. */
  function Supplied(lang: string): set<string> {
    if lang == "" then {} else {"code_lang"}
  }

  /** What must be read from the list itself. */
  function Wanted(p: Par, ignored: set<string>, lang: string): Entries {
    Exported(p.attrs, Supplied(lang)) + Builtins(p, ignored, false)
  }

  lemma {:induction false} CostsAppend(d: Entries, e: Entries)
    ensures Costs(d + e) == Costs(d) + Costs(e)
  {
    if d == [] {
      assert d + e == e;
    } else {
      AppendTail(d, e);
      CostsAppend(d[1..], e);
    }
  }

  lemma BuiltinsSolid(p: Par, ignored: set<string>)
    requires NoBreaks(p.id) && NoBreaks(p.t)
    ensures SolidEntries(Builtins(p, ignored, false)) && DistinctKeys(Builtins(p, ignored, false))
    ensures forall e :: e in Builtins(p, ignored, false) ==> e.key in {"id", "t"} - ignored
  {
  }

  lemma {:induction false} WantedSolid(b: Block, p: Par, ignored: set<string>, lang: string)
    requires SolidBlock(b) && OwnPar(b, p)
    ensures SolidEntries(Wanted(p, ignored, lang)) && DistinctKeys(Wanted(p, ignored, lang))
  {
    var e, m := Exported(p.attrs, Supplied(lang)), Builtins(p, ignored, false);
    OwnEntries(b, p);
    ExportedSolid(p.attrs, Supplied(lang));
    ExportedDistinct(p.attrs, Supplied(lang));
    BuiltinsSolid(p, ignored);
    HasKeyExported(p.attrs, Supplied(lang), "id");
    HasKeyExported(p.attrs, Supplied(lang), "t");
    DistinctAppend(e, m);
  }

  lemma DistinctAppend(d: Entries, e: Entries)
    requires DistinctKeys(d) && DistinctKeys(e) && !HasKey(d, "id") && !HasKey(d, "t")
    requires forall x :: x in e ==> x.key in {"id", "t"}
    ensures DistinctKeys(d + e)
  {
    forall i, j | 0 <= i < |d| && 0 <= j < |e|
      ensures d[i].key != e[j].key
    {
      assert e[j] in e;
    }
  }

  /** The list itself has everything that is wanted of it. */
  lemma {:induction false} WantedHeld(b: Block, p: Par, ignored: set<string>, lang: string, m: Tokens)
    requires SolidBlock(b) && OwnPar(b, p) && TokensMatch(m + LanguageInfo(lang), p, ignored)
    ensures forall i :: 0 <= i < |Wanted(p, ignored, lang)| ==> Holds(m, Wanted(p, ignored, lang)[i])
  {
    var e, x := Exported(p.attrs, Supplied(lang)), Builtins(p, ignored, false);
    ExportedMembers(p.attrs, Supplied(lang));
    ApplyHolds(map[], p.attrs);
    forall i | 0 <= i < |e|
      ensures Holds(m, e[i])
    {
      assert e[i] in p.attrs && e[i].key in m + LanguageInfo(lang) - {"id", "t"};
    }
    BuiltinsHeld(p, ignored, lang, m);
  }

  lemma BuiltinsHeld(p: Par, ignored: set<string>, lang: string, m: Tokens)
    requires TokensMatch(m + LanguageInfo(lang), p, ignored)
    ensures forall i :: 0 <= i < |Builtins(p, ignored, false)| ==> Holds(m, Builtins(p, ignored, false)[i])
  {
  }

  /** The ink of the printed list. */
  lemma {:induction false} ListInk(b: Block, p: Par, ignored: set<string>, lang: string)
    requires SolidBlock(b) && OwnPar(b, p) && WriterIgnores(ignored)
    ensures WellTyped(p)
    ensures Ink(AttrText(p, ignored, false)) <=
            Ink(Strip(Body(p.attrs, ignored))) + Costs(Builtins(p, ignored, false))
  {
    OwnEntries(b, p);
    var e, m := Strip(Body(p.attrs, ignored)), Builtins(p, ignored, false);
    DictBody(p, ignored);
    BuiltinsSolid(p, ignored);
    BodyInk(m, ignored, {});
    ExportedAll(m, {});
    InkStrip(e + " " + Body(m, ignored));
    InkThree(e, " ", Body(m, ignored));
    InkOne(' ');
  }

  /** If everything wanted is read, nothing is lost in printing. */
  lemma {:induction false} ReadMeansPrinted(b: Block, p: Par, ignored: set<string>, lang: string)
    requires SolidBlock(b) && OwnPar(b, p) && WriterIgnores(ignored)
    requires WellTyped(p) && ReadsBack(p, ignored, lang)
    ensures PrintedAll(p.attrs, ignored, Supplied(lang))
    ensures Ink(Strip(Body(p.attrs, ignored))) == Ink(Body(p.attrs, ignored))
  {
    var list := AttrText(p, ignored, false);
    var e, m := Exported(p.attrs, Supplied(lang)), Builtins(p, ignored, false);
    OwnEntries(b, p);
    WantedSolid(b, p, ignored, lang);
    WantedHeld(b, p, ignored, lang, Scan(list + "}", map[]).tokens);
    CollectedCosts(e + m, list);
    CostsAppend(e, m);
    ListInk(b, p, ignored, lang);
    InkStrip(Body(p.attrs, ignored));
    BodyInk(p.attrs, ignored, Supplied(lang));
  }

  lemma LanguageSupplied(b: Block, p: Par, ignored: set<string>, lang: string, m: Tokens)
    requires SolidBlock(b) && OwnPar(b, p) && TokensMatch(m + LanguageInfo(lang), p, ignored)
    requires forall i :: 0 <= i < |p.attrs| && p.attrs[i].key in ignored ==> p.attrs[i].key in Supplied(lang)
    ensures LanguageIs(p, ignored, lang)
  {
    ApplyHolds(map[], p.attrs);
    if lang != "" {
      var all := m + LanguageInfo(lang);
      assert all["code_lang"] == Str(lang) && "code_lang" in all - {"id", "t"};
      assert forall i :: 0 <= i < |p.attrs| ==> AsMap(p.attrs)[p.attrs[i].key] == p.attrs[i].val;
    }
  }

  lemma RegularAppend(d: Entries, e: Entries)
    requires RegularAll(d) && RegularAll(e)
    ensures RegularAll(d + e)
  {
  }

  lemma BuiltinsRegular(p: Par, ignored: set<string>)
    requires NoBreaks(p.id) && NoBreaks(p.t)
    ensures RegularAll(Builtins(p, ignored, false))
  {
    BuiltinsSolid(p, ignored);
  }

  /** The printed entries. */
  lemma {:induction false} RegularRead(b: Block, p: Par, ignored: set<string>, lang: string)
    requires SolidBlock(b) && OwnPar(b, p) && WriterIgnores(ignored)
    requires WellTyped(p) && ReadsBack(p, ignored, lang)
    ensures RegularAll(Exported(p.attrs, ignored)) && CleanEdges(Exported(p.attrs, ignored))
  {
    var e := Exported(p.attrs, ignored);
    OwnEntries(b, p);
    ReadMeansPrinted(b, p, ignored, lang);
    ExportedSolid(p.attrs, ignored);
    ExportedKeeps(p.attrs, ignored);
    ExportedRegular(p.attrs, ignored, Supplied(lang));
    ExportedBody(p.attrs, ignored);
    CleanWhenKept(e, ignored);
    KeysUnmarked(b, p, ignored, lang);
  }

  lemma ExportedBody(d: Entries, ignored: set<string>)
    requires Typed(d)
    ensures Typed(Exported(d, ignored)) && Body(Exported(d, ignored), ignored) == Body(d, ignored)
  {
    ExportedTexts(d, ignored);
    BodySpaced(d, ignored);
    BodySpaced(Exported(d, ignored), ignored);
  }

  lemma ExportedRegular(d: Entries, ignored: set<string>, unwanted: set<string>)
    requires PrintedAll(d, ignored, unwanted)
    ensures forall i :: 0 <= i < |Exported(d, ignored)| ==> Regular(Exported(d, ignored)[i])
  {
    var e := Exported(d, ignored);
    ExportedMembers(d, ignored);
    forall i | 0 <= i < |e|
      ensures Regular(e[i])
    {
      assert e[i] in d && e[i] in e;
    }
  }

  /** The keys that are read begin with no mark. */
  lemma {:induction false} KeysUnmarked(b: Block, p: Par, ignored: set<string>, lang: string)
    requires SolidBlock(b) && OwnPar(b, p) && WriterIgnores(ignored)
    requires WellTyped(p) && ReadsBack(p, ignored, lang)
    ensures forall i :: 0 <= i < |Exported(p.attrs, ignored)| ==>
              Exported(p.attrs, ignored)[i].key != "" && !Marks(Exported(p.attrs, ignored)[i].key[0])
  {
    var list := AttrText(p, ignored, false) + "}";
    var e := Exported(p.attrs, ignored);
    FoundUnmarked(list, map[]);
    ExportedMembers(p.attrs, ignored);
    ApplyHolds(map[], p.attrs);
    forall i | 0 <= i < |e|
      ensures e[i].key in Scan(list, map[]).tokens
    {
      assert e[i] in p.attrs && e[i] in e;
      assert e[i].key in Scan(list, map[]).tokens + LanguageInfo(lang) - {"id", "t"};
    }
  }

  lemma RegularStays(b: Block, p: Par, ignored: set<string>)
    requires SolidBlock(b) && OwnPar(b, p) && WellTyped(p)
    requires RegularAll(Exported(p.attrs, ignored)) && CleanEdges(Exported(p.attrs, ignored))
    ensures Stays(p, ignored)
  {
    OwnEntries(b, p);
    ExportedKeeps(p.attrs, ignored);
    RegularEdged(Exported(p.attrs, ignored), ignored);
  }

  /** No exported key begins with a closing brace. */
  lemma {:induction false} NoBraceKey(b: Block, p: Par, ignored: set<string>, lang: string, i: nat)
    requires SolidBlock(b) && OwnPar(b, p) && WriterIgnores(ignored)
    requires WellTyped(p) && ReadsBack(p, ignored, lang) && i < |Exported(p.attrs, ignored)|
    ensures Exported(p.attrs, ignored)[i].key != "" && Exported(p.attrs, ignored)[i].key[0] != '}'
  {
    var e, m := Exported(p.attrs, ignored), Builtins(p, ignored, false);
    RegularRead(b, p, ignored, lang);
    RegularStays(b, p, ignored);
    FlatText(p, ignored, false);
    FlatDistinct(b, p, ignored);
    OwnEntries(b, p);
    BuiltinsRegular(p, ignored);
    RegularAppend(e, m);
    assert (e + m)[i] == e[i] && SolidEntry(e[i].key, e[i].val);
    if e[i].key[0] == '}' {
      BraceKeyEnds(e + m, i, map[], ignored);
    }
  }

  lemma FlatDistinct(b: Block, p: Par, ignored: set<string>)
    requires SolidBlock(b) && OwnPar(b, p)
    ensures var d := ParEntries(p, ignored, false);
            DistinctKeys(d) && forall k :: 0 <= k < |d| ==> d[k].key !in ignored
  {
    var e, m := Exported(p.attrs, ignored), Builtins(p, ignored, false);
    OwnEntries(b, p);
    ExportedKeeps(p.attrs, ignored);
    BuiltinsSolid(p, ignored);
    HasKeyExported(p.attrs, ignored, "id");
    HasKeyExported(p.attrs, ignored, "t");
    DistinctAppend(e, m);
    assert forall k :: 0 <= k < |m| ==> m[k] in m;
  }

  /**
   What survives: of the attributes the writer leaves out only the language that the line names, and all
   others print, with clean outer ends.
   */
  predicate Survives(p: Par, ignored: set<string>, lang: string) {
    LanguageIs(p, ignored, lang) && AllPrint(Exported(p.attrs, ignored))
  }

  lemma {:induction false} SurvivorsRead(b: Block, p: Par, ignored: set<string>, lang: string)
    requires SolidBlock(b) && OwnPar(b, p) && WriterIgnores(ignored) && Survives(p, ignored, lang)
    ensures WellTyped(p) && ReadsBack(p, ignored, lang)
  {
    OwnAttrsGood(b, p, ignored);
    ParEntriesGood(p, ignored, false);
    GoodStays(p, ignored);
    FlatText(p, ignored, false);
    var d := ParEntries(p, ignored, false);
    ExportedAll(d, ignored);
    AttributesRoundTrip(d, ignored);
    TokensRead(p, ignored, lang);
  }

  /**
   The attributes of a parsed block are read back from the list printed for it, with its id and its hash, if
   and only if they survive.
   */
  lemma {:induction false} ParsedAttributesSurvive(b: Block, p: Par, exportHashes: bool, exportIds: bool, lang: string)
    requires SolidBlock(b) && OwnPar(b, p)
    ensures var ignored := Ignored(exportHashes, exportIds);
            WellTyped(p) && (ReadsBack(p, ignored, lang) <==> Survives(p, ignored, lang))
  {
    var ignored := Ignored(exportHashes, exportIds);
    OwnEntries(b, p);
    WritersIgnore(exportHashes, exportIds);
    if Survives(p, ignored, lang) {
      SurvivorsRead(b, p, ignored, lang);
    }
    if ReadsBack(p, ignored, lang) {
      ReadersSurvive(b, p, ignored, lang);
    }
  }

  lemma {:induction false} ReadersSurvive(b: Block, p: Par, ignored: set<string>, lang: string)
    requires SolidBlock(b) && OwnPar(b, p) && WriterIgnores(ignored)
    requires WellTyped(p) && ReadsBack(p, ignored, lang)
    ensures Survives(p, ignored, lang)
  {
    var e := Exported(p.attrs, ignored);
    ReadMeansPrinted(b, p, ignored, lang);
    LanguageSupplied(b, p, ignored, lang, Scan(AttrText(p, ignored, false) + "}", map[]).tokens);
    RegularRead(b, p, ignored, lang);
    forall i | 0 <= i < |e|
      ensures Prints(e[i])
    {
      NoBraceKey(b, p, ignored, lang, i);
      assert SolidEntry(e[i].key, e[i].val);
      RegularPrints(e[i]);
    }
  }

  /** The same for every block of every text, whatever the order of its attributes. */
  lemma {:induction false} TextAttributesSurvive(text: string, i: nat, p: Par, exportHashes: bool, exportIds: bool,
                                                 lang: string)
    requires var r := ParseText(text, WHOLE_DOCUMENT); r.Ok? && i < |r.value| && OwnPar(r.value[i], p)
    ensures var ignored := Ignored(exportHashes, exportIds);
            WellTyped(p) && (ReadsBack(p, ignored, lang) <==> Survives(p, ignored, lang))
  {
    WholeIsSplit(text);
    TextSolid(text, false, i);
    ParsedAttributesSurvive(ParseText(text, WHOLE_DOCUMENT).value[i], p, exportHashes, exportIds, lang);
  }

  // ----- the line that the list is written to -----

  predicate NoBraces(s: string) {
    forall i :: 0 <= i < |s| ==> s[i] != '{'
  }

  /** The line is read with the attributes, the id and the hash of the paragraph. */
  predicate LineReads(line: string, p: Par, ignored: set<string>) {
    GetAttributes(line).Ok? && TokensMatch(GetAttributes(line).value.tokens, p, ignored)
  }

  /** The ink of the printed list is no more than its paragraph needs. */
  lemma {:induction false} ListCosts(b: Block, p: Par, ignored: set<string>, lang: string)
    requires SolidBlock(b) && OwnPar(b, p) && WriterIgnores(ignored)
    ensures WellTyped(p) && Ink(AttrText(p, ignored, false)) <= Costs(Wanted(p, ignored, lang))
  {
    OwnEntries(b, p);
    ListInk(b, p, ignored, lang);
    InkStrip(Body(p.attrs, ignored));
    BodyInk(p.attrs, ignored, Supplied(lang));
    CostsAppend(Exported(p.attrs, Supplied(lang)), Builtins(p, ignored, false));
  }

  /** Behind a later brace there is less ink. */
  lemma InkBehind(r: string, j: nat)
    requires j < |r| && r[j] == '{'
    ensures Ink(r[j + 1..]) < Ink(r)
  {
    InkSplit(r, j);
    assert r[j..][1..] == r[j + 1..];
  }

  /** Behind a brace inside the printed list there is not what the paragraph needs. */
  lemma {:induction false} NoLaterList(b: Block, p: Par, ignored: set<string>, lang: string, list: string, j: nat,
                                       t: Tokens)
    requires SolidBlock(b) && OwnPar(b, p) && WriterIgnores(ignored) && WellTyped(p)
    requires list == AttrText(p, ignored, false) + "}" && j < |list| && list[j] == '{'
    requires Scan(list[j + 1..], map[]) == Found(t)
    ensures !TokensMatch(t + LanguageInfo(lang), p, ignored)
  {
    if TokensMatch(t + LanguageInfo(lang), p, ignored) {
      WantedSolid(b, p, ignored, lang);
      WantedHeld(b, p, ignored, lang, t);
      ScanNeeds(Wanted(p, ignored, lang), list[j + 1..], map[]);
      NothingCollected(Wanted(p, ignored, lang));
      ListCosts(b, p, ignored, lang);
      InkBehind(list, j);
      InkAppend(AttrText(p, ignored, false), "}");
      InkOne('}');
    }
  }

  /** What is read on a line whose first brace is the one of a printed list. */
  lemma {:induction false} ListWhere(line: string, n: nat) returns (r: ListResult)
    requires n < |line| && line[n] == '{' && NoBraces(line[..n])
    ensures Yields(line, r)
    ensures var list := Scan(line[n + 1..], map[]);
            if list.NoList? then r == FirstList(line, n + 1)
            else r == if list.Found? then ListAt(list.tokens, n) else ListRaised(list.error)
  {
    r := FirstList(line, 0);
    LineYields(line);
    assert forall i :: 0 <= i < n ==> line[..n][i] == line[i];
    FirstListSkips(line, 0, n);
    if Scan(line[n + 1..], map[]).NoList? {
      SkipsOne(line, n);
    } else {
      ListHere(line, n);
    }
  }

  lemma InDropped<T>(s: seq<T>, n: nat, j: nat, at: nat)
    requires n + j == at < |s|
    ensures s[n..][j] == s[at] && s[n..][j + 1..] == s[at + 1..]
  {
  }

  lemma CarrierParts(first: string, list: string)
    requires NoBraces(first)
    ensures var line, n := first + " {" + list, |first| + 1;
            n < |line| && line[n] == '{' && NoBraces(line[..n]) && line[n + 1..] == list
  {
    assert (first + " {" + list)[..|first| + 1] == first + " ";
  }

  /** If no list is read, the paragraph needs none, so all of it survives. */
  lemma {:induction false} NothingRead(b: Block, p: Par, ignored: set<string>, lang: string)
    requires SolidBlock(b) && OwnPar(b, p) && WriterIgnores(ignored) && TokensMatch(LanguageInfo(lang), p, ignored)
    ensures Survives(p, ignored, lang)
  {
    var none: Tokens := map[];
    assert none + LanguageInfo(lang) == LanguageInfo(lang);
    NoneHeld(Wanted(p, ignored, lang));
    WantedHeld(b, p, ignored, lang, none);
    OnlySupplied(p.attrs, Supplied(lang));
    LanguageSupplied(b, p, ignored, lang, none);
    AllIgnored(p.attrs, ignored);
  }

  lemma NoneHeld(d: Entries)
    ensures d == [] || !Holds(map[], d[0])
  {
  }

  lemma {:induction false} OnlySupplied(d: Entries, ks: set<string>)
    requires Exported(d, ks) == []
    ensures forall i :: 0 <= i < |d| ==> d[i].key in ks
  {
    if d != [] {
      OnlySupplied(d[1..], ks);
      assert forall i :: 1 <= i < |d| ==> d[i] == d[1..][i - 1];
    }
  }

  lemma {:induction false} AllIgnored(d: Entries, ignored: set<string>)
    requires forall i :: 0 <= i < |d| ==> d[i].key in ignored
    ensures Exported(d, ignored) == []
  {
    if d != [] {
      AllIgnored(d[1..], ignored);
    }
  }

  /**
   A written line is read as its paragraph if and only if the attributes of the paragraph survive, for every
   first line without braces, with or without a language, and also if the printed list is empty.
   */
  lemma {:induction false} LineSurvives(b: Block, p: Par, first: string, exportHashes: bool, exportIds: bool)
    requires SolidBlock(b) && OwnPar(b, p) && first != "" && Trimmed(first) && NoBraces(first)
    ensures var ignored := Ignored(exportHashes, exportIds);
            WellTyped(p) && (LineReads(WithList(first, AttrText(p, ignored, false)), p, ignored) <==>
                             Survives(p, ignored, Language(first)))
  {
    var ignored := Ignored(exportHashes, exportIds);
    OwnEntries(b, p);
    WritersIgnore(exportHashes, exportIds);
    ParsedAttributesSurvive(b, p, exportHashes, exportIds, Language(first));
    if AttrText(p, ignored, false) == "" {
      Plainly(first);
      EmptyRead(p, ignored, Language(first));
    } else {
      ListedLine(b, p, first, ignored);
    }
  }

  lemma EmptyRead(p: Par, ignored: set<string>, lang: string)
    requires WellTyped(p) && AttrText(p, ignored, false) == ""
    ensures ReadsBack(p, ignored, lang) <==> TokensMatch(LanguageInfo(lang), p, ignored)
  {
    var none: Tokens := map[];
    ScanCloses(none);
    assert "" + "}" == "}" && none + LanguageInfo(lang) == LanguageInfo(lang);
  }

  lemma {:induction false} ListedLine(b: Block, p: Par, first: string, ignored: set<string>)
    requires SolidBlock(b) && OwnPar(b, p) && WellTyped(p) && WriterIgnores(ignored)
    requires first != "" && Trimmed(first) && NoBraces(first)
    requires ReadsBack(p, ignored, Language(first)) <==> Survives(p, ignored, Language(first))
    ensures LineReads(CarrierText(first, AttrText(p, ignored, false)), p, ignored) <==>
            Survives(p, ignored, Language(first))
  {
    var attrs := AttrText(p, ignored, false);
    var list := attrs + "}";
    var line := first + " {" + list;
    Assoc(first + " {", attrs, "}");
    CarrierParts(first, list);
    var r := ListWhere(line, |first| + 1);
    LanguageOfPrefix(first, list);
    if Scan(list, map[]).NoList? {
      LaterLost(b, p, ignored, Language(first), line, |first| + 2, |first| + 2);
      LateRead(b, p, ignored, Language(first), line, r);
    }
  }

  lemma LateList(b: Block, p: Par, ignored: set<string>, lang: string, line: string, n: nat, at: nat, t: Tokens)
    requires SolidBlock(b) && OwnPar(b, p) && WellTyped(p) && WriterIgnores(ignored)
    requires n <= at < |line| && line[n..] == AttrText(p, ignored, false) + "}"
    requires line[at] == '{' && Scan(line[at + 1..], map[]) == Found(t)
    ensures !TokensMatch(t + LanguageInfo(lang), p, ignored)
  {
    var j := at - n;
    InDropped(line, n, j, at);
    NoLaterList(b, p, ignored, lang, line[n..], j, t);
  }

  /** The list that is found, if any, does not give back the paragraph. */
  predicate Lost(r: ListResult, p: Par, ignored: set<string>, lang: string) {
    r.ListAt? ==> !TokensMatch(r.tokens + LanguageInfo(lang), p, ignored)
  }

  lemma LostHere(b: Block, p: Par, ignored: set<string>, lang: string, line: string, n: nat, i: nat)
    requires SolidBlock(b) && OwnPar(b, p) && WellTyped(p) && WriterIgnores(ignored)
    requires n <= i < |line| && line[n..] == AttrText(p, ignored, false) + "}"
    requires line[i] == '{' && Scan(line[i + 1..], map[]) != NoList
    ensures Lost(FirstList(line, i), p, ignored, lang)
  {
    ListHere(line, i);
    if Scan(line[i + 1..], map[]).Found? {
      LateList(b, p, ignored, lang, line, n, i, Scan(line[i + 1..], map[]).tokens);
    }
  }

  lemma {:induction false} LaterLost(b: Block, p: Par, ignored: set<string>, lang: string, line: string, n: nat,
                                     i: nat)
    requires SolidBlock(b) && OwnPar(b, p) && WellTyped(p) && WriterIgnores(ignored)
    requires n <= i <= |line| && line[n..] == AttrText(p, ignored, false) + "}"
    ensures Lost(FirstList(line, i), p, ignored, lang)
    decreases |line| - i
  {
    if i < |line| {
      if line[i] == '{' && Scan(line[i + 1..], map[]) != NoList {
        LostHere(b, p, ignored, lang, line, n, i);
      } else {
        SkipsOne(line, i);
        LaterLost(b, p, ignored, lang, line, n, i + 1);
      }
    }
  }

  /** If the printed list is not read as a list, only an empty paragraph can be read. */
  lemma LateRead(b: Block, p: Par, ignored: set<string>, lang: string, line: string, r: ListResult)
    requires SolidBlock(b) && OwnPar(b, p) && WellTyped(p) && WriterIgnores(ignored)
    requires Yields(line, r) && Lost(r, p, ignored, lang) && CodeInfo(line) == LanguageInfo(lang)
    ensures LineReads(line, p, ignored) ==> Survives(p, ignored, lang)
  {
    if r.Nowhere? {
      LateNone(b, p, ignored, lang, line);
    }
  }

  lemma LateNone(b: Block, p: Par, ignored: set<string>, lang: string, line: string)
    requires SolidBlock(b) && OwnPar(b, p) && WellTyped(p) && WriterIgnores(ignored)
    requires GetAttributes(line) == Ok(Attributes(LanguageInfo(lang), None))
    ensures LineReads(line, p, ignored) ==> Survives(p, ignored, lang)
  {
    if TokensMatch(LanguageInfo(lang), p, ignored) {
      NothingRead(b, p, ignored, lang);
    }
  }

  // ----- headers with one attribute -----

  predicate PlainHeader(first: string) {
    IsHeading(first) && !StartsWith(first, "#-") && Trimmed(first) && NoBreaks(first) && NoBraces(first)
  }

  function WithAttribute(first: string, k: string, v: string): string {
    CarrierText(first, Assignment(k, v))
  }

  function AttributeBlock(first: string, k: string, v: string): Block {
    Block(first, Header, None, None, map[k := Str(v)], false)
  }

  lemma OneRead(first: string, k: string, v: string)
    requires PlainHeader(first) && PlainKey(k)
    ensures GetAttributes(WithAttribute(first, k, v)) == Ok(Attributes(map[k := Str(v)], Some(|first| + 1)))
  {
    var list := Assignment(k, v) + "}";
    PairScanned(k, v, map[]);
    NoBraceNoList(first, Assignment(k, v));
    Assoc(first + " {", Assignment(k, v), "}");
    LineWithList(first, list, map[k := Str(v)]);
    assert CodeInfo(first) == map[] && map[k := Str(v)] + map[] == map[k := Str(v)];
  }

  /** Such a header is parsed to a block of that attribute. */
  lemma {:induction false} OneParsed(first: string, k: string, v: string)
    requires PlainHeader(first) && PlainKey(k) && NoBreaks(v) && k != "id" && k != "t"
    ensures ParseText(WithAttribute(first, k, v), WHOLE_DOCUMENT) == Ok([AttributeBlock(first, k, v)])
  {
    var line := WithAttribute(first, k, v);
    EscapeNoBreaks(v);
    SplitOne(line);
    WholeIsSplit(line);
    HeaderFirst(first, Assignment(k, v));
    HeadingChunk(line, []);
    assert [line] + [] == [line];
    OneRead(first, k, v);
    CarrierFirst(first, Assignment(k, v));
    HeaderAlone(first);
    HeadingOf(first, line, map[k := Str(v)]);
    ChunksProper([line], false);
    OneBlock(Heading(line, []));
  }

  lemma HeadingOf(first: string, line: string, t: Tokens)
    requires IsHeading(line) && !StartsWith(line, "#-") && "id" !in t && "t" !in t
    requires GetAttributes(line) == Ok(Attributes(t, Some(|first| + 1))) && FirstLine(line, Some(|first| + 1)) == first
    requires StripMd(first + "\n" + JoinLines([])) == first
    ensures ToBlock(Heading(line, [])) == Ok(Block(first, Header, None, None, t, false))
  {
    assert t - {"id", "t"} == t;
  }

  lemma HeaderAlone(first: string)
    requires PlainHeader(first)
    ensures StripMd(first + "\n" + JoinLines([])) == first
  {
    assert first + "\n" + "" == first + "\n";
    RStripAppend(first, "\n");
  }

  /** When the attribute survives. */
  predicate OneSurvives(k: string, v: string, ignored: set<string>)
    requires k != ""
  {
    k !in ignored && k != "classes" && if k == "taskId" then PlainName(v) && !IsSpace(v[|v| - 1]) else !IsSpace(k[0])
  }

  /** A header with one attribute: what it is parsed to, and when its own paragraph gives the attribute back. */
  lemma OneAttribute(first: string, k: string, v: string, p: Par, exportHashes: bool, exportIds: bool)
    requires PlainHeader(first) && PlainKey(k) && NoBreaks(v) && k != "id" && k != "t"
    requires p.md == first && p.attrs == [Entry(k, Str(v))] && NoBreaks(p.id) && NoBreaks(p.t)
    ensures ParseText(WithAttribute(first, k, v), WHOLE_DOCUMENT) == Ok([AttributeBlock(first, k, v)])
    ensures OwnPar(AttributeBlock(first, k, v), p) && WellTyped(p)
    ensures var ignored := Ignored(exportHashes, exportIds); ReadsBack(p, ignored, "") <==> OneSurvives(k, v, ignored)
  {
    OneParsed(first, k, v);
    OneBack(first, k, v, p, exportHashes, exportIds);
  }

  lemma OneBack(first: string, k: string, v: string, p: Par, exportHashes: bool, exportIds: bool)
    requires PlainKey(k) && NoBreaks(v) && k != "id" && k != "t"
    requires p.md == first && p.attrs == [Entry(k, Str(v))] && NoBreaks(p.id) && NoBreaks(p.t)
    ensures OwnPar(AttributeBlock(first, k, v), p) && WellTyped(p)
    ensures var ignored := Ignored(exportHashes, exportIds); ReadsBack(p, ignored, "") <==> OneSurvives(k, v, ignored)
  {
    OneOwned(first, k, v, p);
    ParsedAttributesSurvive(AttributeBlock(first, k, v), p, exportHashes, exportIds, "");
    OneExported(p, k, v, Ignored(exportHashes, exportIds));
  }

  lemma OneOwned(first: string, k: string, v: string, p: Par)
    requires PlainKey(k) && NoBreaks(v) && k != "id" && k != "t"
    requires p.md == first && p.attrs == [Entry(k, Str(v))] && NoBreaks(p.id) && NoBreaks(p.t)
    ensures SolidBlock(AttributeBlock(first, k, v)) && OwnPar(AttributeBlock(first, k, v), p)
  {
    assert p.attrs[1..] == [];
    assert Apply(map[], p.attrs) == Apply(map[][k := Str(v)], []);
  }

  lemma OneExported(p: Par, k: string, v: string, ignored: set<string>)
    requires p.attrs == [Entry(k, Str(v))] && PlainKey(k) && NoBreaks(v) && "taskId" !in ignored
    ensures Survives(p, ignored, "") <==> OneSurvives(k, v, ignored)
  {
    assert p.attrs[1..] == [];
    assert Exported(p.attrs, ignored) == if k in ignored then [] else p.attrs;
  }

  function OnePar(k: string, v: string): Par {
    Par([Entry(k, Str(v))], "", "# x", "")
  }

  lemma XIsPlain()
    ensures PlainHeader("# x")
  {
    assert "# x"[1] == ' ' && "#-"[1] == '-';
  }

  /** The header `# x {h="1"}` loses its attribute: the writer leaves `h` out. */
  lemma IgnoredLost()
    ensures WithAttribute("# x", "h", "1") == "# x {h=\"1\"}" && WellTyped(OnePar("h", "1"))
    ensures !ReadsBack(OnePar("h", "1"), Ignored(false, true), "")
  {
    XIsPlain();
    OneAttribute("# x", "h", "1", OnePar("h", "1"), false, true);
    HText();
  }

  lemma HText()
    ensures WithAttribute("# x", "h", "1") == "# x {h=\"1\"}"
  {
    assert "1"[1..] == "";
    assert Escape("1") == "1" + "" == "1";
  }

  /** A task id with a space, given as a value, is not read back from `#a b`. */
  lemma SpacedTaskLost()
    ensures WellTyped(OnePar("taskId", "a b"))
    ensures !ReadsBack(OnePar("taskId", "a b"), Ignored(false, true), "")
  {
    XIsPlain();
    OneAttribute("# x", "taskId", "a b", OnePar("taskId", "a b"), false, true);
    assert "a b"[1] == ' ';
  }

  /** Classes given as a text of two characters are not read back as that text. */
  lemma TextClassesLost()
    ensures WellTyped(OnePar("classes", "ab"))
    ensures !ReadsBack(OnePar("classes", "ab"), Ignored(false, true), "")
  {
    XIsPlain();
    OneAttribute("# x", "classes", "ab", OnePar("classes", "ab"), false, true);
  }

  /** They are printed character by character and come back as a list of two classes. */
  lemma TextClassesSplit()
    ensures var d := [Entry("classes", Str("ab"))];
            && Typed(d) && AttrsText(d, {}) == ".a .b"
            && Scan(AttrsText(d, {}) + "}", map[]) == Found(map["classes" := Names(["a", "b"])])
  {
    var d := [Entry("classes", Str("ab"))];
    TwoChars();
    TwoNames();
    NamesRead(["a", "b"]);
    assert Typed(d) && d[1..] == [];
    assert Body(d, {}) == ".a .b" + " " + "" == "" + ".a .b" + " ";
    StripPadded("", ".a .b", " ");
  }

  lemma TwoChars()
    ensures Chars("ab") == ["a", "b"]
  {
    assert "ab"[1..] == "b" && "b"[1..] == "";
  }

  lemma TwoNames()
    ensures Dotted(["a", "b"]) == ".a .b"
  {
    assert ["a", "b"][1..] == ["b"];
    assert Dotted(["a", "b"]) == "." + "a" + " " + ("." + "b");
  }

  /** Class names are read as the list of them. */
  lemma NamesRead(names: seq<string>)
    requires names != [] && forall i :: 0 <= i < |names| ==> NameText(names[i]) && NoBreaks(names[i])
    ensures Scan(Dotted(names) + "}", map[]) == Found(map["classes" := Names(names)])
  {
    assert [] + names == names;
    ScanClasses([], names, "}", map[]);
    ScanCloses(map["classes" := Names(names)]);
  }

  /** A key that begins with a tab survives in the list, but not at its beginning. */
  lemma TabSurvivesInside()
    ensures var d := [Entry("a", Str("1")), Entry("\tb", Str("2"))];
            Typed(d) && Scan(AttrsText(d, {}) + "}", map[]) == Found(AsMap(d))
    ensures var d := [Entry("\tb", Str("2")), Entry("a", Str("1"))];
            Typed(d) && Scan(AttrsText(d, {}) + "}", map[]) != Found(AsMap(d))
  {
    TwoPairs("a", "1", "\tb", "2");
    TwoPairs("\tb", "2", "a", "1");
  }

  lemma TwoPairs(a: string, x: string, b: string, y: string)
    requires PlainKey(a) && PlainKey(b) && a != b && NoBreaks(x) && NoBreaks(y)
    requires a !in {"taskId", "classes"} && b !in {"taskId", "classes"}
    ensures var d := [Entry(a, Str(x)), Entry(b, Str(y))];
            Typed(d) && (Scan(AttrsText(d, {}) + "}", map[]) == Found(AsMap(d)) <==> !IsSpace(a[0]))
  {
    ListSurvives([Entry(a, Str(x)), Entry(b, Str(y))]);
  }
}
