/** What is known of attributes that were parsed, and which of them can be printed again. */
module ParsedAttributes {
  import opened Text
  import opened AttributeList
  import opened AttributePrinting
  import opened AttributeErrors
  import opened DocumentFormat
  import opened DocumentWriting
  import opened CodeBlocks
  import opened ParagraphAttributes

  // ----- what parsing guarantees -----

  /** Texts everywhere but under `classes`, where there may be a list of classes instead. */
  predicate SolidEntry(k: string, v: AttrVal) {
    && KeyText(k) && NoBreaks(k)
    && match v
       case Str(text) => NoBreaks(text)
       case Names(names) => k == "classes" && names != [] && forall i :: 0 <= i < |names| ==> PlainName(names[i])
       case _ => false
  }

  predicate SolidTokens(t: Tokens) {
    forall k :: k in t ==> SolidEntry(k, t[k])
  }

  lemma TailUnbroken(rest: string, r: string)
    requires TailOf(rest, r) && NoBreaks(r)
    ensures NoBreaks(rest)
  {
  }

  lemma MarkedSolid(r: string, mark: char)
    requires r != "" && NoBreaks(r)
    ensures var (name, rest) := Marked(r, mark);
            NoBreaks(rest) && (name.Some? && name.value != "" ==> PlainName(name.value))
  {
    MarkedTail(r, mark);
    TailUnbroken(Marked(r, mark).1, r);
    assert forall i :: 0 <= i < |r| - 1 ==> r[1..][i] == r[i + 1];
  }

  lemma {:induction false} QuotedSolid(r: string)
    requires NoBreaks(r)
    ensures Quoted(r).Closed? ==> NoBreaks(Quoted(r).value)
  {
    if r != "" && r[0] != '"' {
      if r[0] != '\\' {
        QuotedSolid(r[1..]);
      } else if |r| > 1 && NeedsEscape(r[1]) {
        QuotedSolid(r[2..]);
      }
    }
  }

  lemma PairSolid(r: string)
    requires NoBreaks(r) && KeyValue(r).Pair?
    ensures var pair := KeyValue(r);
            KeyText(pair.key) && NoBreaks(pair.key) && NoBreaks(pair.value) && NoBreaks(pair.rest)
  {
    AfterPairTail(r);
    TailUnbroken(KeyValue(r).rest, r);
    PairReads(r);
    AssignedSolid(r[..KeyLength(r)], r[KeyLength(r) + 1..]);
  }

  lemma AssignedSolid(key: string, v: string)
    requires NoBreaks(v) && Assigned(key, v).Pair?
    ensures NoBreaks(Assigned(key, v).value)
  {
    if v != "" && v[0] == '"' {
      QuotedSolid(v[1..]);
    }
  }

  lemma SolidMore(t: Tokens, k: string, v: AttrVal)
    requires SolidTokens(t) && SolidEntry(k, v)
    ensures SolidTokens(t[k := v])
  {
  }

  lemma AddClassSolid(t: Tokens, name: string)
    requires SolidTokens(t) && PlainName(name)
    ensures AddClass(t, name).Ok? ==> SolidTokens(AddClass(t, name).value)
  {
    if AddClass(t, name).Ok? {
      if "classes" in t && t["classes"].Names? {
        SolidMore(t, "classes", Names(t["classes"].names + [name]));
      } else {
        SolidMore(t, "classes", Names([name]));
      }
    }
  }

  lemma TaskRead(r: string, t: Tokens)
    requires r != "" && NamesTask(r) && NextItem(r, t).Item?
    ensures NextItem(r, t).tokens == t["taskId" := Str(Marked(r, '#').0.value)]
  {
  }

  lemma ClassRead(r: string, t: Tokens)
    requires r != "" && !NamesTask(r) && NamesClass(r) && NextItem(r, t).Item?
    ensures AddClass(t, Marked(PastHash(r), '.').0.value) == Ok(NextItem(r, t).tokens)
  {
  }

  lemma ItemSolid(r: string, t: Tokens)
    requires r != "" && NoBreaks(r) && SolidTokens(t) && NextItem(r, t).Item?
    ensures SolidTokens(NextItem(r, t).tokens)
  {
    MarkedSolid(r, '#');
    MarkedSolid(PastHash(r), '.');
    if NamesTask(r) {
      TaskRead(r, t);
      SolidMore(t, "taskId", Str(Marked(r, '#').0.value));
    } else if NamesClass(r) {
      ClassRead(r, t);
      AddClassSolid(t, Marked(PastHash(r), '.').0.value);
    } else {
      PairRead(r, t);
      var pair := KeyValue(PastMarks(r));
      PairSolid(PastMarks(r));
      SolidMore(t, pair.key, Str(pair.value));
    }
  }

  lemma {:induction false} ScanSolid(r: string, t: Tokens)
    requires NoBreaks(r) && SolidTokens(t)
    ensures Scan(r, t).Found? ==> SolidTokens(Scan(r, t).tokens)
    decreases |r|
  {
    if HasItem(r, t) {
      ScanMore(r, t);
      SpacesTail(r);
      var r1 := SkipSpaces(r);
      TailUnbroken(r1, r);
      var item := NextItem(r1, t);
      ItemSolid(r1, t);
      ItemTail(r1, t);
      TailUnbroken(item.rest, r1);
      ScanSolid(item.rest, item.tokens);
    }
  }

  lemma {:induction false} FirstListSolid(s: string, i: nat)
    requires i <= |s| && NoBreaks(s)
    ensures FirstList(s, i).ListAt? ==> SolidTokens(FirstList(s, i).tokens)
    decreases |s| - i
  {
    if i < |s| {
      FirstListSolid(s, i + 1);
      ScanSolid(s[i + 1..], map[]);
    }
  }

  lemma LanguageSolid(s: string)
    requires NoBreaks(s)
    ensures NoBreaks(Language(s))
  {
    if s != "" && s[0] == '`' {
      var r := s[RunLength(s, '`')..];
      SpacesTail(r);
      TailUnbroken(SkipSpaces(r), r);
    }
  }

  /** The attributes of a line. */
  lemma LineSolid(s: string)
    requires NoBreaks(s) && GetAttributes(s).Ok?
    ensures SolidTokens(GetAttributes(s).value.tokens)
  {
    FirstListSolid(s, 0);
    LanguageSolid(s);
  }

  lemma SolidLess(t: Tokens, ks: set<string>)
    requires SolidTokens(t)
    ensures SolidTokens(t - ks)
  {
  }

  /**
   An id and a hash that are texts, attributes as they are parsed, and, if it is code, no mark of an atom
   and an end that was read.
   */
  predicate SolidBlock(b: Block) {
    && (b.id.Some? ==> b.id.value.Str? && NoBreaks(b.id.value.text))
    && (b.t.Some? ==> b.t.value.Str? && NoBreaks(b.t.value.text))
    && SolidTokens(b.attrs) && "id" !in b.attrs && "t" !in b.attrs
    && (b.kind == Code ==> EndIsClean(b.md).Ok? && !IsSet(b.attrs, "atom"))
    && (b.kind == Atom ==> "atom" !in b.attrs)
  }

  lemma ExtractedSolid(md: string, kind: Kind, t: Tokens)
    requires SolidTokens(t)
    ensures var b := Extracted(md, kind, t);
            && (b.id.Some? ==> b.id.value.Str? && NoBreaks(b.id.value.text))
            && (b.t.Some? ==> b.t.value.Str? && NoBreaks(b.t.value.text))
            && SolidTokens(b.attrs) && "id" !in b.attrs && "t" !in b.attrs
  {
    SolidLess(t, {"id", "t"});
  }

  lemma {:induction false} ChunkSolid(c: Chunk)
    requires Shaped(c) && ToBlock(c).Ok?
    ensures SolidBlock(ToBlock(c).value)
  {
    if c.Plain? {
      ExtractedSolid(JoinLines(c.body), AutoNormal, map[]);
    } else {
      assert ChunkLines(c)[0] == c.start;
      LineSolid(c.start);
      var t := GetAttributes(c.start).value.tokens;
      SolidLess(t, {"atom"});
      ExtractedSolid(RawBlock(c).value.md, RawBlock(c).value.kind, t);
      ExtractedSolid(RawBlock(c).value.md, RawBlock(c).value.kind, t - {"atom"});
    }
  }

  lemma {:induction false} BlocksAt(cs: seq<Chunk>, i: nat)
    requires ProperChunks(cs) && ToBlocks(cs).Ok? && i < |cs|
    ensures ToBlock(cs[i]).Ok? && |ToBlocks(cs).value| == |cs| && ToBlocks(cs).value[i] == ToBlock(cs[i]).value
  {
    BlocksCount(cs);
    if i > 0 {
      BlocksAt(cs[1..], i - 1);
    }
  }

  lemma {:induction false} BlocksCount(cs: seq<Chunk>)
    requires ProperChunks(cs) && ToBlocks(cs).Ok?
    ensures |ToBlocks(cs).value| == |cs|
  {
    if cs != [] {
      BlocksCount(cs[1..]);
    }
  }

  /** Every block of every text. */
  lemma {:induction false} TextSolid(text: string, boe: bool, i: nat)
    requires var r := SplitBlocks(SplitLines(text), boe); r.Ok? && i < |r.value|
    ensures SolidBlock(SplitBlocks(SplitLines(text), boe).value[i])
  {
    var lines := SplitLines(text);
    var cs := Chunks(lines, boe);
    ChunksProper(lines, boe);
    SplitHasNoBreaks(text);
    ChunksShaped(lines, boe);
    BlocksCount(cs);
    BlocksAt(cs, i);
    ChunkSolid(cs[i]);
  }

  // ----- what can be printed again -----

  /**
   The exceptions: keys that begin like something else, a class list given as a text, and a task id that
   is not a name.
   */
  predicate Prints(e: Entry) {
    match e.val
    case Str(text) =>
      if e.key == "taskId" then NameText(text)
      else e.key != "classes" && e.key != "" && e.key[0] != '#' && e.key[0] != '.' && e.key[0] != '}'
    case Names(names) => e.key == "classes"
    case _ => false
  }

  /** Every entry prints and stripping takes nothing from the first or the last one. */
  predicate AllPrint(d: Entries) {
    CleanEdges(d) && forall i :: 0 <= i < |d| ==> Prints(d[i])
  }

  /** The block's own paragraph; an id or a hash that it does not have yet is any text without line breaks. */
  predicate OwnPar(b: Block, p: Par) {
    && p.md == b.md && DistinctKeys(p.attrs) && AsMap(p.attrs) == b.attrs
    && (if b.id.Some? then b.id.value == Str(p.id) else NoBreaks(p.id))
    && (if b.t.Some? then b.t.value == Str(p.t) else NoBreaks(p.t))
  }

  predicate SolidEntries(d: Entries) {
    forall i :: 0 <= i < |d| ==> SolidEntry(d[i].key, d[i].val)
  }

  lemma SolidTyped(d: Entries)
    requires SolidEntries(d)
    ensures Typed(d)
  {
  }

  /** The attributes of a block in the order of its own paragraph. */
  lemma OwnEntries(b: Block, p: Par)
    requires SolidBlock(b) && OwnPar(b, p)
    ensures SolidEntries(p.attrs) && WellTyped(p) && !HasKey(p.attrs, "id") && !HasKey(p.attrs, "t")
    ensures NoBreaks(p.id) && NoBreaks(p.t)
  {
    ApplyHolds(map[], p.attrs);
    forall i | 0 <= i < |p.attrs|
      ensures SolidEntry(p.attrs[i].key, p.attrs[i].val)
    {
      assert p.attrs[i].key in b.attrs && b.attrs[p.attrs[i].key] == p.attrs[i].val;
    }
    SolidTyped(p.attrs);
  }

  lemma ExportedSolid(d: Entries, ignored: set<string>)
    requires SolidEntries(d)
    ensures SolidEntries(Exported(d, ignored))
  {
    ExportedMembers(d, ignored);
    var e := Exported(d, ignored);
    forall i | 0 <= i < |e|
      ensures SolidEntry(e[i].key, e[i].val)
    {
      assert e[i] in d;
    }
  }

  /** Of attributes that were parsed, nothing else needs to be known. */
  lemma PrintableMeans(d: Entries)
    requires SolidEntries(d)
    ensures AllPrintable(d) && CleanEdges(d) <==> AllPrint(d)
  {
    forall i | 0 <= i < |d|
      ensures Printable(d[i].key, d[i].val) <==> Prints(d[i])
    {
    }
  }

  lemma OwnAttrsGood(b: Block, p: Par, ignored: set<string>)
    requires SolidBlock(b) && OwnPar(b, p)
    ensures GoodAttrs(p, ignored) <==> AllPrint(Exported(p.attrs, ignored))
  {
    OwnEntries(b, p);
    ExportedSolid(p.attrs, ignored);
    PrintableMeans(Exported(p.attrs, ignored));
    HasKeyExported(p.attrs, ignored, "id");
    HasKeyExported(p.attrs, ignored, "t");
  }
}
