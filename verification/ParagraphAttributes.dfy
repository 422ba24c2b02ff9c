/** The attribute list printed for a whole paragraph, and what the parser makes of it. */
module ParagraphAttributes {
  import opened Text
  import opened AttributeList
  import opened AttributePrinting
  import opened DocumentWriting

  // ----- the attributes of a paragraph, flattened in the order they are printed -----

  function Only(key: string, text: string, ignored: set<string>): Entries {
    if key in ignored then [] else [Entry(key, Str(text))]
  }

  function Builtins(p: Par, ignored: set<string>, atom: bool): Entries {
    Only("id", p.id, ignored) + Only("t", p.t, ignored) + (if atom then [Entry("atom", Str("true"))] else [])
  }

  function ParEntries(p: Par, ignored: set<string>, atom: bool): Entries {
    Exported(p.attrs, ignored) + Builtins(p, ignored, atom)
  }

  /** Attributes that survive printing. */
  predicate GoodAttrs(p: Par, ignored: set<string>) {
    && WellTyped(p)
    && DistinctKeys(p.attrs)
    && AllPrintable(Exported(p.attrs, ignored)) && CleanEdges(Exported(p.attrs, ignored))
    && !HasKey(Exported(p.attrs, ignored), "id") && !HasKey(Exported(p.attrs, ignored), "t")
    && ("id" in ignored || NoBreaks(p.id)) && ("t" in ignored || NoBreaks(p.t))
  }

  /** The same for a paragraph that may get the mark of an atom: it has no attribute of that name. */
  predicate GoodFor(p: Par, ignored: set<string>, atom: bool) {
    GoodAttrs(p, ignored) && (atom ==> !HasKey(Exported(p.attrs, ignored), "atom"))
  }

  function AttrText(p: Par, ignored: set<string>, atom: bool): string
    requires WellTyped(p)
  {
    DictTyped(p);
    AttrsText(if atom then Atomized(p) else Dict(p), ignored)
  }

  /** Entries that print and parse back: plain, distinct, not ignored. */
  predicate Good(d: Entries, ignored: set<string>) {
    && Typed(d) && AllPrintable(d) && DistinctKeys(d) && CleanEdges(d)
    && forall i :: 0 <= i < |d| ==> d[i].key !in ignored
  }

  lemma GoodAppend(a: Entries, b: Entries, ignored: set<string>)
    requires Good(a, ignored) && Good(b, ignored)
    requires forall i, j :: 0 <= i < |a| && 0 <= j < |b| ==> a[i].key != b[j].key
    ensures Good(a + b, ignored)
  {
  }

  lemma OnlyGood(key: string, text: string, ignored: set<string>)
    requires key in {"id", "t", "atom"} && (key in ignored || NoBreaks(text))
    ensures Good(Only(key, text, ignored), ignored)
  {
    assert key != "taskId" && key != "classes" && PlainKey(key);
  }

  lemma {:induction false} BuiltinsGood(p: Par, ignored: set<string>, atom: bool)
    requires ("id" in ignored || NoBreaks(p.id)) && ("t" in ignored || NoBreaks(p.t))
    requires "atom" !in ignored
    ensures Good(Builtins(p, ignored, atom), ignored)
    ensures forall e :: e in Builtins(p, ignored, atom) ==> e.key in {"id", "t", "atom"}
  {
    OnlyGood("id", p.id, ignored);
    OnlyGood("t", p.t, ignored);
    OnlyGood("atom", "true", ignored);
    var a := if atom then Only("atom", "true", ignored) else [];
    GoodAppend(Only("id", p.id, ignored), Only("t", p.t, ignored), ignored);
    GoodAppend(Only("id", p.id, ignored) + Only("t", p.t, ignored), a, ignored);
  }

  lemma {:induction false} ParEntriesGood(p: Par, ignored: set<string>, atom: bool)
    requires GoodFor(p, ignored, atom) && "atom" !in ignored
    ensures Good(ParEntries(p, ignored, atom), ignored)
  {
    var e, b := Exported(p.attrs, ignored), Builtins(p, ignored, atom);
    BuiltinsGood(p, ignored, atom);
    ExportedKeeps(p.attrs, ignored);
    forall i, j | 0 <= i < |e| && 0 <= j < |b|
      ensures e[i].key != b[j].key
    {
      assert HasKey(e, e[i].key) && b[j] in b;
    }
    GoodAppend(e, b, ignored);
  }

  lemma {:induction false} ExportedAll(d: Entries, ignored: set<string>)
    requires forall i :: 0 <= i < |d| ==> d[i].key !in ignored
    ensures Exported(d, ignored) == d
  {
    if d != [] {
      ExportedAll(d[1..], ignored);
    }
  }

  lemma {:induction false} EntryTextsAppend(d: Entries, e: Entries, ignored: set<string>)
    requires Typed(d) && Typed(e)
    ensures Typed(d + e)
    ensures EntryTexts(d + e, ignored) == EntryTexts(d, ignored) + EntryTexts(e, ignored)
  {
    if d == [] {
      assert d + e == e;
    } else {
      AppendTail(d, e);
      assert Typed([d[0]]);
      EntryTextsAppend(d[1..], e, ignored);
      Assoc(if d[0].key in ignored then [] else [EntryText(d[0].key, d[0].val, ignored)],
            EntryTexts(d[1..], ignored), EntryTexts(e, ignored));
    }
  }

  lemma {:induction false} BodyAppend(d: Entries, e: Entries, ignored: set<string>)
    requires Typed(d) && Typed(e)
    ensures Typed(d + e)
    ensures Body(d + e, ignored) == Body(d, ignored) + Body(e, ignored)
  {
    if d == [] {
      assert d + e == e;
    } else {
      AppendTail(d, e);
      assert Typed([d[0]]);
      BodyAppend(d[1..], e, ignored);
      Assoc(if d[0].key in ignored then "" else EntryText(d[0].key, d[0].val, ignored) + " ",
            Body(d[1..], ignored), Body(e, ignored));
    }
  }

  lemma BodyOne(key: string, text: string, ignored: set<string>)
    requires key != "classes"
    ensures Typed([Entry(key, Str(text))]) && Typed(Only(key, text, ignored))
    ensures Body([Entry(key, Str(text))], ignored) == Body(Only(key, text, ignored), ignored)
    ensures key in ignored ==> Body([Entry(key, Str(text))], ignored) == ""
  {
    assert [Entry(key, Str(text))][1..] == [];
  }

  /** The body printed for a whole paragraph: the nested list, a space, and the built-in attributes. */
  lemma {:induction false} DictBody(p: Par, ignored: set<string>)
    requires WellTyped(p) && "md" in ignored && "attrs" !in ignored
    ensures Typed(Dict(p)) && Typed(Builtins(p, ignored, false))
    ensures Body(Dict(p), ignored) ==
            Strip(Body(p.attrs, ignored)) + " " + Body(Builtins(p, ignored, false), ignored)
  {
    var a, i, m, t := [Entry("attrs", Nested(p.attrs))], [Entry("id", Str(p.id))],
                      [Entry("md", Str(p.md))], [Entry("t", Str(p.t))];
    BodyOne("id", p.id, ignored);
    BodyOne("md", p.md, ignored);
    BodyOne("t", p.t, ignored);
    BodyAppend(i, m, ignored);
    BodyAppend(i + m, t, ignored);
    BodyAppend(a, i + m + t, ignored);
    BodyAppend(Only("id", p.id, ignored), Only("t", p.t, ignored), ignored);
    NestedBody(p.attrs, ignored);
    assert Dict(p) == a + (i + m + t);
    assert Builtins(p, ignored, false) == Only("id", p.id, ignored) + Only("t", p.t, ignored);
  }

  lemma NestedBody(d: Entries, ignored: set<string>)
    requires Typed(d) && "attrs" !in ignored
    ensures Typed([Entry("attrs", Nested(d))])
    ensures Body([Entry("attrs", Nested(d))], ignored) == Strip(Body(d, ignored)) + " "
  {
    assert [Entry("attrs", Nested(d))][1..] == [];
  }

  /** The same with the mark of an atom. */
  lemma {:induction false} AtomizedBody(p: Par, ignored: set<string>)
    requires WellTyped(p) && "md" in ignored && "attrs" !in ignored
    ensures Typed(Atomized(p)) && Typed(Builtins(p, ignored, true))
    ensures Body(Atomized(p), ignored) ==
            Strip(Body(p.attrs, ignored)) + " " + Body(Builtins(p, ignored, true), ignored)
  {
    var atom := [Entry("atom", Str("true"))];
    var b := Builtins(p, ignored, false);
    DictBody(p, ignored);
    BodyOne("atom", "true", ignored);
    BodyAppend(Dict(p), atom, ignored);
    BodyAppend(b, atom, ignored);
    BuiltinsAtom(p, ignored);
    Assoc(Strip(Body(p.attrs, ignored)) + " ", Body(b, ignored), Body(atom, ignored));
  }

  lemma BuiltinsAtom(p: Par, ignored: set<string>)
    ensures Builtins(p, ignored, true) == Builtins(p, ignored, false) + [Entry("atom", Str("true"))]
  {
  }

  /** The entries of the paragraph itself print to nonempty texts whose outer ends are not whitespace. */
  predicate Stays(p: Par, ignored: set<string>)
    requires WellTyped(p)
  {
    && Solid(EntryTexts(p.attrs, ignored)) && Edged(EntryTexts(p.attrs, ignored))
    && ("id" in ignored || NoBreaks(p.id)) && ("t" in ignored || NoBreaks(p.t))
  }

  lemma GoodStays(p: Par, ignored: set<string>)
    requires GoodAttrs(p, ignored)
    ensures Stays(p, ignored)
  {
    EntriesSolid(p.attrs, ignored);
    EntriesEdged(p.attrs, ignored);
  }

  /** Nesting does not show: the printed list is that of the flattened entries. */
  lemma {:induction false} FlatText(p: Par, ignored: set<string>, atom: bool)
    requires WellTyped(p) && Stays(p, ignored) && "md" in ignored && "attrs" !in ignored && "atom" !in ignored
    ensures var d := ParEntries(p, ignored, atom);
            && Typed(d) && EntryTexts(d, ignored) == EntryTexts(p.attrs, ignored) + BuiltinTexts(p, ignored, atom)
            && AttrText(p, ignored, atom) == Joined(EntryTexts(d, ignored)) == AttrsText(d, ignored)
  {
    var e, b := Exported(p.attrs, ignored), Builtins(p, ignored, atom);
    BuiltinsGood(p, ignored, atom);
    ExportedKeeps(p.attrs, ignored);
    if atom { AtomizedBody(p, ignored); } else { DictBody(p, ignored); }
    var x, y := EntryTexts(e, ignored), EntryTexts(b, ignored);
    ExportedAll(b, ignored);
    EntriesSolid(b, ignored);
    EntriesEdged(b, ignored);
    BodySpaced(b, ignored);
    AttrsTextJoined(p.attrs, ignored);
    EntryTextsAppend(e, b, ignored);
    EdgedAppend(x, y);
    AttrsTextJoined(e + b, ignored);
    StripFlat(x, y);
  }

  function BuiltinTexts(p: Par, ignored: set<string>, atom: bool): seq<string> {
    BuiltinsTyped(p, ignored, atom);
    EntryTexts(Builtins(p, ignored, atom), ignored)
  }

  lemma BuiltinsTyped(p: Par, ignored: set<string>, atom: bool)
    ensures Typed(Builtins(p, ignored, atom))
  {
  }

  lemma EdgedAppend(x: seq<string>, y: seq<string>)
    requires Solid(x) && Solid(y) && Edged(x) && Edged(y)
    ensures Solid(x + y) && Edged(x + y)
  {
    if y == [] {
      assert x + y == x;
    } else if x != [] {
      assert (x + y)[0] == x[0] && (x + y)[|x + y| - 1] == y[|y| - 1];
    } else {
      assert x + y == y;
    }
  }

  lemma {:induction false} StripFlat(x: seq<string>, y: seq<string>)
    requires Solid(x) && Solid(y) && Edged(x) && Edged(y)
    ensures Strip(Joined(x) + " " + Spaced(y)) == Joined(x + y)
  {
    var s := Joined(x) + " " + Spaced(y);
    EdgedAppend(x, y);
    JoinedTrimmed(x + y);
    if x == [] {
      assert x + y == y;
      if y == [] {
        StripPadded(" ", "", "");
        assert s == " " + "" + "";
      } else {
        SpacedJoined(y);
        StripPadded(" ", Joined(y), " ");
        assert s == " " + Joined(y) + " ";
      }
    } else {
      SpacedJoined(x);
      SpacedAppend(x, y);
      SpacedJoined(x + y);
      StripSpace(Joined(x + y));
    }
  }

  // ----- what is read back -----

  /** The attribute dictionary of a paragraph. */
  function AsMap(d: Entries): Tokens {
    Apply(map[], d)
  }

  function LanguageInfo(lang: string): Tokens {
    if lang == "" then map[] else map["code_lang" := Str(lang)]
  }

  /** The only attribute the writer leaves out is the language, and it is the one the first line names. */
  predicate LanguageIs(p: Par, ignored: set<string>, lang: string) {
    && (forall i :: 0 <= i < |p.attrs| && p.attrs[i].key in ignored ==>
          p.attrs[i] == Entry("code_lang", Str(lang)) && lang != "")
    && (lang != "" ==> HasKey(p.attrs, "code_lang"))
  }

  lemma {:induction false} HasKeyExported(d: Entries, ignored: set<string>, k: string)
    requires Typed(d)
    ensures HasKey(Exported(d, ignored), k) <==> HasKey(d, k) && k !in ignored
  {
    if d != [] {
      var e, more := Exported(d, ignored), Exported(d[1..], ignored);
      HasKeyExported(d[1..], ignored, k);
      HasKeyCons(d, k);
      if d[0].key in ignored {
        assert e == more;
      } else {
        assert e[1..] == more && e[0] == d[0];
        HasKeyCons(e, k);
      }
    }
  }

  lemma HasKeyCons(d: Entries, k: string)
    requires d != []
    ensures HasKey(d, k) <==> d[0].key == k || HasKey(d[1..], k)
  {
    if HasKey(d[1..], k) {
      var i :| 0 <= i < |d[1..]| && d[1..][i].key == k;
      assert d[i + 1].key == k;
    }
    if HasKey(d, k) && d[0].key != k {
      var i :| 0 <= i < |d| && d[i].key == k;
      assert d[1..][i - 1].key == k;
    }
  }

  lemma HasKeyAppend(d: Entries, e: Entries, k: string)
    ensures HasKey(d + e, k) <==> HasKey(d, k) || HasKey(e, k)
  {
    if HasKey(d, k) {
      var i :| 0 <= i < |d| && d[i].key == k;
      assert (d + e)[i].key == k;
    }
    if HasKey(e, k) {
      var i :| 0 <= i < |e| && e[i].key == k;
      assert (d + e)[|d| + i].key == k;
    }
  }

  lemma BuiltinKeys(p: Par, ignored: set<string>, atom: bool, k: string)
    ensures HasKey(Builtins(p, ignored, atom), k) <==>
            (k == "id" && "id" !in ignored) || (k == "t" && "t" !in ignored) || (k == "atom" && atom)
  {
    var i, t := Only("id", p.id, ignored), Only("t", p.t, ignored);
    var a := if atom then [Entry("atom", Str("true"))] else [];
    HasKeyAppend(i + t, a, k);
    HasKeyAppend(i, t, k);
    assert "id" !in ignored ==> i[0].key == "id";
    assert "t" !in ignored ==> t[0].key == "t";
    assert atom ==> a[0].key == "atom";
  }

  /** Looking up a key in a dictionary with distinct keys. */
  lemma ValueAt(d: Entries, i: nat)
    requires DistinctKeys(d) && i < |d|
    ensures d[i].key in AsMap(d) && AsMap(d)[d[i].key] == d[i].val
  {
    ApplyHolds(map[], d);
  }

  lemma {:induction false} BuiltinValues(p: Par, ignored: set<string>, atom: bool)
    requires GoodFor(p, ignored, atom) && "atom" !in ignored
    ensures var m := AsMap(ParEntries(p, ignored, atom));
            && ("id" !in ignored ==> "id" in m && m["id"] == Str(p.id))
            && ("t" !in ignored ==> "t" in m && m["t"] == Str(p.t))
            && (atom ==> "atom" in m && m["atom"] == Str("true"))
  {
    var e, b := Exported(p.attrs, ignored), Builtins(p, ignored, atom);
    ParEntriesGood(p, ignored, atom);
    if "id" !in ignored {
      assert b[0] == Entry("id", Str(p.id));
      assert (e + b)[|e|] == b[0];
      ValueAt(e + b, |e|);
    }
    if "t" !in ignored {
      var k := |Only("id", p.id, ignored)|;
      assert b[k] == Entry("t", Str(p.t));
      assert (e + b)[|e| + k] == b[k];
      ValueAt(e + b, |e| + k);
    }
    if atom {
      assert b[|b| - 1] == Entry("atom", Str("true"));
      assert (e + b)[|e| + |b| - 1] == b[|b| - 1];
      ValueAt(e + b, |e| + |b| - 1);
    }
  }

  /** Which keys the parser reads back. */
  lemma ReadKeys(p: Par, ignored: set<string>, atom: bool, k: string)
    requires GoodFor(p, ignored, atom) && "atom" !in ignored
    ensures k in AsMap(ParEntries(p, ignored, atom)) <==>
            (HasKey(p.attrs, k) && k !in ignored) ||
            (k == "id" && "id" !in ignored) || (k == "t" && "t" !in ignored) || (k == "atom" && atom)
    ensures HasKey(p.attrs, k) && k !in ignored ==> k != "id" && k != "t" && (atom ==> k != "atom")
  {
    ParEntriesGood(p, ignored, atom);
    ApplyHolds(map[], ParEntries(p, ignored, atom));
    HasKeyAppend(Exported(p.attrs, ignored), Builtins(p, ignored, atom), k);
    HasKeyExported(p.attrs, ignored, k);
    BuiltinKeys(p, ignored, atom, k);
  }

  lemma ExportedValue(p: Par, ignored: set<string>, atom: bool, k: string)
    requires GoodFor(p, ignored, atom) && "atom" !in ignored
    requires HasKey(p.attrs, k) && k !in ignored
    ensures k in AsMap(p.attrs) && k in AsMap(ParEntries(p, ignored, atom))
    ensures AsMap(ParEntries(p, ignored, atom))[k] == AsMap(p.attrs)[k]
  {
    var e, b := Exported(p.attrs, ignored), Builtins(p, ignored, atom);
    HasKeyExported(p.attrs, ignored, k);
    ExportedKeeps(p.attrs, ignored);
    ParEntriesGood(p, ignored, atom);
    var i :| 0 <= i < |e| && e[i].key == k;
    var j :| 0 <= j < |p.attrs| && p.attrs[j] == e[i];
    ValueAt(p.attrs, j);
    assert (e + b)[i] == e[i];
    ValueAt(e + b, i);
  }

  /** The key is read back with its value, and no other key but a built-in one is. */
  predicate ReadsKey(m: Tokens, want: Tokens, atom: bool, k: string) {
    && (k in want ==> k in m && m[k] == want[k] && k !in {"id", "t"} && (atom ==> k != "atom"))
    && (k in m && k !in want ==> k in {"id", "t"} || (k == "atom" && atom))
  }

  lemma SameAttributes(m: Tokens, want: Tokens, atom: bool)
    requires forall k :: ReadsKey(m, want, atom, k)
    ensures (if atom then m - {"atom", "id", "t"} else m - {"id", "t"}) == want
  {
    assert forall k :: k in want ==> ReadsKey(m, want, atom, k);
    assert forall k :: k in m ==> ReadsKey(m, want, atom, k);
  }

  lemma {:induction false} KeyReadBack(p: Par, ignored: set<string>, atom: bool, lang: string, k: string)
    requires GoodFor(p, ignored, atom) && LanguageIs(p, ignored, lang)
    requires "atom" !in ignored && "code_lang" in ignored
    ensures ReadsKey(AsMap(ParEntries(p, ignored, atom)) + LanguageInfo(lang), AsMap(p.attrs), atom, k)
  {
    ApplyHolds(map[], p.attrs);
    ReadKeys(p, ignored, atom, k);
    if HasKey(p.attrs, k) {
      if k in ignored {
        var j :| 0 <= j < |p.attrs| && p.attrs[j].key == k;
        ValueAt(p.attrs, j);
      } else {
        ExportedValue(p, ignored, atom, k);
      }
    }
  }

  /** The attributes read back are those of the paragraph, the language included. */
  lemma {:induction false} AttributesReadBack(p: Par, ignored: set<string>, atom: bool, lang: string)
    requires GoodFor(p, ignored, atom) && LanguageIs(p, ignored, lang)
    requires "atom" !in ignored && "code_lang" in ignored
    ensures var m := AsMap(ParEntries(p, ignored, atom)) + LanguageInfo(lang);
            (if atom then m - {"atom", "id", "t"} else m - {"id", "t"}) == AsMap(p.attrs)
  {
    var m := AsMap(ParEntries(p, ignored, atom)) + LanguageInfo(lang);
    forall k
      ensures ReadsKey(m, AsMap(p.attrs), atom, k)
    {
      KeyReadBack(p, ignored, atom, lang, k);
    }
    SameAttributes(m, AsMap(p.attrs), atom);
  }
}
