/**
 The ink of attribute lists. Reading an entry takes some ink of the list, printing spends no more than that on it,
 and less if the entry is an exception.
 */
module AttributeInk {
  import opened Text
  import opened AttributeList
  import opened AttributePrinting
  import opened AttributeErrors
  import opened ParagraphAttributes
  import opened ParsedAttributes

  // ----- ink -----

  /** Characters other than those that separate, mark, quote and escape. */
  predicate Inked(c: char) {
    c != ' ' && c != '"' && c != '\\' && c != '#' && c != '.'
  }

  function Ink(s: string): nat {
    if s == "" then 0 else (if Inked(s[0]) then 1 else 0) + Ink(s[1..])
  }

  lemma {:induction false} InkAppend(a: string, b: string)
    ensures Ink(a + b) == Ink(a) + Ink(b)
  {
    if a == "" {
      assert a + b == b;
    } else {
      AppendTail(a, b);
      InkAppend(a[1..], b);
    }
  }

  lemma InkSplit(s: string, n: nat)
    requires n <= |s|
    ensures Ink(s) == Ink(s[..n]) + Ink(s[n..])
  {
    assert s == s[..n] + s[n..];
    InkAppend(s[..n], s[n..]);
  }

  lemma InkThree(a: string, b: string, c: string)
    ensures Ink(a + b + c) == Ink(a) + Ink(b) + Ink(c)
  {
    InkAppend(a + b, c);
    InkAppend(a, b);
  }

  lemma {:induction false} InkEscape(v: string)
    ensures Ink(Escape(v)) == Ink(v)
  {
    if v != "" {
      InkEscape(v[1..]);
      InkAppend(Escaped(v[0]), Escape(v[1..]));
      InkEscaped(v[0]);
      EscapeHead(v, "");
      assert Escape(v) + "" == Escape(v) && Escape(v[1..]) + "" == Escape(v[1..]);
    }
  }

  lemma InkEscaped(c: char)
    ensures Ink(Escaped(c)) == if Inked(c) then 1 else 0
  {
    InkOne(c);
    if NeedsEscape(c) {
      assert ['\\', c][1..] == [c];
    }
  }

  lemma InkOne(c: char)
    ensures Ink([c]) == if Inked(c) then 1 else 0
  {
    assert [c][1..] == "";
  }

  lemma InkAssignment(key: string, v: string)
    ensures Ink(Assignment(key, v)) == Ink(key) + 1 + Ink(v)
  {
    InkThree(key + "=\"", Escape(v), "\"");
    InkAppend(key, "=\"");
    InkEscape(v);
    assert "=\""[1..] == "\"" && "\""[1..] == "";
  }

  function Inks(items: seq<string>): nat {
    if items == [] then 0 else Ink(items[0]) + Inks(items[1..])
  }

  lemma {:induction false} InkDotted(names: seq<string>)
    ensures Ink(Dotted(names)) == Inks(names)
  {
    if |names| == 1 {
      InkAppend(".", names[0]);
      assert "."[1..] == "" && names[1..] == [];
    } else if names != [] {
      InkDotted(names[1..]);
      InkThree("." + names[0], " ", Dotted(names[1..]));
      InkAppend(".", names[0]);
      assert "."[1..] == "" && " "[1..] == "";
    }
  }

  lemma {:induction false} InkChars(s: string)
    ensures Inks(Chars(s)) == Ink(s)
  {
    if s != "" {
      InkChars(s[1..]);
      InkOne(s[0]);
      assert Chars(s)[1..] == Chars(s[1..]);
    }
  }

  // ----- what stripping takes -----

  lemma {:induction false} InkRStrip(s: string)
    ensures Ink(RStrip(s)) <= Ink(s)
  {
    RStripSplit(s);
    InkSplit(s, |RStrip(s)|);
  }

  lemma {:induction false} InkLStrip(s: string)
    ensures Ink(LStrip(s)) <= Ink(s)
  {
    LStripSplit(s);
    InkSplit(s, |s| - |LStrip(s)|);
  }

  lemma InkStrip(s: string)
    ensures Ink(Strip(s)) <= Ink(s)
  {
    InkRStrip(s);
    InkLStrip(RStrip(s));
  }

  /** Whitespace other than a space at the beginning is lost. */
  lemma InkLost(s: string)
    requires s != "" && IsSpace(s[0]) && s[0] != ' '
    ensures Ink(Strip(s)) < Ink(s)
  {
    StripEither(s);
    InkRStrip(LStrip(s));
    InkLStrip(s[1..]);
  }

  /** So is whitespace other than a space in front of the last separator. */
  lemma InkLostBehind(s: string, u: string)
    requires s == u + " " && u != "" && IsSpace(u[|u| - 1]) && u[|u| - 1] != ' '
    ensures Ink(Strip(s)) < Ink(s)
  {
    var n := |u| - 1;
    assert s[..|s| - 1] == u && RStrip(s) == RStrip(u) == RStrip(u[..n]);
    InkLStrip(RStrip(s));
    InkRStrip(u[..n]);
    InitLast(u);
    InkThree(u[..n], [u[n]], " ");
    assert [u[n]][1..] == "";
  }

  // ----- what an entry needs -----

  /** The ink that reading needs to collect the entry. */
  function Cost(e: Entry): nat {
    match e.val
    case Str(text) => if e.key == "taskId" && NameText(text) then Ink(text) else Ink(e.key) + 1 + Ink(text)
    case Names(names) => Inks(names)
    case _ => 0
  }

  /** The ink that is still needed once some tokens have been collected. */
  function Need(e: Entry, t: Tokens): nat {
    if e.key !in t then Cost(e)
    else if t[e.key] == e.val then 0
    else if e.val.Names? && t[e.key].Names? && t[e.key].names <= e.val.names then
      Inks(e.val.names[|t[e.key].names|..])
    else Cost(e)
  }

  lemma {:induction false} InksFrom(names: seq<string>, n: nat)
    requires n <= |names|
    ensures Inks(names[n..]) <= Inks(names)
  {
    if n > 0 {
      InksFrom(names[1..], n - 1);
      assert names[1..][n - 1..] == names[n..];
    } else {
      assert names[0..] == names;
    }
  }

  lemma NeedAtMost(e: Entry, t: Tokens)
    ensures Need(e, t) <= Cost(e)
  {
    if e.key in t && e.val.Names? && t[e.key].Names? && t[e.key].names <= e.val.names {
      InksFrom(e.val.names, |t[e.key].names|);
    }
  }

  function Needs(d: Entries, t: Tokens): nat {
    if d == [] then 0 else Need(d[0], t) + Needs(d[1..], t)
  }

  function Costs(d: Entries): nat {
    if d == [] then 0 else Cost(d[0]) + Costs(d[1..])
  }

  lemma {:induction false} NothingCollected(d: Entries)
    ensures Needs(d, map[]) == Costs(d)
  {
    if d != [] {
      NothingCollected(d[1..]);
    }
  }

  predicate Holds(t: Tokens, e: Entry) {
    e.key in t && t[e.key] == e.val
  }

  lemma {:induction false} NothingNeeded(d: Entries, t: Tokens)
    requires forall i :: 0 <= i < |d| ==> Holds(t, d[i])
    ensures Needs(d, t) == 0
  {
    if d != [] {
      assert Holds(t, d[0]);
      NothingNeeded(d[1..], t);
    }
  }

  // ----- what reading an item provides -----

  /** Setting one key serves the entries of that key with no more than the given ink. */
  ghost predicate Serves(t: Tokens, k: string, v: AttrVal, ink: nat) {
    forall e: Entry :: e.key == k && SolidEntry(e.key, e.val) ==> Need(e, t) <= Need(e, t[k := v]) + ink
  }

  lemma {:induction false} NeedsSame(d: Entries, t: Tokens, k: string, v: AttrVal)
    requires !HasKey(d, k)
    ensures Needs(d, t[k := v]) == Needs(d, t)
  {
    if d != [] {
      HasKeyCons(d, k);
      NeedsSame(d[1..], t, k, v);
    }
  }

  lemma {:induction false} NeedsServed(d: Entries, t: Tokens, k: string, v: AttrVal, ink: nat)
    requires DistinctKeys(d) && SolidEntries(d) && Serves(t, k, v, ink)
    ensures Needs(d, t) <= Needs(d, t[k := v]) + ink
  {
    if d != [] {
      if d[0].key == k {
        KeyOnce(d);
        NeedsSame(d[1..], t, k, v);
        assert SolidEntry(d[0].key, d[0].val);
      } else {
        NeedsServed(d[1..], t, k, v, ink);
      }
    }
  }

  lemma KeyOnce(d: Entries)
    requires DistinctKeys(d) && d != []
    ensures !HasKey(d[1..], d[0].key)
  {
  }

  lemma TaskServes(t: Tokens, name: string)
    requires NameText(name)
    ensures Serves(t, "taskId", Str(name), Ink(name))
  {
    forall e: Entry | e.key == "taskId" && SolidEntry(e.key, e.val)
      ensures Need(e, t) <= Need(e, t["taskId" := Str(name)]) + Ink(name)
    {
      NeedAtMost(e, t);
    }
  }

  lemma PairServes(t: Tokens, k: string, v: string)
    ensures Serves(t, k, Str(v), Ink(k) + 1 + Ink(v))
  {
    forall e: Entry | e.key == k && SolidEntry(e.key, e.val)
      ensures Need(e, t) <= Need(e, t[k := Str(v)]) + (Ink(k) + 1 + Ink(v))
    {
      NeedAtMost(e, t);
    }
  }

  lemma ClassServes(t: Tokens, name: string)
    requires AddClass(t, name).Ok?
    ensures var t' := AddClass(t, name).value;
            "classes" in t' && t' == t["classes" := t'["classes"]] && Serves(t, "classes", t'["classes"], Ink(name))
  {
    var t' := AddClass(t, name).value;
    forall e: Entry | e.key == "classes" && SolidEntry(e.key, e.val)
      ensures Need(e, t) <= Need(e, t["classes" := t'["classes"]]) + Ink(name)
    {
      NeedAtMost(e, t);
      if e.val.Names? {
        OneMoreName(e, t, name);
      }
    }
  }

  lemma OneMoreName(e: Entry, t: Tokens, name: string)
    requires e.key == "classes" && e.val.Names? && AddClass(t, name).Ok?
    ensures Need(e, t) <= Need(e, AddClass(t, name).value) + Ink(name)
  {
    var names := e.val.names;
    var n := if "classes" in t && t["classes"].Names? then |t["classes"].names| else 0;
    NeedAtMost(e, t);
    var more := AddClass(t, name).value["classes"].names;
    if more <= names {
      assert names[n] == name && names[n..][1..] == names[n + 1..];
      assert names[0..] == names;
      if more == names {
        assert names[n + 1..] == [];
      }
    }
  }

  // ----- the ink of what is read -----

  lemma HeadMiddle<T>(s: seq<T>, n: nat)
    requires 1 <= n <= |s|
    ensures s == [s[0]] + s[1..n] + s[n..]
  {
  }

  lemma InkMarked(r: string, mark: char)
    requires r != "" && !Inked(mark)
    ensures var (name, rest) := Marked(r, mark);
            Ink(r) == (if name.Some? then Ink(name.value) else 0) + Ink(rest)
  {
    var (name, rest) := Marked(r, mark);
    if name.Some? {
      var n := |name.value|;
      HeadMiddle(r, n + 1);
      InkThree([mark], name.value, rest);
      InkOne(mark);
    }
  }

  lemma {:induction false} InkQuoted(r: string)
    requires Quoted(r).Closed?
    ensures Ink(r) == Ink(Quoted(r).value) + Ink(Quoted(r).rest)
  {
    if r[0] == '"' {
      assert Ink("") == 0;
    } else if r[0] == '\\' {
      InkQuoted(r[2..]);
      InkPrepended(r[1], Quoted(r[2..]).value);
      assert r[1..][1..] == r[2..];
    } else {
      InkQuoted(r[1..]);
      InkPrepended(r[0], Quoted(r[1..]).value);
    }
  }

  lemma InkPrepended(c: char, v: string)
    ensures Ink([c] + v) == (if Inked(c) then 1 else 0) + Ink(v)
  {
    InkAppend([c], v);
    InkOne(c);
  }

  lemma InkUnquoted(r: string)
    ensures Ink(r) == Ink(Unquoted(r).0) + Ink(Unquoted(r).1)
  {
    var n := TokenLength(r);
    InkSplit(r, n);
    if n < |r| && r[n] == ' ' {
      assert r[n..][1..] == r[n + 1..];
    }
  }

  lemma InkPair(r: string)
    requires KeyValue(r).Pair?
    ensures var pair := KeyValue(r); Ink(r) == Ink(pair.key) + 1 + Ink(pair.value) + Ink(pair.rest)
  {
    var n := KeyLength(r);
    PairReads(r);
    InkSplit(r, n);
    assert r[n..][0] == '=' && r[n..][1..] == r[n + 1..];
    InkAssigned(r[..n], r[n + 1..]);
  }

  lemma InkAssigned(key: string, v: string)
    requires Assigned(key, v).Pair?
    ensures Ink(v) == Ink(Assigned(key, v).value) + Ink(Assigned(key, v).rest)
  {
    if v != "" && v[0] == '"' {
      InkQuoted(v[1..]);
    } else {
      InkUnquoted(v);
    }
  }

  lemma {:induction false} InkSpaces(r: string)
    ensures Ink(SkipSpaces(r)) == Ink(r)
  {
    if r != "" && r[0] == ' ' {
      InkSpaces(r[1..]);
    }
  }

  lemma InkPastMarks(r: string)
    requires r != "" && !NamesTask(r) && !NamesClass(r)
    ensures Ink(PastMarks(r)) == Ink(r)
  {
    InkMarked(r, '#');
    InkMarked(PastHash(r), '.');
  }

  /** An item serves the entries with no more ink than it has. */
  lemma ItemServes(d: Entries, r: string, t: Tokens)
    requires r != "" && NextItem(r, t).Item? && DistinctKeys(d) && SolidEntries(d)
    ensures var item := NextItem(r, t); Needs(d, t) + Ink(item.rest) <= Needs(d, item.tokens) + Ink(r)
  {
    InkMarked(r, '#');
    InkMarked(PastHash(r), '.');
    if NamesTask(r) {
      TaskItem(d, r, t);
    } else if NamesClass(r) {
      ClassItem(d, r, t);
    } else {
      PairItem(d, r, t);
    }
  }

  lemma TaskItem(d: Entries, r: string, t: Tokens)
    requires r != "" && NamesTask(r) && NextItem(r, t).Item? && DistinctKeys(d) && SolidEntries(d)
    ensures var item := NextItem(r, t); Needs(d, t) + Ink(item.rest) <= Needs(d, item.tokens) + Ink(r)
  {
    var name := Marked(r, '#').0.value;
    InkMarked(r, '#');
    TaskRead(r, t);
    MarkedName(r, '#');
    TaskServes(t, name);
    NeedsServed(d, t, "taskId", Str(name), Ink(name));
  }

  lemma MarkedName(r: string, mark: char)
    requires r != ""
    ensures var name := Marked(r, mark).0; name.Some? && name.value != "" ==> NameText(name.value)
  {
    assert forall i :: 0 <= i < |r| - 1 ==> r[1..][i] == r[i + 1];
  }

  lemma ClassItem(d: Entries, r: string, t: Tokens)
    requires r != "" && !NamesTask(r) && NamesClass(r) && NextItem(r, t).Item? && DistinctKeys(d) && SolidEntries(d)
    ensures var item := NextItem(r, t); Needs(d, t) + Ink(item.rest) <= Needs(d, item.tokens) + Ink(r)
  {
    var name := Marked(PastHash(r), '.').0.value;
    InkMarked(r, '#');
    InkMarked(PastHash(r), '.');
    ClassRead(r, t);
    ClassServes(t, name);
    NeedsServed(d, t, "classes", AddClass(t, name).value["classes"], Ink(name));
  }

  lemma PairItem(d: Entries, r: string, t: Tokens)
    requires r != "" && !NamesTask(r) && !NamesClass(r) && NextItem(r, t).Item?
    requires DistinctKeys(d) && SolidEntries(d)
    ensures var item := NextItem(r, t); Needs(d, t) + Ink(item.rest) <= Needs(d, item.tokens) + Ink(r)
  {
    var pair := KeyValue(PastMarks(r));
    PairRead(r, t);
    InkPastMarks(r);
    InkPair(PastMarks(r));
    PairServes(t, pair.key, pair.value);
    NeedsServed(d, t, pair.key, Str(pair.value), Ink(pair.key) + 1 + Ink(pair.value));
  }

  /** A list whose reading collects the entries has the ink that they need, and its closing brace. */
  lemma {:induction false} ScanNeeds(d: Entries, r: string, t: Tokens)
    requires DistinctKeys(d) && SolidEntries(d) && Scan(r, t).Found?
    requires forall i :: 0 <= i < |d| ==> Holds(Scan(r, t).tokens, d[i])
    ensures Ink(r) >= Needs(d, t) + 1
    decreases |r|
  {
    InkSpaces(r);
    if HasItem(r, t) {
      ScanMore(r, t);
      var item := NextItem(SkipSpaces(r), t);
      ItemServes(d, SkipSpaces(r), t);
      ScanNeeds(d, item.rest, item.tokens);
    } else {
      ScanStops(r, t);
      NothingNeeded(d, t);
    }
  }

  lemma ScanStops(r: string, t: Tokens)
    requires Scan(r, t).Found? && !HasItem(r, t)
    ensures SkipSpaces(r) != "" && SkipSpaces(r)[0] == '}' && Scan(r, t).tokens == t
  {
  }

  /** Entries that are read from a printed list cost no more than the list has ink. */
  lemma CollectedCosts(d: Entries, list: string)
    requires DistinctKeys(d) && SolidEntries(d) && Scan(list + "}", map[]).Found?
    requires forall i :: 0 <= i < |d| ==> Holds(Scan(list + "}", map[]).tokens, d[i])
    ensures Ink(list) >= Costs(d)
  {
    ScanNeeds(d, list + "}", map[]);
    NothingCollected(d);
    InkAppend(list, "}");
    InkOne('}');
  }

  // ----- the ink of what is printed -----

  /** An entry is printed with the ink that it needs: a task id that is a name, classes that are a list. */
  predicate Regular(e: Entry) {
    (e.key == "taskId" ==> e.val.Str? && NameText(e.val.text)) && (e.key == "classes" ==> e.val.Names?)
  }

  lemma TextInk(e: Entry, ignored: set<string>)
    requires SolidEntry(e.key, e.val)
    ensures Typed([e]) && Ink(EntryText(e.key, e.val, ignored)) <= Cost(e)
    ensures Ink(EntryText(e.key, e.val, ignored)) == Cost(e) ==> Regular(e)
    ensures Regular(e) ==> Ink(EntryText(e.key, e.val, ignored)) == Cost(e)
    ensures e.key != "taskId" && e.key != "classes" ==> Cost(e) > 0
  {
    match e.val
    case Names(names) => InkDotted(names);
    case Str(text) =>
      if e.key == "taskId" {
        InkAppend("#", text);
        InkOne('#');
      } else if e.key == "classes" {
        InkDotted(Chars(text));
        InkChars(text);
      } else {
        InkAssignment(e.key, text);
      }
  }

  /** The printed entries have no more ink than those wanted cost; as much only if all of these are printed as such. */
  lemma {:induction false} BodyInk(d: Entries, ignored: set<string>, unwanted: set<string>)
    requires SolidEntries(d) && unwanted <= ignored && "taskId" !in ignored && "classes" !in ignored
    ensures Typed(d) && Ink(Body(d, ignored)) <= Costs(Exported(d, unwanted))
    ensures Ink(Body(d, ignored)) == Costs(Exported(d, unwanted)) ==> PrintedAll(d, ignored, unwanted)
  {
    SolidTyped(d);
    if d != [] {
      var e, tail := d[0], d[1..];
      BodyInk(tail, ignored, unwanted);
      TextInk(e, ignored);
      BodyInkStep(d, ignored);
      if e.key in unwanted {
        assert Exported(d, unwanted) == Exported(tail, unwanted);
      } else {
        CostsCons(e, Exported(tail, unwanted));
      }
      PrintedMore(d, ignored, unwanted);
    }
  }

  lemma BodyInkStep(d: Entries, ignored: set<string>)
    requires Typed(d) && d != [] && Typed([d[0]])
    ensures Ink(Body(d, ignored)) ==
            (if d[0].key in ignored then 0 else Ink(EntryText(d[0].key, d[0].val, ignored))) +
            Ink(Body(d[1..], ignored))
  {
    var e, tail := d[0], Body(d[1..], ignored);
    if e.key in ignored {
      assert Body(d, ignored) == "" + tail == tail;
    } else {
      InkThree(EntryText(e.key, e.val, ignored), " ", tail);
      InkOne(' ');
    }
  }

  lemma CostsCons(e: Entry, more: Entries)
    ensures Costs([e] + more) == Cost(e) + Costs(more)
  {
    assert ([e] + more)[1..] == more;
  }

  /** What is not printed is not wanted, and everything else is printed with the ink it needs. */
  predicate PrintedAll(d: Entries, ignored: set<string>, unwanted: set<string>) {
    forall i :: 0 <= i < |d| ==> if d[i].key in ignored then d[i].key in unwanted else Regular(d[i])
  }

  lemma PrintedMore(d: Entries, ignored: set<string>, unwanted: set<string>)
    requires d != []
    ensures PrintedAll(d, ignored, unwanted) <==>
            PrintedAll(d[1..], ignored, unwanted) &&
            if d[0].key in ignored then d[0].key in unwanted else Regular(d[0])
  {
    assert forall i :: 1 <= i < |d| ==> d[i] == d[1..][i - 1];
  }

  /** The ends of a regular entry's text. */
  lemma RegularText(e: Entry, ignored: set<string>)
    requires SolidEntry(e.key, e.val) && Regular(e)
    ensures Typed([e])
    ensures var text := EntryText(e.key, e.val, ignored);
            && text != "" && text[0] != ' ' && (IsSpace(text[0]) <==> !StartsClean(e))
            && text[|text| - 1] != ' ' && (IsSpace(text[|text| - 1]) <==> !EndsClean(e))
  {
    var text := EntryText(e.key, e.val, ignored);
    match e.val
    case Names(names) => DottedSolid(names);
    case Str(w) =>
      if e.key == "taskId" {
        assert text[|text| - 1] == w[|w| - 1];
      } else {
        assert text[0] == e.key[0] && text[|text| - 1] == '"';
      }
  }

  lemma {:induction false} SpacedLast(items: seq<string>)
    requires items != []
    ensures Spaced(items) == Spaced(items[..|items| - 1]) + items[|items| - 1] + " "
  {
    var n := |items| - 1;
    InitLast(items);
    SpacedAppend(items[..n], [items[n]]);
    assert Spaced([items[n]]) == items[n] + " " + "";
  }

  /** Stripping takes no ink from regular entries only if their outer ends are clean. */
  lemma {:induction false} CleanWhenKept(e: Entries, ignored: set<string>)
    requires SolidEntries(e) && Typed(e) && (forall i :: 0 <= i < |e| ==> e[i].key !in ignored && Regular(e[i]))
    requires Ink(Strip(Body(e, ignored))) == Ink(Body(e, ignored))
    ensures CleanEdges(e)
  {
    if e != [] {
      var items := EntryTexts(e, ignored);
      BodySpaced(e, ignored);
      TextsEdges(e, ignored);
      FirstKept(items);
      LastKept(items);
    }
  }

  lemma TextsEdges(e: Entries, ignored: set<string>)
    requires SolidEntries(e) && Typed(e) && (forall i :: 0 <= i < |e| ==> e[i].key !in ignored && Regular(e[i]))
    requires e != []
    ensures EntryTexts(e, ignored) != []
    ensures var first := EntryTexts(e, ignored)[0];
            first != "" && first[0] != ' ' && (IsSpace(first[0]) <==> !StartsClean(e[0]))
    ensures var last := EntryTexts(e, ignored)[|EntryTexts(e, ignored)| - 1];
            last != "" && last[|last| - 1] != ' ' && (IsSpace(last[|last| - 1]) <==> !EndsClean(e[|e| - 1]))
  {
    TextAt(e, ignored, 0);
    TextAt(e, ignored, |e| - 1);
    RegularText(e[0], ignored);
    RegularText(e[|e| - 1], ignored);
  }

  lemma FirstKept(items: seq<string>)
    requires items != [] && items[0] != "" && items[0][0] != ' '
    ensures Ink(Strip(Spaced(items))) == Ink(Spaced(items)) ==> !IsSpace(items[0][0])
  {
    assert Spaced(items)[0] == items[0][0];
    if IsSpace(items[0][0]) {
      InkLost(Spaced(items));
    }
  }

  lemma LastKept(items: seq<string>)
    requires items != []
    ensures var last := items[|items| - 1];
            last != "" && last[|last| - 1] != ' ' && Ink(Strip(Spaced(items))) == Ink(Spaced(items)) ==>
              !IsSpace(last[|last| - 1])
  {
    var last := items[|items| - 1];
    SpacedLast(items);
    if last != "" && last[|last| - 1] != ' ' && IsSpace(last[|last| - 1]) {
      var u := Spaced(items[..|items| - 1]) + last;
      assert u[|u| - 1] == last[|last| - 1];
      InkLostBehind(Spaced(items), u);
    }
  }
}
