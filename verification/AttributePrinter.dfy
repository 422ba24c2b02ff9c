/** Printing attribute dictionaries, and why the parser reads the print back. */
module AttributePrinting {
  import opened Text
  import opened AttributeList

  /**
   What printing takes without an exception: a text under `taskId`, and something to iterate over under
   `classes`.
   */
  predicate Typed(d: Entries)
    decreases d
  {
    forall i :: 0 <= i < |d| ==>
      match d[i].val
      case Str(_) => true
      case Names(_) => d[i].key == "classes"
      case Shown(_) => d[i].key != "taskId" && d[i].key != "classes"
      case Nested(entries) => d[i].key != "taskId" && (d[i].key != "classes" ==> Typed(entries))
  }

  function Escape(v: string): string {
    if v == "" then ""
    else (if NeedsEscape(v[0]) then "\\" + [v[0]] else [v[0]]) + Escape(v[1..])
  }

  function Assignment(key: string, v: string): string {
    key + "=\"" + Escape(v) + "\""
  }

  /** `" ".join(["." + name for name in names])`. */
  function Dotted(names: seq<string>): string {
    if names == [] then ""
    else if |names| == 1 then "." + names[0]
    else "." + names[0] + " " + Dotted(names[1..])
  }

  /** The characters of a text as texts. */
  function Chars(s: string): seq<string> {
    if s == "" then [] else [[s[0]]] + Chars(s[1..])
  }

  function KeysOf(d: Entries): seq<string> {
    if d == [] then [] else [d[0].key] + KeysOf(d[1..])
  }

  /** What a loop over a value under `classes` meets: names, characters or keys. */
  function Pieces(v: AttrVal): seq<string>
    requires !v.Shown?
  {
    match v
    case Str(text) => Chars(text)
    case Names(names) => names
    case Nested(entries) => KeysOf(entries)
  }

  /** The text of one entry, without the space that follows it. */
  function EntryText(key: string, v: AttrVal, ignored: set<string>): string
    requires Typed([Entry(key, v)])
    decreases v, 0
  {
    assert [Entry(key, v)][0] == Entry(key, v);
    if key == "taskId" then "#" + v.text
    else if key == "classes" then Dotted(Pieces(v))
    else
      match v
      case Str(text) => Assignment(key, text)
      case Shown(text) => Assignment(key, text)
      case Nested(entries) => Strip(Body(entries, ignored))
  }

  /** The entries that are not ignored, each followed by a space. */
  function Body(d: Entries, ignored: set<string>): string
    requires Typed(d)
    decreases d, 1
  {
    if d == [] then ""
    else
      assert Typed([d[0]]);
      var Entry(key, v) := d[0];
      (if key in ignored then "" else EntryText(key, v, ignored) + " ") + Body(d[1..], ignored)
  }

  /** `attrs_to_str`. */
  function AttrsText(d: Entries, ignored: set<string>): string
    requires Typed(d)
  {
    Strip(Body(d, ignored))
  }

  /** What the parser collects from a printed dictionary: its entries, later ones last. */
  function Apply(t: Tokens, d: Entries): Tokens
    decreases |d|
  {
    if d == [] then t else Apply(t[d[0].key := d[0].val], d[1..])
  }

  function Exported(d: Entries, ignored: set<string>): Entries {
    if d == [] then []
    else (if d[0].key in ignored then [] else [d[0]]) + Exported(d[1..], ignored)
  }

  // ----- the parser reads each printed entry back -----

  /** What can be read as a task or class name. */
  predicate NameText(s: string) {
    s != "" && forall i :: 0 <= i < |s| ==> s[i] != ' ' && s[i] != '}'
  }

  /** A task or class name that is read back. */
  predicate PlainName(s: string) {
    NameText(s) && NoBreaks(s)
  }

  predicate PlainKey(key: string) {
    key != "" && NoBreaks(key) && key[0] != '#' && key[0] != '.' && key[0] != '}' &&
    forall i :: 0 <= i < |key| ==> key[i] != ' ' && key[i] != '='
  }

  predicate Printable(key: string, v: AttrVal) {
    match v
    case Str(text) =>
      if key == "taskId" then PlainName(text) else key != "classes" && PlainKey(key) && NoBreaks(text)
    case Names(names) => key == "classes" && names != [] && forall i :: 0 <= i < |names| ==> PlainName(names[i])
    case _ => false
  }

  /** The printed entry does not begin in whitespace. */
  predicate StartsClean(e: Entry) {
    e.key == "taskId" || e.key == "classes" || e.key == "" || !IsSpace(e.key[0])
  }

  /** The printed entry does not end in whitespace. */
  predicate EndsClean(e: Entry) {
    match e.val
    case Str(text) => e.key == "taskId" && text != "" ==> !IsSpace(text[|text| - 1])
    case Names(names) =>
      names != [] && names[|names| - 1] != "" ==> !IsSpace(names[|names| - 1][|names[|names| - 1]| - 1])
    case _ => true
  }

  /** Stripping the printed list takes nothing from the first or the last entry. */
  predicate CleanEdges(d: Entries) {
    d != [] ==> StartsClean(d[0]) && EndsClean(d[|d| - 1])
  }

  predicate DistinctKeys(d: Entries) {
    forall i, j :: 0 <= i < j < |d| ==> d[i].key != d[j].key
  }

  predicate AllPrintable(d: Entries) {
    forall i :: 0 <= i < |d| ==> Printable(d[i].key, d[i].val)
  }

  /** The text goes on with a space or the closing brace. */
  predicate AtDelimiter(r: string) {
    r != "" && (r[0] == ' ' || r[0] == '}')
  }

  lemma {:induction false} ScanSkips(r: string, t: Tokens)
    ensures Scan(" " + r, t) == Scan(r, t)
  {
    assert (" " + r)[1..] == r;
  }

  function Escaped(c: char): string {
    if NeedsEscape(c) then ['\\', c] else [c]
  }

  lemma QuotedStep(c: char, tail: string)
    ensures Quoted(Escaped(c) + tail) == Prepend(c, Quoted(tail))
  {
    var r := Escaped(c) + tail;
    if NeedsEscape(c) {
      assert r[0] == '\\' && r[1] == c && r[2..] == tail;
    } else {
      assert r[0] == c && r[1..] == tail;
    }
  }

  lemma EscapeHead(v: string, x: string)
    requires v != ""
    ensures Escape(v) + x == Escaped(v[0]) + (Escape(v[1..]) + x)
  {
    assert "\\" + [v[0]] == ['\\', v[0]];
    assert Escape(v) == Escaped(v[0]) + Escape(v[1..]);
    Assoc(Escaped(v[0]), Escape(v[1..]), x);
  }

  function Preceded(v: string, q: QuotedResult): QuotedResult {
    if q.Closed? then Closed(v + q.value, q.rest) else q
  }

  lemma PrecededNone(q: QuotedResult)
    ensures Preceded("", q) == q
  {
    if q.Closed? {
      assert "" + q.value == q.value;
    }
  }

  lemma PrecededMore(v: string, q: QuotedResult)
    requires v != ""
    ensures Prepend(v[0], Preceded(v[1..], q)) == Preceded(v, q)
  {
    if q.Closed? {
      assert [v[0]] + (v[1..] + q.value) == v + q.value;
    }
  }

  /** Reading an escaped text reads the text, and goes on with what follows. */
  lemma {:induction false} EscapeReads(v: string, x: string)
    ensures Quoted(Escape(v) + x) == Preceded(v, Quoted(x))
  {
    var q := Quoted(x);
    if v == "" {
      assert Escape(v) + x == x;
      PrecededNone(q);
    } else {
      EscapeReads(v[1..], x);
      EscapeHead(v, x);
      QuotedStep(v[0], Escape(v[1..]) + x);
      PrecededMore(v, q);
    }
  }

  lemma QuotedEscape(v: string, rest: string)
    ensures Quoted(Escape(v) + "\"" + rest) == Closed(v, rest)
  {
    EscapeReads(v, "\"" + rest);
    Assoc(Escape(v), "\"", rest);
    assert ("\"" + rest)[1..] == rest;
    assert v + "" == v;
  }

  lemma {:induction false} KeyLengthIs(r: string, n: nat)
    requires n < |r| && r[n] == '='
    requires forall i :: 0 <= i < n ==> r[i] != ' ' && r[i] != '='
    ensures KeyLength(r) == n
  {
    var m := KeyLength(r);
    assert m <= n;
  }

  lemma {:induction false} TokenLengthIs(r: string, n: nat)
    requires n < |r| && (r[n] == ' ' || r[n] == '}')
    requires forall i :: 0 <= i < n ==> r[i] != ' ' && r[i] != '}'
    ensures TokenLength(r) == n
  {
    var m := TokenLength(r);
    assert m <= n;
  }

  lemma {:induction false} AssignmentParses(key: string, v: string, rest: string)
    requires PlainKey(key)
    ensures KeyValue(Assignment(key, v) + rest) == Pair(key, v, rest)
  {
    var r := Assignment(key, v) + rest;
    var n := |key|;
    assert r[n] == '=' && forall i :: 0 <= i < n ==> r[i] == key[i];
    KeyLengthIs(r, n);
    var body := Escape(v) + "\"" + rest;
    assert r[n + 1..] == "\"" + body;
    assert ("\"" + body)[1..] == body;
    assert r[..n] == key;
    QuotedEscape(v, rest);
  }

  lemma {:induction false} MarkedParses(mark: char, name: string, rest: string)
    requires PlainName(name) && AtDelimiter(rest)
    ensures Marked([mark] + name + rest, mark) == (Some(name), rest)
  {
    var r := [mark] + name + rest;
    var n := |name|;
    assert r[1..] == name + rest;
    assert (name + rest)[n] == rest[0];
    TokenLengthIs(name + rest, n);
    assert r[1..n + 1] == name && r[n + 1..] == rest;
  }

  /** One class name after those in `done`. */
  ghost function WithNames(t: Tokens, done: seq<string>): Tokens {
    if done == [] then t else t["classes" := Names(done)]
  }

  lemma {:induction false} ScanClass(done: seq<string>, name: string, rest: string, t: Tokens)
    requires "classes" !in t && PlainName(name) && AtDelimiter(rest)
    ensures Scan("." + name + rest, WithNames(t, done)) == Scan(rest, WithNames(t, done + [name]))
  {
    var r := "." + name + rest;
    MarkedParses('.', name, rest);
    assert Marked(r, '#') == (None, r);
    assert WithNames(t, done)["classes" := Names(done + [name])] == WithNames(t, done + [name]);
    assert done == [] ==> done + [name] == [name];
    assert SkipSpaces(r) == r;
  }

  lemma AppendHead<T>(a: seq<T>, b: seq<T>)
    requires b != []
    ensures a + [b[0]] + b[1..] == a + b
  {
  }

  lemma DottedHead(names: seq<string>, rest: string)
    requires |names| > 1
    ensures Dotted(names) + rest == "." + names[0] + (" " + (Dotted(names[1..]) + rest))
  {
  }

  lemma {:induction false} ScanClasses(done: seq<string>, names: seq<string>, rest: string, t: Tokens)
    requires "classes" !in t && names != [] && AtDelimiter(rest)
    requires forall i :: 0 <= i < |names| ==> PlainName(names[i])
    ensures Scan(Dotted(names) + rest, WithNames(t, done)) == Scan(rest, WithNames(t, done + names))
    decreases |names|
  {
    if |names| == 1 {
      ScanClass(done, names[0], rest, t);
      assert done + names == done + [names[0]];
    } else {
      var more := Dotted(names[1..]) + rest;
      DottedHead(names, rest);
      ScanClass(done, names[0], " " + more, t);
      ScanSkips(more, WithNames(t, done + [names[0]]));
      ScanClasses(done + [names[0]], names[1..], rest, t);
      AppendHead(done, names);
    }
  }

  lemma {:induction false} ScanEntry(key: string, v: AttrVal, rest: string, t: Tokens, ignored: set<string>)
    requires Typed([Entry(key, v)]) && Printable(key, v) && AtDelimiter(rest) && key !in t
    ensures Scan(EntryText(key, v, ignored) + rest, t) == Scan(rest, t[key := v])
  {
    var r := EntryText(key, v, ignored) + rest;
    match v
    case Names(names) =>
      ScanClasses([], names, rest, t);
      assert [] + names == names;
    case Str(text) =>
      if key == "taskId" {
        MarkedParses('#', text, rest);
        assert SkipSpaces(r) == r;
      } else {
        AssignmentParses(key, text, rest);
        assert r[0] == key[0] && key[0] != ' ';
        assert SkipSpaces(r) == r;
        assert Marked(r, '#') == (None, r) && Marked(r, '.') == (None, r);
      }
  }

  // ----- a whole dictionary -----

  /** The printed entries, ignored ones left out. */
  function EntryTexts(d: Entries, ignored: set<string>): seq<string>
    requires Typed(d)
  {
    if d == [] then []
    else
      assert Typed([d[0]]);
      (if d[0].key in ignored then [] else [EntryText(d[0].key, d[0].val, ignored)]) + EntryTexts(d[1..], ignored)
  }

  function Spaced(items: seq<string>): string {
    if items == [] then "" else items[0] + " " + Spaced(items[1..])
  }

  /** `" ".join(items)`. */
  function Joined(items: seq<string>): string {
    if items == [] then "" else if |items| == 1 then items[0] else items[0] + " " + Joined(items[1..])
  }

  predicate Solid(items: seq<string>) {
    forall i :: 0 <= i < |items| ==> items[i] != ""
  }

  /** Neither end of the list is whitespace. */
  predicate Edged(items: seq<string>) {
    items != [] ==>
      var last := items[|items| - 1];
      (items[0] != "" ==> !IsSpace(items[0][0])) && (last != "" ==> !IsSpace(last[|last| - 1]))
  }

  lemma {:induction false} SpacedJoined(items: seq<string>)
    requires items != [] && Solid(items)
    ensures Spaced(items) == Joined(items) + " "
    ensures Joined(items) != "" && Joined(items)[0] == items[0][0]
    ensures var j, last := Joined(items), items[|items| - 1]; j[|j| - 1] == last[|last| - 1]
  {
    if |items| == 1 {
      assert Spaced(items[1..]) == "";
    } else {
      var more := items[1..];
      SpacedJoined(more);
      Assoc(items[0] + " ", Joined(more), " ");
      HeadAndLast(items[0], Joined(more));
      assert more[|more| - 1] == items[|items| - 1];
    }
  }

  lemma HeadAndLast(first: string, more: string)
    requires first != "" && more != ""
    ensures var j := first + " " + more; j[0] == first[0] && j[|j| - 1] == more[|more| - 1]
  {
  }

  lemma {:induction false} SpacedAppend(a: seq<string>, b: seq<string>)
    ensures Spaced(a + b) == Spaced(a) + Spaced(b)
  {
    if a == [] {
      assert a + b == b;
    } else {
      SpacedAppend(a[1..], b);
      assert (a + b)[1..] == a[1..] + b;
    }
  }

  lemma {:induction false} BodySpaced(d: Entries, ignored: set<string>)
    requires Typed(d)
    ensures Body(d, ignored) == Spaced(EntryTexts(d, ignored))
  {
    if d != [] {
      assert Typed([d[0]]);
      BodySpaced(d[1..], ignored);
      var head := if d[0].key in ignored then [] else [EntryText(d[0].key, d[0].val, ignored)];
      SpacedAppend(head, EntryTexts(d[1..], ignored));
    }
  }

  lemma JoinedTrimmed(items: seq<string>)
    requires Solid(items) && Edged(items)
    ensures Trimmed(Joined(items))
  {
    if items != [] {
      SpacedJoined(items);
    }
  }

  /** One space behind a trimmed text is stripped. */
  lemma StripSpace(s: string)
    requires Trimmed(s)
    ensures Strip(s + " ") == s
  {
    StripPadded("", s, " ");
    assert "" + s == s;
  }

  /** If the outer ends of the texts are not whitespace, only the last separator is stripped. */
  lemma {:induction false} AttrsTextJoined(d: Entries, ignored: set<string>)
    requires Typed(d) && Solid(EntryTexts(d, ignored)) && Edged(EntryTexts(d, ignored))
    ensures AttrsText(d, ignored) == Joined(EntryTexts(d, ignored))
  {
    var items := EntryTexts(d, ignored);
    BodySpaced(d, ignored);
    JoinedTrimmed(items);
    if items != [] {
      SpacedJoined(items);
      StripSpace(Joined(items));
    }
  }

  lemma {:induction false} DottedSolid(names: seq<string>)
    requires names != [] && forall i :: 0 <= i < |names| ==> PlainName(names[i])
    ensures NoBreaks(Dotted(names))
    ensures var j, last := Dotted(names), names[|names| - 1];
            j != "" && last != "" && j[0] == '.' && j[|j| - 1] == last[|last| - 1]
  {
    var j := Dotted(names);
    if |names| > 1 {
      DottedSolid(names[1..]);
      assert j[|j| - 1] == Dotted(names[1..])[|Dotted(names[1..])| - 1];
    } else {
      assert j[|j| - 1] == names[0][|names[0]| - 1];
    }
  }

  lemma {:induction false} EscapeNoBreaks(v: string)
    requires NoBreaks(v)
    ensures NoBreaks(Escape(v))
  {
    if v != "" {
      EscapeNoBreaks(v[1..]);
    }
  }

  lemma {:induction false} EntrySolid(key: string, v: AttrVal, ignored: set<string>)
    requires Typed([Entry(key, v)]) && Printable(key, v)
    ensures var text := EntryText(key, v, ignored);
            && text != "" && NoBreaks(text)
            && (StartsClean(Entry(key, v)) ==> !IsSpace(text[0]))
            && (EndsClean(Entry(key, v)) ==> !IsSpace(text[|text| - 1]))
  {
    var text := EntryText(key, v, ignored);
    match v
    case Names(names) => DottedSolid(names);
    case Str(w) =>
      if key == "taskId" {
        assert text[|text| - 1] == w[|w| - 1];
      } else {
        EscapeNoBreaks(w);
      }
  }

  lemma {:induction false} EntriesSolid(d: Entries, ignored: set<string>)
    requires Typed(d) && AllPrintable(Exported(d, ignored))
    ensures Solid(EntryTexts(d, ignored)) && |EntryTexts(d, ignored)| == |Exported(d, ignored)|
    ensures forall i :: 0 <= i < |EntryTexts(d, ignored)| ==> NoBreaks(EntryTexts(d, ignored)[i])
  {
    if d != [] {
      assert Typed([d[0]]);
      var more := Exported(d[1..], ignored);
      if d[0].key in ignored {
        assert Exported(d, ignored) == more;
      } else {
        assert Exported(d, ignored) == [d[0]] + more;
        assert more == Exported(d, ignored)[1..] && Exported(d, ignored)[0] == d[0];
        EntrySolid(d[0].key, d[0].val, ignored);
      }
      EntriesSolid(d[1..], ignored);
    }
  }

  lemma TextAt(d: Entries, ignored: set<string>, i: nat)
    requires Typed(d) && i < |d| && forall k :: 0 <= k < |d| ==> d[k].key !in ignored
    ensures Typed([d[i]]) && |EntryTexts(d, ignored)| == |d|
    ensures EntryTexts(d, ignored)[i] == EntryText(d[i].key, d[i].val, ignored)
    decreases i, |d|
  {
    assert Typed([d[i]]) && Typed([d[0]]);
    TextsCount(d, ignored);
    if i > 0 {
      TextAt(d[1..], ignored, i - 1);
    }
  }

  lemma {:induction false} TextsCount(d: Entries, ignored: set<string>)
    requires Typed(d) && forall k :: 0 <= k < |d| ==> d[k].key !in ignored
    ensures |EntryTexts(d, ignored)| == |d|
  {
    if d != [] {
      TextsCount(d[1..], ignored);
    }
  }

  /** The outer ends of printed entries. */
  lemma {:induction false} EntriesEdged(d: Entries, ignored: set<string>)
    requires Typed(d) && AllPrintable(Exported(d, ignored)) && CleanEdges(Exported(d, ignored))
    ensures Edged(EntryTexts(d, ignored))
  {
    var e := Exported(d, ignored);
    ExportedTexts(d, ignored);
    ExportedMembers(d, ignored);
    if e != [] {
      PrintedEdges(e, ignored);
    }
  }

  lemma PrintedEdges(e: Entries, ignored: set<string>)
    requires Typed(e) && AllPrintable(e) && CleanEdges(e) && e != []
    requires forall k :: 0 <= k < |e| ==> e[k].key !in ignored
    ensures Edged(EntryTexts(e, ignored))
  {
    TextEdges(e, ignored, 0);
    TextEdges(e, ignored, |e| - 1);
  }

  lemma TextEdges(d: Entries, ignored: set<string>, i: nat)
    requires Typed(d) && i < |d| && Printable(d[i].key, d[i].val)
    requires forall k :: 0 <= k < |d| ==> d[k].key !in ignored
    ensures |EntryTexts(d, ignored)| == |d|
    ensures var text := EntryTexts(d, ignored)[i];
            && text != "" && (StartsClean(d[i]) ==> !IsSpace(text[0]))
            && (EndsClean(d[i]) ==> !IsSpace(text[|text| - 1]))
  {
    TextAt(d, ignored, i);
    EntrySolid(d[i].key, d[i].val, ignored);
  }

  /** The parser reads the entries one by one, up to the delimiter that follows them. */
  lemma {:induction false} ScanEntries(d: Entries, rest: string, t: Tokens, ignored: set<string>)
    requires Typed(d) && AllPrintable(d) && DistinctKeys(d) && AtDelimiter(rest)
    requires forall i :: 0 <= i < |d| ==> d[i].key !in t && d[i].key !in ignored
    ensures Scan(Joined(EntryTexts(d, ignored)) + rest, t) == Scan(rest, Apply(t, d))
    decreases |d|
  {
    var items := EntryTexts(d, ignored);
    if d == [] {
      assert Joined(items) + rest == rest;
    } else {
      assert Typed([d[0]]);
      var text := EntryText(d[0].key, d[0].val, ignored);
      var t' := t[d[0].key := d[0].val];
      var more := EntryTexts(d[1..], ignored);
      assert items == [text] + more;
      if |d| == 1 {
        ScanEntry(d[0].key, d[0].val, rest, t, ignored);
        assert Joined(items) == text;
      } else {
        assert more != [];
        var tail := Joined(more) + rest;
        JoinedHead(text, more, rest);
        ScanEntry(d[0].key, d[0].val, " " + tail, t, ignored);
        ScanSkips(tail, t');
        ScanEntries(d[1..], rest, t', ignored);
      }
    }
  }

  lemma JoinedHead(text: string, more: seq<string>, rest: string)
    requires more != []
    ensures Joined([text] + more) + rest == text + (" " + (Joined(more) + rest))
  {
    assert ([text] + more)[1..] == more;
  }

  lemma {:induction false} ExportedMembers(d: Entries, ignored: set<string>)
    ensures forall x :: x in Exported(d, ignored) ==> x.key !in ignored && x in d
  {
    if d != [] {
      ExportedMembers(d[1..], ignored);
    }
  }

  lemma ExportedTyped(d: Entries, ignored: set<string>)
    requires Typed(d)
    ensures Typed(Exported(d, ignored))
  {
    ExportedMembers(d, ignored);
    var e := Exported(d, ignored);
    forall i | 0 <= i < |e|
      ensures exists j :: 0 <= j < |d| && d[j] == e[i]
    {
      assert e[i] in d;
    }
  }

  lemma TextsCons(x: Entry, more: Entries, ignored: set<string>)
    requires Typed([x]) && Typed(more) && Typed([x] + more)
    ensures EntryTexts([x] + more, ignored) ==
            (if x.key in ignored then [] else [EntryText(x.key, x.val, ignored)]) + EntryTexts(more, ignored)
  {
    assert ([x] + more)[0] == x && ([x] + more)[1..] == more;
  }

  lemma {:induction false} ExportedTexts(d: Entries, ignored: set<string>)
    requires Typed(d)
    ensures Typed(Exported(d, ignored))
    ensures EntryTexts(Exported(d, ignored), ignored) == EntryTexts(d, ignored)
  {
    ExportedTyped(d, ignored);
    if d != [] {
      ExportedTexts(d[1..], ignored);
      assert Typed([d[0]]);
      var e, more := Exported(d, ignored), Exported(d[1..], ignored);
      if d[0].key !in ignored {
        TextsCons(d[0], more, ignored);
      } else {
        assert e == more;
      }
    }
  }

  lemma {:induction false} ExportedDistinct(d: Entries, ignored: set<string>)
    requires DistinctKeys(d)
    ensures DistinctKeys(Exported(d, ignored))
  {
    if d != [] {
      ExportedDistinct(d[1..], ignored);
      ExportedMembers(d[1..], ignored);
      var more := Exported(d[1..], ignored);
      forall i | 0 <= i < |more|
        ensures more[i].key != d[0].key
      {
        assert more[i] in d[1..];
      }
    }
  }

  lemma ExportedKeeps(d: Entries, ignored: set<string>)
    requires Typed(d)
    ensures Typed(Exported(d, ignored))
    ensures EntryTexts(Exported(d, ignored), ignored) == EntryTexts(d, ignored)
    ensures forall i :: 0 <= i < |Exported(d, ignored)| ==>
              Exported(d, ignored)[i].key !in ignored && Exported(d, ignored)[i] in d
    ensures DistinctKeys(d) ==> DistinctKeys(Exported(d, ignored))
  {
    ExportedTexts(d, ignored);
    ExportedMembers(d, ignored);
    if DistinctKeys(d) {
      ExportedDistinct(d, ignored);
    }
  }

  /** Closing the list ends it, whatever spaces follow. */
  lemma {:induction false} ScanCloses(t: Tokens)
    ensures Scan("}", t) == Found(t)
  {
    assert "}"[1..] == "";
  }

  /**
   Attribute list round trip: the text printed for a dictionary, read after the opening brace, gives
   back the exported entries.
   */
  lemma {:induction false} AttributesRoundTrip(d: Entries, ignored: set<string>)
    requires Typed(d) && DistinctKeys(d) && AllPrintable(Exported(d, ignored)) && CleanEdges(Exported(d, ignored))
    ensures Scan(AttrsText(d, ignored) + "}", map[]) == Found(Apply(map[], Exported(d, ignored)))
  {
    var e := Exported(d, ignored);
    ExportedKeeps(d, ignored);
    EntriesSolid(d, ignored);
    EntriesEdged(d, ignored);
    AttrsTextJoined(d, ignored);
    ScanEntries(e, "}", map[], ignored);
    ScanCloses(Apply(map[], e));
  }

  predicate HasKey(d: Entries, k: string) {
    exists i :: 0 <= i < |d| && d[i].key == k
  }

  /** The collected dictionary holds every entry under its key and nothing else. */
  lemma {:induction false} ApplyHolds(t: Tokens, d: Entries)
    requires DistinctKeys(d)
    ensures forall i :: 0 <= i < |d| ==> d[i].key in Apply(t, d) && Apply(t, d)[d[i].key] == d[i].val
    ensures forall k :: k in Apply(t, d) <==> HasKey(d, k) || k in t
    ensures forall k :: k in t && !HasKey(d, k) ==> Apply(t, d)[k] == t[k]
    decreases |d|
  {
    if d != [] {
      var tail := d[1..];
      ApplyHolds(t[d[0].key := d[0].val], tail);
      assert forall i :: 1 <= i < |d| ==> d[i] == tail[i - 1];
      forall k
        ensures HasKey(d, k) <==> d[0].key == k || HasKey(tail, k)
      {
        if HasKey(tail, k) {
          var i :| 0 <= i < |tail| && tail[i].key == k;
          assert d[i + 1].key == k;
        }
      }
      assert !HasKey(tail, d[0].key);
    }
  }

  // ----- a list at the end of a line -----

  /** No brace of `line` before position `n` opens a list, and none raises. */
  predicate NoListBefore(line: string, n: nat)
    requires n <= |line|
  {
    forall i :: 0 <= i < n && line[i] == '{' ==> Scan(line[i + 1..], map[]) == NoList
  }

  lemma SkipsOne(line: string, i: nat)
    requires i < |line| && (line[i] == '{' ==> Scan(line[i + 1..], map[]) == NoList)
    ensures FirstList(line, i) == FirstList(line, i + 1)
  {
  }

  lemma {:induction false} FirstListSkips(line: string, i: nat, n: nat)
    requires i <= n <= |line|
    requires forall k :: i <= k < n && line[k] == '{' ==> Scan(line[k + 1..], map[]) == NoList
    ensures FirstList(line, i) == FirstList(line, n)
    decreases n - i
  {
    if i < n {
      SkipsOne(line, i);
      FirstListSkips(line, i + 1, n);
    }
  }

  /** What the search for a list yields at a brace that does not fail to open one. */
  lemma ListHere(line: string, i: nat)
    requires i < |line| && line[i] == '{' && Scan(line[i + 1..], map[]) != NoList
    ensures var list := Scan(line[i + 1..], map[]);
            FirstList(line, i) == if list.Found? then ListAt(list.tokens, i) else ListRaised(list.error)
  {
  }

  /** The search stops at a list at `k` or before. */
  predicate StopsBy(r: ListResult, k: nat) {
    r.ListRaised? || (r.ListAt? && r.at <= k)
  }

  lemma StopsHere(line: string, i: nat)
    requires i < |line| && line[i] == '{' && Scan(line[i + 1..], map[]) != NoList
    ensures StopsBy(FirstList(line, i), i)
  {
    ListHere(line, i);
  }

  lemma {:induction false} FirstListStops(line: string, i: nat, k: nat)
    requires i <= k < |line| && line[k] == '{' && Scan(line[k + 1..], map[]) != NoList
    ensures StopsBy(FirstList(line, i), k)
    decreases k - i
  {
    if i == k {
      StopsHere(line, k);
    } else if line[i] == '{' && Scan(line[i + 1..], map[]) != NoList {
      StopsHere(line, i);
    } else {
      SkipsOne(line, i);
      FirstListStops(line, i + 1, k);
    }
  }

  lemma Plainly(line: string)
    requires forall i :: 0 <= i < |line| ==> line[i] != '{'
    ensures GetAttributes(line) == Ok(Attributes(CodeInfo(line), None))
  {
    FirstListSkips(line, 0, |line|);
  }

  lemma {:induction false} LanguageOfPrefix(first: string, rest: string)
    requires first != "" && Trimmed(first)
    ensures Language(first + " {" + rest) == Language(first)
  {
    var line := first + " {" + rest;
    assert line[0] == first[0];
    if first[0] == '`' {
      var n := RunLength(first, '`');
      assert line[|first|] == ' ';
      RunLengthIs(line, '`', n);
      assert line[n..] == first[n..] + " {" + rest;
      LanguageAfter(first[n..], rest);
    }
  }

  lemma {:induction false} LanguageAfter(r: string, rest: string)
    requires r == "" || !IsSpace(r[|r| - 1])
    ensures var a, b := SkipSpaces(r), SkipSpaces(r + " {" + rest);
            a[..LanguageLength(a)] == b[..LanguageLength(b)]
  {
    if r == "" {
      assert r + " {" + rest == " " + ("{" + rest);
      assert (" " + ("{" + rest))[1..] == "{" + rest;
      assert SkipSpaces(r + " {" + rest) == "{" + rest;
    } else if r[0] == ' ' {
      assert (r + " {" + rest)[1..] == r[1..] + " {" + rest;
      LanguageAfter(r[1..], rest);
    } else {
      LanguageLengthAfter(r, rest);
      var n := LanguageLength(r);
      assert (r + " {" + rest)[..n] == r[..n];
    }
  }

  lemma {:induction false} LanguageLengthAfter(r: string, rest: string)
    ensures LanguageLength(r + " {" + rest) == LanguageLength(r)
  {
    if r != "" && r[0] != ' ' && r[0] != '{' {
      assert (r + " {" + rest)[1..] == r[1..] + " {" + rest;
      LanguageLengthAfter(r[1..], rest);
    }
  }

  /** A text and a list are split apart again if no brace of the text opens a list. */
  lemma ListFound(first: string, list: string, t: Tokens)
    requires Scan(list, map[]) == Found(t) && NoListBefore(first + " {" + list, |first|)
    ensures FirstList(first + " {" + list, 0) == ListAt(t, |first| + 1)
  {
    var line := first + " {" + list;
    var n := |first| + 1;
    assert line[n] == '{' && line[|first|] == ' ' && line[n + 1..] == list;
    FirstListSkips(line, 0, n);
  }

  lemma ListHidden(first: string, list: string)
    requires !NoListBefore(first + " {" + list, |first|)
    ensures var r := FirstList(first + " {" + list, 0); r.ListRaised? || (r.ListAt? && r.at < |first|)
  {
    var line := first + " {" + list;
    var k :| 0 <= k < |first| && line[k] == '{' && Scan(line[k + 1..], map[]) != NoList;
    FirstListStops(line, 0, k);
  }

  lemma LineWithList(first: string, list: string, t: Tokens)
    requires first != "" && Trimmed(first) && Scan(list, map[]) == Found(t)
    ensures var line := first + " {" + list;
            GetAttributes(line) == Ok(Attributes(t + CodeInfo(first), Some(|first| + 1))) <==>
            NoListBefore(line, |first|)
  {
    var line := first + " {" + list;
    LanguageOfPrefix(first, list);
    if NoListBefore(line, |first|) {
      ListFound(first, list, t);
      AttributesFound(line, t, |first| + 1);
    } else {
      ListHidden(first, list);
      AttributesHidden(line, |first|);
      assert GetAttributes(line) != Ok(Attributes(t + CodeInfo(first), Some(|first| + 1)));
    }
  }

  /** What the search for a list means for the attributes of a line. */
  predicate Yields(line: string, r: ListResult) {
    match r
    case ListAt(t, at) => GetAttributes(line) == Ok(Attributes(t + CodeInfo(line), Some(at)))
    case Nowhere => GetAttributes(line) == Ok(Attributes(CodeInfo(line), None))
    case ListRaised(_) => GetAttributes(line).Raised?
  }

  lemma LineYields(line: string)
    ensures Yields(line, FirstList(line, 0))
  {
  }

  lemma AttributesFound(line: string, t: Tokens, at: nat)
    requires FirstList(line, 0) == ListAt(t, at)
    ensures GetAttributes(line) == Ok(Attributes(t + CodeInfo(line), Some(at)))
  {
  }

  lemma AttributesHidden(line: string, n: nat)
    requires var r := FirstList(line, 0); r.ListRaised? || (r.ListAt? && r.at < n)
    ensures forall t, at :: at >= n ==> GetAttributes(line) != Ok(Attributes(t, Some(at)))
  {
  }

  /**
   A carrier line, that is a trimmed text followed by a printed list, is split where it was put
   together if and only if no brace of the text opens a list of its own.
   */
  lemma {:induction false} CarrierLine(first: string, d: Entries, ignored: set<string>)
    requires first != "" && Trimmed(first)
    requires Typed(d) && DistinctKeys(d) && AllPrintable(Exported(d, ignored)) && CleanEdges(Exported(d, ignored))
    ensures var line := first + " {" + AttrsText(d, ignored) + "}";
            var split := Ok(Attributes(Apply(map[], Exported(d, ignored)) + CodeInfo(first), Some(|first| + 1)));
            GetAttributes(line) == split <==> NoListBefore(line, |first|)
  {
    AttributesRoundTrip(d, ignored);
    Assoc(first + " {", AttrsText(d, ignored), "}");
    LineWithList(first, AttrsText(d, ignored) + "}", Apply(map[], Exported(d, ignored)));
  }
}
