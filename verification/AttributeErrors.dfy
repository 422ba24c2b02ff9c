/** When reading attributes raises: exactly which texts do, and what a caller can look for beforehand. */
module AttributeErrors {
  import opened Text
  import opened AttributeList
  import opened AttributePrinting

  // ----- a quoted value that is cut off after a backslash -----

  lemma EscapeOverruns(v: string)
    ensures Quoted(Escape(v) + "\\") == Overrun
  {
    EscapeReads(v, "\\");
  }

  lemma EscapeCons(c: char, v: string)
    ensures Escape([c] + v) == Escaped(c) + Escape(v)
  {
    assert ([c] + v)[1..] == v;
    assert "\\" + [c] == ['\\', c];
  }

  lemma {:induction false} OverrunIs(r: string) returns (v: string)
    requires Quoted(r) == Overrun
    ensures r == Escape(v) + "\\"
  {
    if r[0] == '\\' {
      if |r| == 1 {
        v := "";
      } else {
        var w := OverrunIs(r[2..]);
        v := [r[1]] + w;
        EscapeCons(r[1], w);
        assert r == [r[0], r[1]] + r[2..];
      }
    } else {
      var w := OverrunIs(r[1..]);
      v := [r[0]] + w;
      EscapeCons(r[0], w);
      assert r == [r[0]] + r[1..];
    }
  }

  /** A quoted value reads past the end exactly when what is left is an escaped text and one more backslash. */
  lemma QuotedOverruns(r: string)
    ensures Quoted(r) == Overrun <==> exists v :: r == Escape(v) + "\\"
  {
    if Quoted(r) == Overrun {
      var v := OverrunIs(r);
    }
    if v :| r == Escape(v) + "\\" {
      EscapeOverruns(v);
    }
  }

  /** An assignment whose quoted value is cut off after a backslash. */
  function Dangling(key: string, v: string): string {
    key + "=\"" + (Escape(v) + "\\")
  }

  predicate KeyText(key: string) {
    key != "" && forall i :: 0 <= i < |key| ==> key[i] != ' ' && key[i] != '='
  }

  ghost predicate DanglingPair(r: string) {
    exists key, v :: KeyText(key) && r == Dangling(key, v)
  }

  lemma DanglingOverruns(key: string, v: string)
    requires KeyText(key)
    ensures KeyValue(Dangling(key, v)) == PairRaised
  {
    var body := Escape(v) + "\\";
    EscapeOverruns(v);
    QuoteValue(key, body);
  }

  /** Reading an assignment reads the quoted value behind its key. */
  lemma QuoteValue(key: string, body: string)
    requires KeyText(key) && Quoted(body) == Overrun
    ensures KeyValue(key + "=\"" + body) == PairRaised
  {
    var r := key + "=\"" + body;
    assert r[|key|] == '=' && forall i :: 0 <= i < |key| ==> r[i] == key[i];
    KeyLengthIs(r, |key|);
    assert r[|key| + 1..] == "\"" + body;
    assert ("\"" + body)[1..] == body;
  }

  lemma OverrunPair(r: string)
    requires KeyValue(r) == PairRaised
    ensures DanglingPair(r)
  {
    var n := KeyLength(r);
    var value := r[n + 1..];
    var v := OverrunIs(value[1..]);
    assert KeyText(r[..n]);
    Quoting(r, n, Escape(v) + "\\");
    assert r == Dangling(r[..n], v);
  }

  lemma Quoting(r: string, n: nat, body: string)
    requires n + 1 < |r| && r[n] == '=' && r[n + 1] == '"' && r[n + 1..][1..] == body
    ensures r == r[..n] + "=\"" + body
  {
    assert r == r[..n] + (['=', '"'] + r[n + 1..][1..]);
  }

  /** Reading an assignment raises exactly when it is one whose quoted value is cut off after a backslash. */
  lemma PairOverruns(r: string)
    ensures KeyValue(r) == PairRaised <==> DanglingPair(r)
  {
    if KeyValue(r) == PairRaised {
      OverrunPair(r);
    }
    if key, v :| KeyText(key) && r == Dangling(key, v) {
      DanglingOverruns(key, v);
    }
  }

  // ----- one item -----

  predicate NamesTask(r: string)
    requires r != ""
  {
    var (task, _) := Marked(r, '#');
    task.Some? && task.value != ""
  }

  /** What is left of an item after a mark without a name. */
  function PastHash(r: string): (rest: string)
    requires r != ""
    ensures rest != "" && |rest| <= |r|
  {
    Marked(r, '#').1
  }

  predicate NamesClass(r: string)
    requires r != ""
  {
    var (name, _) := Marked(PastHash(r), '.');
    name.Some? && name.value != ""
  }

  function PastMarks(r: string): (rest: string)
    requires r != ""
    ensures rest != ""
  {
    Marked(PastHash(r), '.').1
  }

  /** A text under `classes`, to which no class can be added. */
  predicate TextClasses(t: Tokens) {
    "classes" in t && match t["classes"]
                      case Str(text) => text != ""
                      case Names(_) => false
                      case _ => true
  }

  /** An item at which reading raises: a class after a text under `classes`, or a cut-off value. */
  ghost predicate BadItem(r: string, t: Tokens, e: Error)
    requires r != ""
  {
    !NamesTask(r) &&
    if NamesClass(r) then e == AttributeError && TextClasses(t)
    else e == IndexError && DanglingPair(PastMarks(r))
  }

  lemma AddClassRaises(t: Tokens, name: string)
    ensures AddClass(t, name).Raised? <==> TextClasses(t)
  {
  }

  lemma BadItemRaises(r: string, t: Tokens, e: Error)
    requires r != ""
    ensures NextItem(r, t) == ItemRaised(e) <==> BadItem(r, t, e)
  {
    if !NamesTask(r) {
      if NamesClass(r) {
        AddClassRaises(t, Marked(PastHash(r), '.').0.value);
      } else {
        PairOverruns(PastMarks(r));
      }
    }
  }

  // ----- a list, and a line -----

  /** The list goes on with an item. */
  predicate HasItem(r: string, t: Tokens) {
    var r1 := SkipSpaces(r);
    r1 != "" && r1[0] != '}' && NextItem(r1, t).Item?
  }

  /** The list goes on with an item that raises. */
  ghost predicate BadNext(r: string, t: Tokens, e: Error) {
    var r1 := SkipSpaces(r);
    r1 != "" && r1[0] != '}' && BadItem(r1, t, e)
  }

  /** Following the items from here, one comes to an item that raises. */
  ghost predicate LeadsToBad(r: string, t: Tokens, e: Error)
    decreases |r|
  {
    if HasItem(r, t) then
      var item := NextItem(SkipSpaces(r), t);
      LeadsToBad(item.rest, item.tokens, e)
    else BadNext(r, t, e)
  }

  lemma ScanMore(r: string, t: Tokens)
    requires HasItem(r, t)
    ensures var item := NextItem(SkipSpaces(r), t);
            Scan(r, t) == Scan(item.rest, item.tokens) && |item.rest| < |r|
  {
  }

  lemma ScanNow(r: string, t: Tokens, e: Error)
    requires !HasItem(r, t)
    ensures Scan(r, t) == ScanRaised(e) <==> BadNext(r, t, e)
  {
    var r1 := SkipSpaces(r);
    if r1 != "" && r1[0] != '}' {
      BadItemRaises(r1, t, e);
    }
  }

  lemma {:induction false} ScanRaisesWhen(r: string, t: Tokens, e: Error)
    ensures Scan(r, t) == ScanRaised(e) <==> LeadsToBad(r, t, e)
    decreases |r|
  {
    if HasItem(r, t) {
      ScanMore(r, t);
      var item := NextItem(SkipSpaces(r), t);
      ScanRaisesWhen(item.rest, item.tokens, e);
    } else {
      ScanNow(r, t, e);
    }
  }

  lemma NoListMore(line: string, i: nat)
    requires i < |line| && NoListBefore(line, i)
    requires line[i] == '{' ==> Scan(line[i + 1..], map[]) == NoList
    ensures NoListBefore(line, i + 1) && FirstList(line, i) == FirstList(line, i + 1)
  {
    FirstListSkips(line, i, i + 1);
  }

  /** The brace at `k` is the first that does not fail to open a list, and its list raises. */
  predicate RaisingList(line: string, k: nat, e: Error) {
    k < |line| && line[k] == '{' && NoListBefore(line, k) && Scan(line[k + 1..], map[]) == ScanRaised(e)
  }

  lemma RaisesHere(line: string, i: nat, e: Error)
    requires i < |line| && line[i] == '{' && Scan(line[i + 1..], map[]) != NoList
    requires NoListBefore(line, i) && FirstList(line, i) == ListRaised(e)
    ensures RaisingList(line, i, e)
  {
  }

  lemma {:induction false} FirstListRaises(line: string, i: nat, e: Error) returns (k: nat)
    requires i <= |line| && NoListBefore(line, i) && FirstList(line, i) == ListRaised(e)
    ensures RaisingList(line, k, e)
    decreases |line| - i
  {
    if line[i] == '{' && Scan(line[i + 1..], map[]) != NoList {
      RaisesHere(line, i, e);
      k := i;
    } else {
      NoListMore(line, i);
      k := FirstListRaises(line, i + 1, e);
    }
  }

  /** No brace before `k` opens a list, and the one at `k` leads to an item that raises. */
  ghost predicate Raising(line: string, k: nat, e: Error) {
    k < |line| && line[k] == '{' && NoListBefore(line, k) && LeadsToBad(line[k + 1..], map[], e)
  }

  /**
   Reading the attributes of a line raises exactly when the first brace that does not fail to open a
   list leads to an item that raises.
   */
  lemma AttributesRaise(line: string, e: Error)
    ensures GetAttributes(line) == Raised(e) <==> exists k :: Raising(line, k, e)
  {
    if GetAttributes(line) == Raised(e) {
      var k := FirstListRaises(line, 0, e);
      ScanRaisesWhen(line[k + 1..], map[], e);
      assert Raising(line, k, e);
    }
    if k :| Raising(line, k, e) {
      ScanRaisesWhen(line[k + 1..], map[], e);
      FirstListSkips(line, 0, k);
    }
  }

  // ----- what a caller can look for -----

  predicate EndsInBackslash(s: string) {
    s != "" && s[|s| - 1] == '\\'
  }

  /** `rest` is what is left of `r` after some characters. */
  predicate TailOf(rest: string, r: string) {
    |rest| <= |r| && rest == r[|r| - |rest|..]
  }

  lemma TailTrans(a: string, b: string, c: string)
    requires TailOf(a, b) && TailOf(b, c)
    ensures TailOf(a, c)
  {
  }

  lemma {:induction false} SpacesTail(r: string)
    ensures TailOf(SkipSpaces(r), r)
  {
    if r != "" && r[0] == ' ' {
      SpacesTail(r[1..]);
      TailTrans(SkipSpaces(r), r[1..], r);
    }
  }

  lemma MarkedTail(r: string, mark: char)
    requires r != ""
    ensures TailOf(Marked(r, mark).1, r)
  {
  }

  lemma {:induction false} QuotedTail(r: string)
    ensures Quoted(r).Closed? ==> TailOf(Quoted(r).rest, r)
  {
    if r != "" && r[0] != '"' {
      if r[0] != '\\' {
        QuotedTail(r[1..]);
        if Quoted(r).Closed? { TailTrans(Quoted(r).rest, r[1..], r); }
      } else if |r| > 1 && NeedsEscape(r[1]) {
        QuotedTail(r[2..]);
        if Quoted(r).Closed? { TailTrans(Quoted(r).rest, r[2..], r); }
      }
    }
  }

  lemma UnquotedTail(r: string)
    ensures TailOf(Unquoted(r).1, r)
  {
  }

  lemma PairReads(r: string)
    requires KeyValue(r).Pair?
    ensures var n := KeyLength(r); 0 < n < |r| && r[n] == '=' && KeyValue(r) == Assigned(r[..n], r[n + 1..])
  {
  }

  /** After an assignment, what is left lies behind its equals sign. */
  lemma PairTail(r: string)
    requires KeyValue(r).Pair?
    ensures var n := |KeyValue(r).key|;
            n < |r| && r[..n] == KeyValue(r).key && r[n] == '=' && TailOf(KeyValue(r).rest, r[n + 1..])
  {
    PairReads(r);
    ValueTail(r[..KeyLength(r)], r[KeyLength(r) + 1..]);
  }

  lemma ValueTail(key: string, v: string)
    requires Assigned(key, v).Pair?
    ensures TailOf(Assigned(key, v).rest, v)
  {
    UnquotedTail(v);
    if v != "" && v[0] == '"' {
      QuotedTail(v[1..]);
      TailTrans(Quoted(v[1..]).rest, v[1..], v);
    }
  }

  lemma PastMarksTail(r: string)
    requires r != ""
    ensures TailOf(PastHash(r), r) && TailOf(PastMarks(r), r)
  {
    MarkedTail(r, '#');
    MarkedTail(PastHash(r), '.');
    TailTrans(PastMarks(r), PastHash(r), r);
  }

  lemma AfterPairTail(r: string)
    requires KeyValue(r).Pair?
    ensures TailOf(KeyValue(r).rest, r)
  {
    PairTail(r);
    var n := |KeyValue(r).key|;
    TailTrans(KeyValue(r).rest, r[n + 1..], r);
  }

  lemma ItemTail(r: string, t: Tokens)
    requires r != "" && NextItem(r, t).Item?
    ensures TailOf(NextItem(r, t).rest, r)
  {
    PastMarksTail(r);
    ItemRest(r, t);
    if !NamesTask(r) && !NamesClass(r) {
      AfterPairTail(PastMarks(r));
      TailTrans(NextItem(r, t).rest, PastMarks(r), r);
    }
  }

  lemma ItemRest(r: string, t: Tokens)
    requires r != "" && NextItem(r, t).Item?
    ensures NamesTask(r) ==> NextItem(r, t).rest == PastHash(r)
    ensures !NamesTask(r) && NamesClass(r) ==> NextItem(r, t).rest == PastMarks(r)
    ensures !NamesTask(r) && !NamesClass(r) ==>
              KeyValue(PastMarks(r)).Pair? && NextItem(r, t).rest == KeyValue(PastMarks(r)).rest
  {
  }

  lemma DanglingEnds(r: string)
    requires DanglingPair(r)
    ensures EndsInBackslash(r)
  {
    var key, v :| KeyText(key) && r == Dangling(key, v);
  }

  lemma TailEnds(rest: string, r: string)
    requires TailOf(rest, r) && EndsInBackslash(rest)
    ensures EndsInBackslash(r)
  {
    assert rest[|rest| - 1] == r[|r| - 1];
  }

  /** Reading past the end takes a line that ends in a backslash. */
  lemma {:induction false} ScanOverrunEnds(r: string, t: Tokens)
    requires Scan(r, t) == ScanRaised(IndexError)
    ensures EndsInBackslash(r)
    decreases |r|
  {
    var r1 := SkipSpaces(r);
    SpacesTail(r);
    var item := NextItem(r1, t);
    if HasItem(r, t) {
      ScanMore(r, t);
      ScanOverrunEnds(item.rest, item.tokens);
      ItemTail(r1, t);
      TailEnds(item.rest, r1);
    } else {
      ScanNow(r, t, IndexError);
      PastMarksTail(r1);
      DanglingEnds(PastMarks(r1));
      TailEnds(PastMarks(r1), r1);
    }
    TailEnds(r1, r);
  }

  lemma OverrunEnds(line: string)
    requires GetAttributes(line) == Raised(IndexError)
    ensures EndsInBackslash(line)
  {
    var k := FirstListRaises(line, 0, IndexError);
    ScanOverrunEnds(line[k + 1..], map[]);
    TailEnds(line[k + 1..], line);
  }

  /** An assignment to `classes` with a dot somewhere behind it. */
  predicate ClassesAt(s: string, i: nat, j: nat) {
    i + 8 <= j < |s| && s[i..i + 8] == "classes=" && s[j] == '.'
  }

  predicate ClassesThenDot(s: string) {
    exists i, j | 0 <= i < |s| && 0 <= j < |s| :: ClassesAt(s, i, j)
  }

  predicate HasDot(s: string) {
    '.' in s
  }

  lemma TailHasDot(rest: string, r: string)
    requires TailOf(rest, r) && HasDot(rest)
    ensures HasDot(r)
  {
    var i :| 0 <= i < |rest| && rest[i] == '.';
    assert r[|r| - |rest| + i] == '.';
  }

  lemma TailClasses(rest: string, r: string)
    requires TailOf(rest, r) && ClassesThenDot(rest)
    ensures ClassesThenDot(r)
  {
    var i, j :| 0 <= i < |rest| && 0 <= j < |rest| && ClassesAt(rest, i, j);
    var k := |r| - |rest|;
    assert r[k + i..k + i + 8] == rest[i..i + 8];
    assert ClassesAt(r, k + i, k + j);
  }

  lemma ClassDot(r: string)
    requires r != "" && NamesClass(r)
    ensures HasDot(r)
  {
    PastMarksTail(r);
    var x := PastHash(r);
    assert x[0] == '.';
    TailHasDot(x, r);
  }

  /** An assignment to `classes` with a dot in what is left after it. */
  lemma PairClasses(r: string)
    requires KeyValue(r).Pair? && KeyValue(r).key == "classes" && HasDot(KeyValue(r).rest)
    ensures ClassesThenDot(r)
  {
    PairTail(r);
    TailHasDot(KeyValue(r).rest, r[8..]);
    var j :| 0 <= j < |r[8..]| && r[8..][j] == '.';
    assert r[0..8] == r[..7] + [r[7]];
    assert ClassesAt(r, 0, j + 8);
  }

  lemma ClassAdded(r: string, t: Tokens)
    requires r != "" && !NamesTask(r) && NamesClass(r) && NextItem(r, t).Item?
    ensures !TextClasses(NextItem(r, t).tokens)
  {
    var name := Marked(PastHash(r), '.').0.value;
    assert AddClass(t, name) == Ok(NextItem(r, t).tokens);
  }

  lemma PairRead(r: string, t: Tokens)
    requires r != "" && !NamesTask(r) && !NamesClass(r) && NextItem(r, t).Item?
    ensures var pair := KeyValue(PastMarks(r));
            pair.Pair? && NextItem(r, t) == Item(t[pair.key := Str(pair.value)], pair.rest)
  {
  }

  /** Only an assignment puts a text under `classes`. */
  lemma ItemClasses(r: string, t: Tokens)
    requires r != "" && NextItem(r, t).Item? && TextClasses(NextItem(r, t).tokens) && !TextClasses(t)
    ensures HasDot(NextItem(r, t).rest) ==> ClassesThenDot(r)
  {
    if NamesClass(r) && !NamesTask(r) {
      ClassAdded(r, t);
    } else if !NamesTask(r) {
      PairRead(r, t);
      PastMarksTail(r);
      if HasDot(NextItem(r, t).rest) {
        PairClasses(PastMarks(r));
        TailClasses(PastMarks(r), r);
      }
    }
  }

  /** Adding a class to a text takes an assignment to `classes`, here or before, and a class behind it. */
  lemma {:induction false} ScanClassesDot(r: string, t: Tokens)
    requires Scan(r, t) == ScanRaised(AttributeError)
    ensures HasDot(r) && (TextClasses(t) || ClassesThenDot(r))
    decreases |r|
  {
    var r1 := SkipSpaces(r);
    SpacesTail(r);
    var item := NextItem(r1, t);
    if HasItem(r, t) {
      ScanMore(r, t);
      ScanClassesDot(item.rest, item.tokens);
      ItemTail(r1, t);
      TailHasDot(item.rest, r1);
      if !TextClasses(t) {
        if TextClasses(item.tokens) {
          ItemClasses(r1, t);
        } else {
          TailClasses(item.rest, r1);
        }
        TailClasses(r1, r);
      }
    } else {
      ScanNow(r, t, AttributeError);
      ClassDot(r1);
    }
    TailHasDot(r1, r);
  }

  lemma ClassesDot(line: string)
    requires GetAttributes(line) == Raised(AttributeError)
    ensures ClassesThenDot(line)
  {
    var k := FirstListRaises(line, 0, AttributeError);
    ScanClassesDot(line[k + 1..], map[]);
    TailClasses(line[k + 1..], line);
  }

  /** What the line of an exception looks like. */
  predicate Suspect(line: string, e: Error) {
    if e == IndexError then EndsInBackslash(line) else e == AttributeError && ClassesThenDot(line)
  }

  /** A line that does not look like it never raises. */
  lemma OnlySuspectsRaise(line: string, e: Error)
    requires GetAttributes(line) == Raised(e)
    ensures Suspect(line, e)
  {
    if e == IndexError {
      OverrunEnds(line);
    } else {
      ClassesDot(line);
    }
  }

  // ----- lines that raise -----

  /** A line raises if it ends in a cut-off assignment, whatever text without braces is before it. */
  lemma BackslashRaises(first: string, key: string, v: string)
    requires PlainKey(key) && forall i :: 0 <= i < |first| ==> first[i] != '{'
    ensures GetAttributes(first + "{" + Dangling(key, v)) == Raised(IndexError)
  {
    var r := Dangling(key, v);
    var line := first + "{" + r;
    assert line[|first|] == '{' && line[|first| + 1..] == r;
    assert forall i :: 0 <= i < |first| ==> line[i] == first[i];
    DanglingRaises(key, v);
    FirstListSkips(line, 0, |first|);
  }

  lemma DanglingRaises(key: string, v: string)
    requires PlainKey(key)
    ensures Scan(Dangling(key, v), map[]) == ScanRaised(IndexError)
  {
    var r := Dangling(key, v);
    assert r[0] == key[0];
    DanglingOverruns(key, v);
    assert Marked(r, '#') == (None, r) && Marked(r, '.') == (None, r);
    assert NextItem(r, map[]) == ItemRaised(IndexError);
  }

  /** An unquoted value that reading takes as it is. */
  predicate PlainValue(v: string) {
    v != "" && v[0] != '"' && forall i :: 0 <= i < |v| ==> v[i] != ' ' && v[i] != '}'
  }

  lemma UnquotedPair(key: string, v: string, rest: string)
    requires KeyText(key) && PlainValue(v)
    ensures KeyValue(key + "=" + (v + " " + rest)) == Pair(key, v, rest)
  {
    var body := v + " " + rest;
    var r := key + "=" + body;
    assert r[|key|] == '=' && forall i :: 0 <= i < |key| ==> r[i] == key[i];
    KeyLengthIs(r, |key|);
    assert r[..|key|] == key && r[|key| + 1..] == body;
    TokenLengthIs(body, |v|);
    assert body[..|v|] == v && body[|v| + 1..] == rest;
  }

  lemma ClassOnText(name: string, t: Tokens)
    requires TextClasses(t) && PlainName(name)
    ensures Scan("." + name + "}", t) == ScanRaised(AttributeError)
  {
    var r := "." + name + "}";
    MarkedParses('.', name, "}");
    AddClassRaises(t, name);
    assert Marked(r, '#') == (None, r);
    assert NextItem(r, t) == ItemRaised(AttributeError);
  }

  /** A text under `classes` and a class after it. */
  function TextAndClass(v: string, name: string): string {
    "classes" + "=" + (v + " " + ("." + name + "}"))
  }

  lemma TextAndClassRaises(v: string, name: string)
    requires PlainValue(v) && PlainName(name)
    ensures Scan(TextAndClass(v, name), map[]) == ScanRaised(AttributeError)
  {
    var r := TextAndClass(v, name);
    var rest := "." + name + "}";
    UnquotedPair("classes", v, rest);
    assert r[0] == 'c';
    assert Marked(r, '#') == (None, r) && Marked(r, '.') == (None, r);
    assert NextItem(r, map[]) == Item(map["classes" := Str(v)], rest);
    ClassOnText(name, map["classes" := Str(v)]);
    ScanFirst(r, map[]);
  }

  lemma ScanFirst(r: string, t: Tokens)
    requires r != "" && r[0] != ' ' && r[0] != '}' && NextItem(r, t).Item?
    ensures Scan(r, t) == Scan(NextItem(r, t).rest, NextItem(r, t).tokens)
  {
  }

  lemma PairScanned(key: string, v: string, t: Tokens)
    requires PlainKey(key)
    ensures Scan(Assignment(key, v) + "}", t) == Found(t[key := Str(v)])
  {
    var list := Assignment(key, v) + "}";
    AssignmentParses(key, v, "}");
    assert list[0] == key[0] && Marked(list, '#') == (None, list) && Marked(list, '.') == (None, list);
    ScanFirst(list, t);
    ScanCloses(t[key := Str(v)]);
  }

  /** Such a line raises, whatever the text and the class are. */
  lemma TextClassesRaise(v: string, name: string)
    requires PlainValue(v) && PlainName(name)
    ensures GetAttributes("{" + TextAndClass(v, name)) == Raised(AttributeError)
  {
    var line := "{" + TextAndClass(v, name);
    assert line[0] == '{' && line[1..] == TextAndClass(v, name);
    TextAndClassRaises(v, name);
  }
}
