/** Attribute lists as they are written by hand: their items, the spaces between them, and what is collected. */
module AttributeItems {
  import opened Text
  import opened AttributeList
  import opened AttributePrinting

  datatype ListItem =
    | Task(name: string)
    | Class(name: string)
    | QuotedPair(key: string, value: string)
    | UnquotedPair(key: string, value: string)

  predicate IsPair(item: ListItem) {
    item.QuotedPair? || item.UnquotedPair?
  }

  predicate NoneOf(s: string, c: char, d: char) {
    forall i :: 0 <= i < |s| ==> s[i] != c && s[i] != d
  }

  /** A key that does not begin like a task, a class or the end of the list. */
  predicate PairKey(key: string) {
    key != "" && key[0] != '#' && key[0] != '.' && key[0] != '}' && NoneOf(key, ' ', '=')
  }

  /** Names and unquoted values end at a space or at the closing brace; the keys of pairs are of their own. */
  predicate IsItem(item: ListItem) {
    match item
    case Task(name) => name != "" && NoneOf(name, ' ', '}')
    case Class(name) => name != "" && NoneOf(name, ' ', '}')
    case QuotedPair(key, _) => PairKey(key) && key != "taskId" && key != "classes"
    case UnquotedPair(key, value) =>
      && PairKey(key) && key != "taskId" && key != "classes"
      && NoneOf(value, ' ', '}') && (value != "" ==> value[0] != '"')
  }

  function ItemText(item: ListItem): string {
    match item
    case Task(name) => "#" + name
    case Class(name) => "." + name
    case QuotedPair(key, value) => key + "=\"" + Escape(value) + "\""
    case UnquotedPair(key, value) => key + "=" + value
  }

  /** The items, each after some spaces. */
  function ItemsText(items: seq<ListItem>, gaps: seq<nat>): string
    requires |gaps| == |items|
  {
    if items == [] then ""
    else Repeat(' ', gaps[0]) + (ItemText(items[0]) + ItemsText(items[1..], gaps[1..]))
  }

  lemma {:induction false} PlainKept(a: string, b: string)
    requires NoneOf(a, '"', '\\')
    ensures Escape(a + b) == a + Escape(b)
  {
    if a == "" {
      assert a + b == b;
    } else {
      AppendTail(a, b);
      PlainKept(a[1..], b);
      assert a + Escape(b) == [a[0]] + (a[1..] + Escape(b));
    }
  }

  /** A quote or a backslash is escaped by a backslash, and other characters stand for themselves. */
  lemma {:induction false} EscapeMeans(a: string, c: char, b: string)
    requires NoneOf(a, '"', '\\') && (c == '"' || c == '\\')
    ensures Escape(a) == a && Escape(a + ([c] + b)) == a + (['\\', c] + Escape(b))
  {
    PlainKept(a, "");
    assert a + "" == a;
    PlainKept(a, [c] + b);
    assert ([c] + b)[1..] == b && "\\" + [c] == ['\\', c];
  }

  // ----- what is collected -----

  function Put(t: Tokens, item: ListItem): Tokens {
    match item
    case Task(name) => t["taskId" := Str(name)]
    case Class(name) =>
      t["classes" := Names((if "classes" in t && t["classes"].Names? then t["classes"].names else []) + [name])]
    case QuotedPair(key, value) => t[key := Str(value)]
    case UnquotedPair(key, value) => t[key := Str(value)]
  }

  function PutAll(items: seq<ListItem>): Tokens {
    if items == [] then map[] else Put(PutAll(items[..|items| - 1]), items[|items| - 1])
  }

  /** The item can be read with `t` collected so far. */
  predicate Fits(t: Tokens, item: ListItem) {
    && (item.Task? ==> "taskId" !in t)
    && (item.Class? && "classes" in t ==> t["classes"].Names?)
  }

  // ----- reading an item -----

  lemma {:induction false} SpacesScan(k: nat, r: string, t: Tokens)
    ensures Scan(Repeat(' ', k) + r, t) == Scan(r, t)
  {
    if k == 0 {
      assert Repeat(' ', 0) + r == r;
    } else {
      assert Repeat(' ', k) + r == " " + (Repeat(' ', k - 1) + r);
      ScanSkips(Repeat(' ', k - 1) + r, t);
      SpacesScan(k - 1, r, t);
    }
  }

  lemma MarkRead(mark: char, name: string, rest: string)
    requires name != "" && NoneOf(name, ' ', '}') && AtDelimiter(rest)
    ensures Marked([mark] + name + rest, mark) == (Some(name), rest)
  {
    var r := [mark] + name + rest;
    var n := |name|;
    assert r[1..] == name + rest && (name + rest)[n] == rest[0];
    TokenLengthIs(name + rest, n);
    assert r[1..n + 1] == name && r[n + 1..] == rest;
  }

  lemma TaskRead(name: string, rest: string, t: Tokens)
    requires name != "" && NoneOf(name, ' ', '}') && AtDelimiter(rest)
    ensures NextItem("#" + name + rest, t) ==
            if "taskId" in t then NoItem else Item(t["taskId" := Str(name)], rest)
  {
    MarkRead('#', name, rest);
  }

  lemma ClassRead(name: string, rest: string, t: Tokens)
    requires name != "" && NoneOf(name, ' ', '}') && AtDelimiter(rest)
    requires "classes" in t ==> t["classes"].Names?
    ensures NextItem("." + name + rest, t) == Item(Put(t, Class(name)), rest)
  {
    var r := "." + name + rest;
    MarkRead('.', name, rest);
    assert Marked(r, '#') == (None, r);
    assert [] + [name] == [name];
  }

  lemma PairRead(r: string, key: string, value: string, rest: string, t: Tokens)
    requires PairKey(key) && r != "" && r[0] == key[0] && KeyValue(r) == Pair(key, value, rest)
    ensures NextItem(r, t) == Item(t[key := Str(value)], rest)
  {
    assert Marked(r, '#') == (None, r) && Marked(r, '.') == (None, r);
  }

  lemma ValueRead(value: string, rest: string)
    requires NoneOf(value, ' ', '}') && AtDelimiter(rest)
    ensures Unquoted(value + rest) == (value, if rest[0] == ' ' then rest[1..] else rest)
  {
    var body := value + rest;
    assert body[|value|] == rest[0];
    TokenLengthIs(body, |value|);
    assert body[..|value|] == value && body[|value|..] == rest && body[|value| + 1..] == rest[1..];
  }

  lemma KeyRead(key: string, body: string)
    requires PairKey(key)
    ensures KeyValue(key + "=" + body) == Assigned(key, body)
  {
    var r := key + "=" + body;
    var n := |key|;
    assert r[n] == '=' && forall i :: 0 <= i < n ==> r[i] == key[i];
    KeyLengthIs(r, n);
    assert r[..n] == key && r[n + 1..] == body;
  }

  lemma QuotedRead(key: string, value: string, rest: string)
    requires PairKey(key)
    ensures KeyValue(key + "=\"" + Escape(value) + "\"" + rest) == Pair(key, value, rest)
  {
    var body := Escape(value) + "\"" + rest;
    assert key + "=\"" + Escape(value) + "\"" + rest == key + "=" + ("\"" + body);
    KeyRead(key, "\"" + body);
    assert ("\"" + body)[1..] == body;
    QuotedEscape(value, rest);
  }

  lemma UnquotedRead(key: string, value: string, rest: string)
    requires PairKey(key) && NoneOf(value, ' ', '}') && (value != "" ==> value[0] != '"') && AtDelimiter(rest)
    ensures KeyValue(key + "=" + value + rest) ==
            Pair(key, value, if rest[0] == ' ' then rest[1..] else rest)
  {
    assert key + "=" + value + rest == key + "=" + (value + rest);
    KeyRead(key, value + rest);
    ValueRead(value, rest);
    assert (value + rest)[0] != '"';
  }

  lemma ScanItem(r: string, t: Tokens, t': Tokens, rest: string)
    requires r != "" && r[0] != ' ' && r[0] != '}' && NextItem(r, t) == Item(t', rest)
    ensures Scan(r, t) == Scan(rest, t')
  {
  }

  lemma PairScanned(r: string, key: string, value: string, behind: string, t: Tokens)
    requires PairKey(key) && r != "" && r[0] == key[0] && KeyValue(r) == Pair(key, value, behind)
    ensures Scan(r, t) == Scan(behind, t[key := Str(value)])
  {
    PairRead(r, key, value, behind, t);
    ScanItem(r, t, t[key := Str(value)], behind);
  }

  /** What an assignment reads, as a text and what follows it. */
  predicate ReadsPair(s: string, rest: string, key: string, value: string, behind: string) {
    s != "" && key != "" && s[0] == key[0] && KeyValue(s + rest) == Pair(key, value, behind)
  }

  function Behind(rest: string): string
    requires AtDelimiter(rest)
  {
    if rest[0] == ' ' then rest[1..] else rest
  }

  lemma DelimiterSkipped(rest: string, t: Tokens)
    requires AtDelimiter(rest)
    ensures Scan(Behind(rest), t) == Scan(rest, t)
  {
    if rest[0] == ' ' {
      assert rest == " " + rest[1..];
      ScanSkips(rest[1..], t);
    }
  }

  lemma UnquotedReads(key: string, value: string, rest: string)
    requires IsItem(UnquotedPair(key, value)) && AtDelimiter(rest)
    ensures ReadsPair(ItemText(UnquotedPair(key, value)), rest, key, value, Behind(rest))
  {
    UnquotedRead(key, value, rest);
  }

  lemma QuotedReads(key: string, value: string, rest: string)
    requires PairKey(key)
    ensures ReadsPair(ItemText(QuotedPair(key, value)), rest, key, value, rest)
  {
    QuotedRead(key, value, rest);
  }

  lemma ReadPairScanned(s: string, rest: string, key: string, value: string, behind: string, t: Tokens)
    requires PairKey(key) && ReadsPair(s, rest, key, value, behind)
    ensures Scan(s + rest, t) == Scan(behind, t[key := Str(value)])
  {
    PairScanned(s + rest, key, value, behind, t);
  }

  lemma MarksScanned(item: ListItem, rest: string, t: Tokens)
    requires IsItem(item) && AtDelimiter(rest) && Fits(t, item) && !IsPair(item)
    ensures Scan(ItemText(item) + rest, t) == Scan(rest, Put(t, item))
  {
    if item.Task? {
      TaskRead(item.name, rest, t);
    } else {
      ClassRead(item.name, rest, t);
    }
    ScanItem(ItemText(item) + rest, t, Put(t, item), rest);
  }

  /** An item is read with its spaces, and reading goes on behind it. */
  lemma {:induction false} ItemRead(item: ListItem, rest: string, t: Tokens)
    requires IsItem(item) && AtDelimiter(rest) && Fits(t, item)
    ensures Scan(ItemText(item) + rest, t) == Scan(rest, Put(t, item))
  {
    match item {
      case Task(_) => MarksScanned(item, rest, t);
      case Class(_) => MarksScanned(item, rest, t);
      case QuotedPair(key, value) =>
        QuotedReads(key, value, rest);
        ReadPairScanned(ItemText(item), rest, key, value, rest, t);
      case UnquotedPair(key, value) =>
        UnquotedReads(key, value, rest);
        ReadPairScanned(ItemText(item), rest, key, value, Behind(rest), t);
        DelimiterSkipped(rest, t[key := Str(value)]);
    }
  }

  // ----- reading a list -----

  predicate HasTask(items: seq<ListItem>) {
    exists i :: 0 <= i < |items| && items[i].Task?
  }

  predicate OneTask(items: seq<ListItem>) {
    forall i, j :: 0 <= i < j < |items| ==> !(items[i].Task? && items[j].Task?)
  }

  /** The names of the classes, in order. */
  function ClassNames(items: seq<ListItem>): seq<string> {
    if items == [] then []
    else
      var last := items[|items| - 1];
      ClassNames(items[..|items| - 1]) + (if last.Class? then [last.name] else [])
  }

  predicate Assigns(item: ListItem, k: string) {
    IsPair(item) && item.key == k
  }

  /** The last pair of this key. */
  predicate LastOf(items: seq<ListItem>, i: nat, k: string) {
    i < |items| && Assigns(items[i], k) && forall j :: i < j < |items| ==> !Assigns(items[j], k)
  }

  predicate HasPair(items: seq<ListItem>, k: string) {
    exists i :: 0 <= i < |items| && Assigns(items[i], k)
  }

  /** The task and the classes of the list, and for every key of a pair the value of its last one. */
  ghost predicate Collects(t: Tokens, items: seq<ListItem>) {
    && ("taskId" in t <==> HasTask(items))
    && (forall i :: 0 <= i < |items| && items[i].Task? ==> t["taskId"] == Str(items[i].name))
    && ("classes" in t <==> ClassNames(items) != [])
    && ("classes" in t ==> t["classes"] == Names(ClassNames(items)))
    && (forall k :: k != "taskId" && k != "classes" ==> (k in t <==> HasPair(items, k)))
    && (forall i: nat, k :: LastOf(items, i, k) ==> k in t && t[k] == Str(items[i].value))
  }

  predicate AllItems(items: seq<ListItem>) {
    forall i :: 0 <= i < |items| ==> IsItem(items[i])
  }

  lemma HasTaskMore(items: seq<ListItem>, item: ListItem)
    ensures HasTask(items + [item]) <==> HasTask(items) || item.Task?
  {
    var more := items + [item];
    assert more[|items|] == item;
    if HasTask(items) {
      var i :| 0 <= i < |items| && items[i].Task?;
      assert more[i].Task?;
    }
  }

  lemma HasPairMore(items: seq<ListItem>, item: ListItem, k: string)
    ensures HasPair(items + [item], k) <==> HasPair(items, k) || Assigns(item, k)
  {
    var more := items + [item];
    assert more[|items|] == item;
    if HasPair(items, k) {
      var i :| 0 <= i < |items| && Assigns(items[i], k);
      assert Assigns(more[i], k);
    }
  }

  lemma LastOfMore(items: seq<ListItem>, item: ListItem, i: nat, k: string)
    requires LastOf(items + [item], i, k)
    ensures if i == |items| then Assigns(item, k) else !Assigns(item, k) && LastOf(items, i, k)
  {
    var more := items + [item];
    assert more[|items|] == item && forall j :: 0 <= j < |items| ==> more[j] == items[j];
  }

  lemma ClassNamesMore(items: seq<ListItem>, item: ListItem)
    ensures ClassNames(items + [item]) == ClassNames(items) + (if item.Class? then [item.name] else [])
  {
    assert (items + [item])[..|items|] == items;
  }

  lemma NoSecondTask(items: seq<ListItem>, item: ListItem)
    requires OneTask(items + [item]) && item.Task?
    ensures !HasTask(items)
  {
    var more := items + [item];
    assert more[|items|] == item && forall i :: 0 <= i < |items| ==> more[i] == items[i];
  }

  lemma ItemFits(t: Tokens, items: seq<ListItem>, item: ListItem)
    requires Collects(t, items) && OneTask(items + [item])
    ensures Fits(t, item)
  {
    if item.Task? {
      NoSecondTask(items, item);
    }
  }

  /** The task, after one more item. */
  lemma TaskCollected(t: Tokens, items: seq<ListItem>, item: ListItem, i: nat)
    requires Collects(t, items) && OneTask(items + [item]) && IsItem(item)
    ensures "taskId" in Put(t, item) <==> HasTask(items + [item])
    ensures i < |items + [item]| && (items + [item])[i].Task? ==>
              Put(t, item)["taskId"] == Str((items + [item])[i].name)
  {
    HasTaskMore(items, item);
    if item.Task? {
      NoSecondTask(items, item);
    }
  }

  lemma ClassesCollected(t: Tokens, items: seq<ListItem>, item: ListItem)
    requires Collects(t, items) && IsItem(item)
    ensures var names := ClassNames(items + [item]); var after := Put(t, item);
            ("classes" in after <==> names != []) && ("classes" in after ==> after["classes"] == Names(names))
  {
    ClassNamesMore(items, item);
  }

  lemma PairsCollected(t: Tokens, items: seq<ListItem>, item: ListItem, k: string)
    requires Collects(t, items) && IsItem(item) && k != "taskId" && k != "classes"
    ensures k in Put(t, item) <==> HasPair(items + [item], k)
  {
    HasPairMore(items, item, k);
  }

  lemma LastCollected(t: Tokens, items: seq<ListItem>, item: ListItem, i: nat, k: string)
    requires Collects(t, items) && AllItems(items + [item]) && LastOf(items + [item], i, k)
    ensures k in Put(t, item) && Put(t, item)[k] == Str((items + [item])[i].value)
  {
    LastOfMore(items, item, i, k);
    var more := items + [item];
    assert more[|items|] == item;
    assert IsItem(more[i]) && IsItem(item);
    if i < |items| {
      assert k in t && t[k] == Str(items[i].value);
    }
  }

  lemma CollectsMore(t: Tokens, items: seq<ListItem>, item: ListItem)
    requires Collects(t, items) && AllItems(items + [item]) && OneTask(items + [item])
    ensures Collects(Put(t, item), items + [item])
  {
    var more := items + [item];
    assert more[|items|] == item && IsItem(item);
    TaskCollected(t, items, item, 0);
    forall i | 0 <= i < |more| && more[i].Task?
      ensures Put(t, item)["taskId"] == Str(more[i].name)
    {
      TaskCollected(t, items, item, i);
    }
    ClassesCollected(t, items, item);
    forall k | k != "taskId" && k != "classes"
      ensures k in Put(t, item) <==> HasPair(more, k)
    {
      PairsCollected(t, items, item, k);
    }
    forall i: nat, k | LastOf(more, i, k)
      ensures k in Put(t, item) && Put(t, item)[k] == Str(more[i].value)
    {
      LastCollected(t, items, item, i, k);
    }
  }

  lemma PutMore(items: seq<ListItem>, item: ListItem)
    ensures PutAll(items + [item]) == Put(PutAll(items), item)
  {
    assert (items + [item])[..|items|] == items;
  }

  lemma SplitItems(items: seq<ListItem>, item: ListItem)
    requires AllItems(items + [item]) && OneTask(items + [item])
    ensures AllItems(items) && OneTask(items) && IsItem(item)
  {
    var more := items + [item];
    assert more[|items|] == item && forall i :: 0 <= i < |items| ==> more[i] == items[i];
  }

  lemma {:induction false} Collected(items: seq<ListItem>)
    requires AllItems(items) && OneTask(items)
    ensures Collects(PutAll(items), items)
  {
    if items != [] {
      var init, last := items[..|items| - 1], items[|items| - 1];
      InitLast(items);
      SplitItems(init, last);
      Collected(init);
      CollectsMore(PutAll(init), init, last);
    }
  }

  /** Spaces before every item but the first one. */
  predicate Apart(gaps: seq<nat>) {
    forall i :: 1 <= i < |gaps| ==> gaps[i] >= 1
  }

  lemma DelimiterAfter(items: seq<ListItem>, gaps: seq<nat>, rest: string)
    requires |gaps| == |items| && (items != [] ==> gaps[0] >= 1) && AtDelimiter(rest)
    ensures AtDelimiter(ItemsText(items, gaps) + rest)
  {
    if items != [] {
      assert ItemsText(items, gaps)[0] == ' ';
    } else {
      assert ItemsText(items, gaps) + rest == rest;
    }
  }

  lemma ItemsHead(items: seq<ListItem>, gaps: seq<nat>, rest: string)
    requires |gaps| == |items| && items != []
    ensures ItemsText(items, gaps) + rest ==
            Repeat(' ', gaps[0]) + (ItemText(items[0]) + (ItemsText(items[1..], gaps[1..]) + rest))
  {
    Assoc(Repeat(' ', gaps[0]), ItemText(items[0]) + ItemsText(items[1..], gaps[1..]), rest);
    Assoc(ItemText(items[0]), ItemsText(items[1..], gaps[1..]), rest);
  }

  lemma FrontItems(done: seq<ListItem>, items: seq<ListItem>)
    requires items != [] && AllItems(done + items) && OneTask(done + items)
    ensures AllItems(done + [items[0]]) && OneTask(done + [items[0]])
    ensures done + [items[0]] + items[1..] == done + items
    ensures AllItems(done) && OneTask(done) && IsItem(items[0])
  {
    var all := done + items;
    assert all[|done|] == items[0];
    assert forall i :: 0 <= i < |done| ==> all[i] == done[i];
    assert forall i :: 0 <= i < |done| + 1 ==> (done + [items[0]])[i] == all[i];
  }

  /** The items are read one after the other. */
  lemma {:induction false} ItemsRead(done: seq<ListItem>, items: seq<ListItem>, gaps: seq<nat>, rest: string)
    requires |gaps| == |items| && Apart(gaps) && AtDelimiter(rest)
    requires AllItems(done + items) && OneTask(done + items)
    ensures Scan(ItemsText(items, gaps) + rest, PutAll(done)) == Scan(rest, PutAll(done + items))
    decreases |items|
  {
    if items == [] {
      assert ItemsText(items, gaps) + rest == rest && done + items == done;
    } else {
      var more := ItemsText(items[1..], gaps[1..]) + rest;
      ItemsHead(items, gaps, rest);
      SpacesScan(gaps[0], ItemText(items[0]) + more, PutAll(done));
      DelimiterAfter(items[1..], gaps[1..], rest);
      FrontItems(done, items);
      Collected(done);
      ItemFits(PutAll(done), done, items[0]);
      ItemRead(items[0], more, PutAll(done));
      PutMore(done, items[0]);
      ItemsRead(done + [items[0]], items[1..], gaps[1..], rest);
    }
  }

  // ----- lines with a list -----

  /** A list of items with spaces at its end, and spaces up to the end of the line. */
  function ListText(items: seq<ListItem>, gaps: seq<nat>, inside: nat, behind: nat): string
    requires |gaps| == |items|
  {
    ItemsText(items, gaps) + (Repeat(' ', inside) + ("}" + Repeat(' ', behind)))
  }

  lemma {:induction false} SpacesOnly(k: nat)
    ensures SkipSpaces(Repeat(' ', k)) == ""
  {
    if k > 0 {
      assert Repeat(' ', k)[1..] == Repeat(' ', k - 1);
      SpacesOnly(k - 1);
    }
  }

  lemma ListCloses(inside: nat, behind: nat, t: Tokens)
    ensures var rest := Repeat(' ', inside) + ("}" + Repeat(' ', behind));
            AtDelimiter(rest) && Scan(rest, t) == Found(t)
  {
    var last := "}" + Repeat(' ', behind);
    SpacesScan(inside, last, t);
    SpacesOnly(behind);
    assert last[0] == '}' && last[1..] == Repeat(' ', behind);
    assert (Repeat(' ', inside) + last)[0] == if inside > 0 then ' ' else '}';
  }

  lemma {:induction false} ListScanned(items: seq<ListItem>, gaps: seq<nat>, inside: nat, behind: nat)
    requires |gaps| == |items| && Apart(gaps) && AllItems(items) && OneTask(items)
    ensures Scan(ListText(items, gaps, inside, behind), map[]) == Found(PutAll(items))
  {
    var rest := Repeat(' ', inside) + ("}" + Repeat(' ', behind));
    ListCloses(inside, behind, PutAll(items));
    assert [] + items == items;
    ItemsRead([], items, gaps, rest);
  }

  /** A text without braces that names no language. */
  predicate Carrying(first: string) {
    (first == "" || first[0] != '`') && forall i :: 0 <= i < |first| ==> first[i] != '{'
  }

  lemma BraceFound(first: string, list: string)
    requires Carrying(first)
    ensures var line := first + "{" + list;
            line[|first|] == '{' && line[|first| + 1..] == list && CodeInfo(line) == map[] &&
            FirstList(line, 0) == FirstList(line, |first|)
  {
    var line := first + "{" + list;
    assert forall i :: 0 <= i < |first| ==> line[i] == first[i];
    FirstListSkips(line, 0, |first|);
    assert line[0] != '`';
  }

  lemma FoundAt(line: string, at: nat, t: Tokens)
    requires at < |line| && line[at] == '{' && Scan(line[at + 1..], map[]) == Found(t)
    requires FirstList(line, 0) == FirstList(line, at) && CodeInfo(line) == map[]
    ensures GetAttributes(line) == Ok(Attributes(t, Some(at)))
  {
    ListHere(line, at);
    assert t + map[] == t;
  }

  /**
   A hand-written list behind a text without braces: items apart by spaces, at most one of them a task. The
   attributes are the task, the classes in order, and for every other key the value of its last pair.
   */
  lemma {:induction false} ListRead(first: string, items: seq<ListItem>, gaps: seq<nat>, inside: nat, behind: nat)
    requires Carrying(first)
    requires |gaps| == |items| && Apart(gaps) && AllItems(items) && OneTask(items)
    ensures var r := GetAttributes(first + "{" + ListText(items, gaps, inside, behind));
            r.Ok? && r.value.start == Some(|first|) && Collects(r.value.tokens, items)
  {
    var list := ListText(items, gaps, inside, behind);
    var line := first + "{" + list;
    ListScanned(items, gaps, inside, behind);
    BraceFound(first, list);
    FoundAt(line, |first|, PutAll(items));
    Collected(items);
  }

  /** No other brace on the line. */
  predicate OneBrace(line: string, at: nat) {
    forall i :: at < i < |line| ==> line[i] != '{'
  }

  lemma NoneFound(line: string, at: nat)
    requires at < |line| && line[at] == '{' && Scan(line[at + 1..], map[]) == NoList && OneBrace(line, at)
    requires FirstList(line, 0) == FirstList(line, at) && CodeInfo(line) == map[]
    ensures GetAttributes(line) == Ok(Attributes(map[], None))
  {
    SkipsOne(line, at);
    FirstListSkips(line, at + 1, |line|);
  }

  lemma TaskRefused(name: string, rest: string, t: Tokens)
    requires name != "" && NoneOf(name, ' ', '}') && AtDelimiter(rest) && "taskId" in t
    ensures Scan("#" + name + rest, t) == NoList
  {
    TaskRead(name, rest, t);
  }

  lemma {:induction false} TwiceScanned(items: seq<ListItem>, gaps: seq<nat>, gap: nat, name: string, rest: string)
    requires |gaps| == |items| && Apart(gaps) && AllItems(items) && OneTask(items) && HasTask(items)
    requires gap >= 1 && name != "" && NoneOf(name, ' ', '}') && AtDelimiter(rest)
    ensures Scan(ItemsText(items, gaps) + (Repeat(' ', gap) + ("#" + name + rest)), map[]) == NoList
  {
    var r := "#" + name + rest;
    var tail := Repeat(' ', gap) + r;
    assert tail[0] == ' ';
    assert [] + items == items;
    ItemsRead([], items, gaps, tail);
    SpacesScan(gap, r, PutAll(items));
    Collected(items);
    TaskRefused(name, rest, PutAll(items));
  }

  /** A second task makes the list no list, and the line has no attributes. */
  lemma {:induction false} SecondTask(first: string, items: seq<ListItem>, gaps: seq<nat>, gap: nat, name: string,
                                      rest: string)
    requires Carrying(first)
    requires |gaps| == |items| && Apart(gaps) && AllItems(items) && OneTask(items) && HasTask(items)
    requires gap >= 1 && name != "" && NoneOf(name, ' ', '}') && AtDelimiter(rest)
    ensures var line := first + "{" + (ItemsText(items, gaps) + (Repeat(' ', gap) + ("#" + name + rest)));
            OneBrace(line, |first|) ==> GetAttributes(line) == Ok(Attributes(map[], None))
  {
    var list := ItemsText(items, gaps) + (Repeat(' ', gap) + ("#" + name + rest));
    var line := first + "{" + list;
    TwiceScanned(items, gaps, gap, name, rest);
    BraceFound(first, list);
    if OneBrace(line, |first|) {
      NoneFound(line, |first|);
    }
  }

  lemma TextScanned(k: nat, text: string, t: Tokens)
    requires text != "" && text[0] != ' '
    ensures Scan("}" + (Repeat(' ', k) + text), t) == NoList
  {
    var r := "}" + (Repeat(' ', k) + text);
    assert r[1..] == Repeat(' ', k) + text;
    SpacesBefore(k, text);
  }

  lemma {:induction false} SpacesBefore(k: nat, text: string)
    requires text != "" && text[0] != ' '
    ensures SkipSpaces(Repeat(' ', k) + text) == text
  {
    if k == 0 {
      assert Repeat(' ', 0) + text == text;
    } else {
      assert (Repeat(' ', k) + text)[1..] == Repeat(' ', k - 1) + text;
      SpacesBefore(k - 1, text);
    }
  }

  /** A list with text behind it is no list either. */
  lemma {:induction false} TextBehind(first: string, items: seq<ListItem>, gaps: seq<nat>, k: nat, text: string)
    requires Carrying(first) && text != "" && text[0] != ' '
    requires |gaps| == |items| && Apart(gaps) && AllItems(items) && OneTask(items)
    ensures var line := first + "{" + (ItemsText(items, gaps) + ("}" + (Repeat(' ', k) + text)));
            OneBrace(line, |first|) ==> GetAttributes(line) == Ok(Attributes(map[], None))
  {
    var rest := "}" + (Repeat(' ', k) + text);
    var list := ItemsText(items, gaps) + rest;
    var line := first + "{" + list;
    assert [] + items == items;
    ItemsRead([], items, gaps, rest);
    TextScanned(k, text, PutAll(items));
    BraceFound(first, list);
    if OneBrace(line, |first|) {
      NoneFound(line, |first|);
    }
  }
}
