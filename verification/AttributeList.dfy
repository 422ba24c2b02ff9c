/**
 The grammar of attribute lists such as `{#task .class key="value"}`, as functions on the text that
 is still to be read. The cursor class in AttributeParser.dfy computes the same results.
 */
module AttributeList {
  import opened Text

  /**
   A value in an attribute dictionary: a text, the list under the key `classes`, or, in a paragraph
   that is to be written, a value known only by what `str` makes of it (a number, or another list) or
   a nested dictionary.
   */
  datatype AttrVal =
    | Str(text: string)
    | Names(names: seq<string>)
    | Shown(shown: string)
    | Nested(entries: Entries)

  datatype Entry = Entry(key: string, val: AttrVal)

  /** A dictionary in insertion order. */
  type Entries = seq<Entry>

  type Tokens = map<string, AttrVal>

  datatype ScanResult =
    | Found(tokens: Tokens)
    | NoList
    | ScanRaised(error: Error)

  datatype PairResult =
    | Pair(key: string, value: string, rest: string)
    | NoPair
    | PairRaised

  datatype QuotedResult =
    | Closed(value: string, rest: string)
    | Broken
    | Overrun

  datatype ListResult =
    | ListAt(tokens: Tokens, at: nat)
    | Nowhere
    | ListRaised(error: Error)

  /** What `get_attributes` returns: the attributes and the index of the opening brace. */
  datatype Attributes = Attributes(tokens: Tokens, start: Option<nat>)

  function SkipSpaces(r: string): (rest: string)
    ensures |rest| <= |r|
    ensures rest == "" || rest[0] != ' '
  {
    if r != "" && r[0] == ' ' then SkipSpaces(r[1..]) else r
  }

  /** Characters before the first space or closing brace. */
  function TokenLength(r: string): (n: nat)
    ensures n <= |r|
    ensures forall i :: 0 <= i < n ==> r[i] != ' ' && r[i] != '}'
    ensures n < |r| ==> r[n] == ' ' || r[n] == '}'
  {
    if r == "" || r[0] == ' ' || r[0] == '}' then 0
    else
      var n := TokenLength(r[1..]);
      assert forall i :: 1 <= i < n + 1 ==> r[i] == r[1..][i - 1];
      n + 1
  }

  /**
   A `#task` or `.class` token. It is recognised only when a space or a closing brace follows; an
   empty name is reported as a value, and the text before the delimiter is then still consumed.
   */
  function Marked(r: string, mark: char): (res: (Option<string>, string))
    requires r != ""
    ensures 0 < |res.1| <= |r|
    ensures res.0.Some? ==> |res.1| + |res.0.value| < |r|
  {
    var n := TokenLength(r[1..]);
    if r[0] != mark || n == |r| - 1 then (None, r) else (Some(r[1..n + 1]), r[n + 1..])
  }

  /** Characters before the first space or equals sign. */
  function KeyLength(r: string): (n: nat)
    ensures n <= |r|
    ensures forall i :: 0 <= i < n ==> r[i] != ' ' && r[i] != '='
    ensures n < |r| ==> r[n] == ' ' || r[n] == '='
  {
    if r == "" || r[0] == ' ' || r[0] == '=' then 0
    else
      var n := KeyLength(r[1..]);
      assert forall i :: 1 <= i < n + 1 ==> r[i] == r[1..][i - 1];
      n + 1
  }

  predicate NeedsEscape(c: char) {
    c == '"' || c == '\\'
  }

  /** The text of a quoted value whose opening quote has been read. */
  function Quoted(r: string): (res: QuotedResult)
    ensures res.Closed? ==> |res.rest| < |r|
  {
    if r == "" then Broken
    else if r[0] == '"' then Closed("", r[1..])
    else if r[0] == '\\' then
      if |r| == 1 then Overrun
      else if !NeedsEscape(r[1]) then Broken
      else Prepend(r[1], Quoted(r[2..]))
    else Prepend(r[0], Quoted(r[1..]))
  }

  function Prepend(c: char, q: QuotedResult): QuotedResult {
    if q.Closed? then Closed([c] + q.value, q.rest) else q
  }

  /** An unquoted value; a space that ends it is consumed, a closing brace is not. */
  function Unquoted(r: string): (res: (string, string))
    ensures |res.1| <= |r|
  {
    var n := TokenLength(r);
    (r[..n], if n < |r| && r[n] == ' ' then r[n + 1..] else r[n..])
  }

  /** What follows the equals sign of an assignment. */
  function Assigned(key: string, v: string): (res: PairResult)
    ensures res.Pair? ==> |res.rest| <= |v| && res.key == key
  {
    if v != "" && v[0] == '"' then
      match Quoted(v[1..])
      case Closed(value, rest) => Pair(key, value, rest)
      case Broken => NoPair
      case Overrun => PairRaised
    else
      var (value, rest) := Unquoted(v);
      Pair(key, value, rest)
  }

  function KeyValue(r: string): (res: PairResult)
    ensures res.Pair? ==> |res.rest| < |r| && res.key != ""
  {
    var n := KeyLength(r);
    if n == |r| || r[n] == ' ' || n == 0 then NoPair else Assigned(r[..n], r[n + 1..])
  }

  /** The exceptions the attribute parser lets escape. */
  predicate FromAttributes(e: Error) {
    e == IndexError || e == AttributeError
  }

  /** A class list under construction; a nonempty text in its place cannot be appended to. */
  function AddClass(t: Tokens, name: string): (res: Result<Tokens>)
    ensures res.Raised? ==> res.error == AttributeError
  {
    if "classes" !in t || t["classes"] == Str("") then Ok(t["classes" := Names([name])])
    else
      match t["classes"]
      case Names(names) => Ok(t["classes" := Names(names + [name])])
      case _ => Raised(AttributeError)
  }

  /** One attribute read from `r`, which is not at a space or at the closing brace. */
  datatype ItemResult =
    | Item(tokens: Tokens, rest: string)
    | NoItem
    | ItemRaised(error: Error)

  function NextItem(r: string, t: Tokens): (res: ItemResult)
    requires r != ""
    ensures res.Item? ==> |res.rest| < |r|
    ensures res.ItemRaised? ==> FromAttributes(res.error)
  {
    var (task, r1) := Marked(r, '#');
    if task.Some? && task.value != "" then
      if "taskId" in t then NoItem else Item(t["taskId" := Str(task.value)], r1)
    else
      var (name, r2) := Marked(r1, '.');
      if name.Some? && name.value != "" then
        match AddClass(t, name.value)
        case Ok(t') => Item(t', r2)
        case Raised(e) => ItemRaised(e)
      else
        match KeyValue(r2)
        case Pair(key, value, rest) => Item(t[key := Str(value)], rest)
        case NoPair => NoItem
        case PairRaised => ItemRaised(IndexError)
  }

  /** The attribute list whose opening brace has been read, with `t` collected so far. */
  function Scan(r: string, t: Tokens): (res: ScanResult)
    ensures res.ScanRaised? ==> FromAttributes(res.error)
    decreases |r|
  {
    var r1 := SkipSpaces(r);
    if r1 == "" then NoList
    else if r1[0] == '}' then
      if SkipSpaces(r1[1..]) == "" then Found(t) else NoList
    else
      match NextItem(r1, t)
      case Item(t', rest) => Scan(rest, t')
      case NoItem => NoList
      case ItemRaised(e) => ScanRaised(e)
  }

  /** The first brace at or after `i` that opens an attribute list reaching the end of the line. */
  function FirstList(s: string, i: nat): (res: ListResult)
    requires i <= |s|
    ensures res.ListAt? ==> i <= res.at < |s| && s[res.at] == '{'
    ensures res.ListRaised? ==> FromAttributes(res.error)
    decreases |s| - i
  {
    if i == |s| then Nowhere
    else if s[i] != '{' then FirstList(s, i + 1)
    else
      match Scan(s[i + 1..], map[])
      case Found(t) => ListAt(t, i)
      case NoList => FirstList(s, i + 1)
      case ScanRaised(e) => ListRaised(e)
  }

  /** Characters before the first space or opening brace. */
  function LanguageLength(r: string): (n: nat)
    ensures n <= |r|
    ensures forall i :: 0 <= i < n ==> r[i] != ' ' && r[i] != '{'
    ensures n < |r| ==> r[n] == ' ' || r[n] == '{'
  {
    if r == "" || r[0] == ' ' || r[0] == '{' then 0
    else
      var n := LanguageLength(r[1..]);
      assert forall i :: 1 <= i < n + 1 ==> r[i] == r[1..][i - 1];
      n + 1
  }

  /** The language named after the backticks of a fence line, or the empty text. */
  function Language(s: string): string {
    if s == "" || s[0] != '`' then ""
    else
      var r := SkipSpaces(s[RunLength(s, '`')..]);
      r[..LanguageLength(r)]
  }

  function CodeInfo(s: string): Tokens {
    if Language(s) == "" then map[] else map["code_lang" := Str(Language(s))]
  }

  /** `AttributeParser(s).get_attributes()`; a language overrides an attribute of the same name. */
  function GetAttributes(s: string): (res: Result<Attributes>)
    ensures res.Ok? && res.value.start.Some? ==>
              res.value.start.value < |s| && s[res.value.start.value] == '{'
    ensures res.Raised? ==> FromAttributes(res.error)
  {
    match FirstList(s, 0)
    case ListAt(t, at) => Ok(Attributes(t + CodeInfo(s), Some(at)))
    case Nowhere => Ok(Attributes(CodeInfo(s), None))
    case ListRaised(e) => Raised(e)
  }
}
