/** Writing paragraphs as document text. */
module DocumentWriting {
  import opened Text
  import opened AttributeList
  import opened AttributePrinting
  import opened DocumentFormat
  import opened DocumentParsing

  /** A paragraph as the writer receives it. */
  datatype Par = Par(attrs: Entries, id: string, md: string, t: string)

  /** `DocParagraph.dict()`: the keys in insertion order. */
  function Dict(p: Par): Entries {
    [Entry("attrs", Nested(p.attrs)), Entry("id", Str(p.id)), Entry("md", Str(p.md)), Entry("t", Str(p.t))]
  }

  function Atomized(p: Par): Entries {
    Dict(p) + [Entry("atom", Str("true"))]
  }

  function Ignored(exportHashes: bool, exportIds: bool): set<string> {
    {"md", "type", "html", "links", "doc_id", "props", "h", "code_lang"} +
    (if exportHashes then {} else {"t"}) + (if exportIds then {} else {"id"})
  }

  /** Number of backticks of the longest code fence, at least 2. */
  function LongestFence(blocks: seq<Block>): (n: nat)
    ensures n >= 2
    ensures forall i :: 0 <= i < |blocks| && blocks[i].kind == Code ==> RunLength(blocks[i].md, '`') <= n
    ensures n == 2 || exists i :: 0 <= i < |blocks| && blocks[i].kind == Code && RunLength(blocks[i].md, '`') == n
  {
    if blocks == [] then 2
    else
      var last := blocks[|blocks| - 1];
      var n := LongestFence(blocks[..|blocks| - 1]);
      if last.kind == Code && RunLength(last.md, '`') > n then RunLength(last.md, '`') else n
  }

  /** `md.split("\n", 1)`, with an empty second part when there is none. */
  function SplitFirst(md: string): (parts: (string, string))
  {
    var n := IndexOfNewline(md);
    if n == |md| then (md, "") else (md[..n], md[n + 1..])
  }

  function IndexOfNewline(s: string): (n: nat)
    ensures n <= |s|
    ensures forall i :: 0 <= i < n ==> s[i] != '\n'
    ensures n < |s| ==> s[n] == '\n'
  {
    if s == "" || s[0] == '\n' then 0
    else
      var n := IndexOfNewline(s[1..]);
      assert forall i :: 1 <= i < n + 1 ==> s[i] == s[1..][i - 1];
      n + 1
  }

  predicate WellTyped(p: Par) {
    Typed(p.attrs)
  }

  lemma DictTyped(p: Par)
    requires WellTyped(p)
    ensures Typed(Dict(p)) && Typed(Atomized(p))
  {
  }

  /** The text of one paragraph whose md parses to `blocks`. */
  function Written(p: Par, blocks: seq<Block>, ignored: set<string>): string
    requires WellTyped(p)
  {
    DictTyped(p);
    if |blocks| > 1 then
      var fence := Repeat('`', LongestFence(blocks) + 1);
      fence + " {" + AttrsText(Atomized(p), ignored) + "}\n" + p.md + "\n" + fence
    else
      var a := AttrsText(Dict(p), ignored);
      if a == "" then p.md
      else if blocks == [] || blocks[0].kind == Normal || blocks[0].kind == AutoNormal then
        "#- {" + a + "}\n" + p.md
      else
        SplitFirst(blocks[0].md).0 + " {" + a + "}\n" + SplitFirst(blocks[0].md).1
  }

  /** A newline is added unless the text so far ends in one. */
  function Ended(s: string): string {
    if s == "" || s[|s| - 1] == '\n' then s else s + "\n"
  }

  /** The text so far, an empty line and one more paragraph. */
  function Extended(text: string, p: Par, o: Options, ignored: set<string>): Result<string>
    requires WellTyped(p)
  {
    match ParseText(p.md, o)
    case Raised(e) => Raised(e)
    case Ok(blocks) => Ok(text + "\n" + Ended(Written(p, blocks, ignored)))
  }

  /** The written paragraphs, each after an empty line. */
  function WrittenAll(pars: seq<Par>, o: Options, ignored: set<string>): Result<string>
    requires forall i :: 0 <= i < |pars| ==> WellTyped(pars[i])
  {
    if pars == [] then Ok("")
    else
      match WrittenAll(pars[..|pars| - 1], o, ignored)
      case Raised(e) => Raised(e)
      case Ok(text) => Extended(text, pars[|pars| - 1], o, ignored)
  }

  /** `get_text` */
  function WriteText(pars: seq<Par>, o: Options, ignored: set<string>): Result<string>
    requires forall i :: 0 <= i < |pars| ==> WellTyped(pars[i])
  {
    match WrittenAll(pars, o, ignored)
    case Raised(e) => Raised(e)
    case Ok(text) => Ok(if text == "" then "" else text[1..])
  }

  lemma EscapeStep(v: string, i: nat, text: string)
    requires i < |v|
    ensures text + Escape(v[i..]) == text + (if NeedsEscape(v[i]) then "\\" else "") + [v[i]] + Escape(v[i + 1..])
  {
    assert v[i..][0] == v[i] && v[i..][1..] == v[i + 1..];
  }

  class DocumentWriter {
    const pars: seq<Par>
    const ignoredAttrs: set<string>

    constructor (pars: seq<Par>, exportHashes: bool := false, exportIds: bool := true)
      ensures this.pars == pars && ignoredAttrs == Ignored(exportHashes, exportIds)
    {
      this.pars := pars;
      this.ignoredAttrs := Ignored(exportHashes, exportIds);
    }

    method EscapeValue(v: string) returns (text: string)
      ensures text == Escape(v)
    {
      text := "";
      var i := 0;
      while i < |v|
        invariant 0 <= i <= |v|
        invariant Escape(v) == text + Escape(v[i..])
      {
        EscapeStep(v, i, text);
        if v[i] == '"' || v[i] == '\\' {
          text := text + "\\";
        }
        text := text + [v[i]];
        i := i + 1;
      }
    }

    method JoinNames(names: seq<string>) returns (text: string)
      ensures text == Dotted(names)
    {
      if names == [] {
        return "";
      }
      text := "." + names[0];
      var i := 1;
      while i < |names|
        invariant 1 <= i <= |names|
        invariant Dotted(names) == text + (if i < |names| then " " + Dotted(names[i..]) else "")
      {
        assert names[i..][0] == names[i] && names[i..][1..] == names[i + 1..];
        text := text + " ." + names[i];
        i := i + 1;
      }
    }

    method EntryToStr(k: string, v: AttrVal) returns (text: string)
      requires Typed([Entry(k, v)])
      ensures text == EntryText(k, v, ignoredAttrs)
      decreases v, 0
    {
      assert [Entry(k, v)][0] == Entry(k, v);
      if k == "taskId" {
        text := "#" + v.text;
      } else if k == "classes" {
        text := JoinNames(Pieces(v));
      } else if v.Nested? {
        text := AttrsToStr(v.entries);
      } else {
        var escaped := EscapeValue(if v.Str? then v.text else v.shown);
        text := k + "=\"" + escaped + "\"";
      }
    }

    method AttrsToStr(attrs: Entries) returns (attrStr: string)
      requires Typed(attrs)
      ensures attrStr == AttrsText(attrs, ignoredAttrs)
      decreases attrs, 1
    {
      attrStr := "";
      var i := 0;
      assert attrs[i..] == attrs;
      while i < |attrs|
        invariant 0 <= i <= |attrs|
        invariant Body(attrs, ignoredAttrs) == attrStr + Body(attrs[i..], ignoredAttrs)
      {
        var Entry(k, v) := attrs[i];
        BodyStep(attrs, i, ignoredAttrs);
        if k !in ignoredAttrs {
          var text := EntryToStr(k, v);
          Assoc(attrStr, text + " ", Body(attrs[i + 1..], ignoredAttrs));
          attrStr := attrStr + (text + " ");
        }
        i := i + 1;
      }
      assert attrs[i..] == [] && attrStr + "" == attrStr;
      attrStr := Strip(attrStr);
    }

    /** The fence length for paragraphs that consist of several blocks. */
    method CountTicks(blocks: seq<Block>) returns (numTicks: nat)
      ensures numTicks == LongestFence(blocks) + 1
    {
      numTicks := 2;
      for i := 0 to |blocks|
        invariant numTicks == LongestFence(blocks[..i])
      {
        assert blocks[..i + 1][..i] == blocks[..i];
        var b := blocks[i];
        if b.kind == Code {
          var nticks := CountFromBeginning(b.md, '`');
          if nticks > numTicks {
            numTicks := nticks;
          }
        }
      }
      assert blocks[..|blocks|] == blocks;
      numTicks := numTicks + 1;
    }

    method WritePar(p: Par, blocks: seq<Block>) returns (text: string)
      requires WellTyped(p)
      ensures text == Written(p, blocks, ignoredAttrs)
    {
      DictTyped(p);
      if |blocks| > 1 {
        var numTicks := CountTicks(blocks);
        var fence := Repeat('`', numTicks);
        var attrs := AttrsToStr(Atomized(p));
        text := fence + " {" + attrs + "}\n" + p.md + "\n" + fence;
      } else {
        var attrs := AttrsToStr(Dict(p));
        if attrs == "" {
          text := p.md;
        } else if |blocks| == 0 || blocks[0].kind == Normal || blocks[0].kind == AutoNormal {
          text := "#-" + " {" + attrs + "}\n" + p.md;
        } else {
          var (firstLine, rest) := SplitFirst(blocks[0].md);
          text := firstLine + " {" + attrs + "}\n" + rest;
        }
      }
    }

    method GetText(options: Options := WHOLE_DOCUMENT) returns (res: Result<string>)
      requires forall i :: 0 <= i < |pars| ==> WellTyped(pars[i])
      ensures res == WriteText(pars, options, ignoredAttrs)
    {
      var text := "";
      for i := 0 to |pars|
        invariant WrittenAll(pars[..i], options, ignoredAttrs) == Ok(text)
      {
        WrittenStep(pars, i, options, ignoredAttrs);
        var p := pars[i];
        var parser := new DocumentParser(p.md, options);
        var blocks := parser.GetBlocks();
        if blocks.Raised? {
          return Raised(blocks.error);
        }
        var written := WritePar(p, blocks.value);
        EndedAfter(text, written);
        text := text + "\n";
        text := text + written;
        if text[|text| - 1] != '\n' {
          text := text + "\n";
        }
      }
      assert pars[..|pars|] == pars;
      res := Ok(if text == "" then "" else text[1..]);
    }
  }

  lemma BodyStep(d: Entries, i: nat, ignored: set<string>)
    requires Typed(d) && i < |d|
    ensures Typed([d[i]])
    ensures Body(d[i..], ignored) ==
            (if d[i].key in ignored then "" else EntryText(d[i].key, d[i].val, ignored) + " ")
            + Body(d[i + 1..], ignored)
  {
    assert d[i..][0] == d[i] && d[i..][1..] == d[i + 1..];
  }

  lemma EndedAfter(text: string, w: string)
    ensures var s := text + "\n" + w;
            (if s[|s| - 1] != '\n' then s + "\n" else s) == text + "\n" + Ended(w)
  {
    var s := text + "\n" + w;
    if w == "" {
      assert s[|s| - 1] == '\n';
    } else {
      assert s[|s| - 1] == w[|w| - 1];
      assert s + "\n" == text + "\n" + (w + "\n");
    }
  }

  /** Writing one more paragraph; a raise is final. */
  lemma WrittenStep(pars: seq<Par>, i: nat, o: Options, ignored: set<string>)
    requires i < |pars| && forall k :: 0 <= k < |pars| ==> WellTyped(pars[k])
    requires WrittenAll(pars[..i], o, ignored).Ok?
    ensures WrittenAll(pars[..i + 1], o, ignored) ==
            Extended(WrittenAll(pars[..i], o, ignored).value, pars[i], o, ignored)
    ensures WrittenAll(pars[..i + 1], o, ignored).Raised? ==>
              WrittenAll(pars, o, ignored) == WrittenAll(pars[..i + 1], o, ignored)
  {
    WrittenMore(pars[..i + 1], pars[..i], o, ignored);
    if WrittenAll(pars[..i + 1], o, ignored).Raised? {
      RaiseIsFinal(pars, i + 1, o, ignored);
    }
  }

  lemma WrittenMore(more: seq<Par>, pars: seq<Par>, o: Options, ignored: set<string>)
    requires |more| == |pars| + 1 && more[..|pars|] == pars && forall k :: 0 <= k < |more| ==> WellTyped(more[k])
    requires (forall k :: 0 <= k < |pars| ==> WellTyped(pars[k])) && WrittenAll(pars, o, ignored).Ok?
    ensures WrittenAll(more, o, ignored) == Extended(WrittenAll(pars, o, ignored).value, more[|pars|], o, ignored)
  {
  }

  lemma {:induction false} RaiseIsFinal(pars: seq<Par>, i: nat, o: Options, ignored: set<string>)
    requires i <= |pars| && forall k :: 0 <= k < |pars| ==> WellTyped(pars[k])
    requires WrittenAll(pars[..i], o, ignored).Raised?
    ensures WrittenAll(pars, o, ignored) == WrittenAll(pars[..i], o, ignored)
    decreases |pars|
  {
    if i == |pars| {
      assert pars[..i] == pars;
    } else {
      var init := pars[..|pars| - 1];
      assert init[..i] == pars[..i];
      RaiseIsFinal(init, i, o, ignored);
    }
  }
}
