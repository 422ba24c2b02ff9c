/** The cursor-based attribute parser. */
module AttributeParsing {
  import opened Text
  import opened AttributeList

  /** `str.find(c, from)`. */
  function Find(s: string, c: char, from: nat): (i: int)
    requires from <= |s|
    ensures i == -1 || from <= i < |s|
    ensures i >= 0 ==> s[i] == c && forall k :: from <= k < i ==> s[k] != c
    ensures i == -1 ==> forall k :: from <= k < |s| ==> s[k] != c
    decreases |s| - from
  {
    if from == |s| then -1 else if s[from] == c then from else Find(s, c, from + 1)
  }

  class AttributeParser {
    var str: string
    var currentPos: nat

    constructor (s: string)
      ensures str == s && currentPos == 0
    {
      str := s;
      currentPos := 0;
    }

    ghost predicate Valid()
      reads this
    {
      currentPos <= |str|
    }

    /** The text at the cursor. */
    function Rest(): string
      reads this
      requires Valid()
    {
      str[currentPos..]
    }

    predicate HasChars()
      reads this
    {
      currentPos < |str|
    }

    function CurrentChar(): char
      reads this
      requires HasChars()
    {
      str[currentPos]
    }

    method GetChar() returns (c: char)
      requires HasChars()
      modifies this`currentPos
      ensures Valid() && currentPos == old(currentPos) + 1
      ensures c == old(Rest())[0] && Rest() == old(Rest())[1..]
    {
      c := CurrentChar();
      currentPos := currentPos + 1;
    }

    method EatWhitespace()
      requires Valid()
      modifies this`currentPos
      ensures Valid() && currentPos >= old(currentPos)
      ensures Rest() == SkipSpaces(old(Rest()))
    {
      while HasChars() && CurrentChar() == ' '
        invariant Valid() && currentPos >= old(currentPos)
        invariant SkipSpaces(Rest()) == SkipSpaces(old(Rest()))
        decreases |str| - currentPos
      {
        assert Rest()[1..] == str[currentPos + 1..];
        currentPos := currentPos + 1;
      }
    }

    method TryParseHelper(mark: char) returns (value: Option<string>)
      requires HasChars()
      modifies this`currentPos
      ensures HasChars() && currentPos >= old(currentPos)
      ensures (value, Rest()) == Marked(old(Rest()), mark)
    {
      ghost var r := Rest();
      if CurrentChar() != mark {
        return None;
      }
      var findPos := currentPos + 1;
      var i := Find(str, ' ', findPos);
      var i2 := Find(str, '}', findPos);
      if (0 <= i2 && i2 < i) || i < 0 {
        i := i2;
      }
      ghost var n := TokenLength(r[1..]);
      assert forall k :: 0 <= k < |r[1..]| ==> r[1..][k] == str[findPos + k];
      if i < 0 {
        assert n == |r| - 1;
        return None;
      }
      assert n == i - findPos;
      value := Some(str[findPos..i]);
      assert str[findPos..i] == r[1..n + 1];
      currentPos := i;
      assert Rest() == r[n + 1..];
    }

    /** Reads up to the equals sign; a space or the end of the text gives up. */
    method ParseKey() returns (key: string, ok: bool)
      requires Valid()
      modifies this`currentPos
      ensures Valid() && currentPos >= old(currentPos)
      ensures var r := old(Rest()); var n := KeyLength(r);
              ok <==> n < |r| && r[n] == '='
      ensures var r := old(Rest()); var n := KeyLength(r);
              ok ==> key == r[..n] && Rest() == r[n + 1..]
    {
      key := "";
      ghost var r := Rest();
      while true
        invariant Valid() && currentPos == old(currentPos) + |key|
        invariant Rest() == r[|key|..] && key == r[..|key|]
        invariant KeyLength(r) == |key| + KeyLength(Rest())
        decreases |str| - currentPos
      {
        if !HasChars() {
          return key, false;
        }
        var curr := GetChar();
        if curr == ' ' {
          return key, false;
        }
        if curr == '=' {
          return key, true;
        }
        key := key + [curr];
      }
    }

    /** Reads a quoted value after its opening quote; the last character being a lone backslash raises. */
    method ParseQuoted() returns (value: string, res: Result<bool>)
      requires Valid()
      modifies this`currentPos
      ensures Valid() && currentPos >= old(currentPos)
      ensures match Quoted(old(Rest()))
              case Closed(v, rest) => res == Ok(true) && value == v && Rest() == rest
              case Broken => res == Ok(false)
              case Overrun => res == Raised(IndexError)
    {
      value := "";
      while HasChars()
        invariant Valid() && currentPos >= old(currentPos)
        invariant Quoted(old(Rest())) == Prefixed(value, Quoted(Rest()))
        decreases |str| - currentPos
      {
        ghost var q := Quoted(Rest());
        var curr := GetChar();
        if curr == '\\' {
          if !HasChars() {
            return value, Raised(IndexError);
          }
          curr := GetChar();
          if curr != '"' && curr != '\\' {
            return value, Ok(false);
          }
        } else if curr == '"' {
          assert value + "" == value;
          return value, Ok(true);
        }
        PrefixedStep(value, curr, Quoted(Rest()));
        value := value + [curr];
      }
      res := Ok(false);
    }

    method ParseUnquoted() returns (value: string)
      requires Valid()
      modifies this`currentPos
      ensures Valid() && currentPos >= old(currentPos)
      ensures (value, Rest()) == Unquoted(old(Rest()))
    {
      value := "";
      ghost var r := Rest();
      while HasChars()
        invariant Valid() && currentPos == old(currentPos) + |value|
        invariant Rest() == r[|value|..] && value == r[..|value|]
        invariant TokenLength(r) == |value| + TokenLength(Rest())
        decreases |str| - currentPos
      {
        var curr := GetChar();
        if curr == ' ' {
          return;
        } else if curr == '}' {
          currentPos := currentPos - 1;
          assert Rest() == r[|value|..];
          return;
        }
        value := value + [curr];
      }
    }

    method TryParseKeyValuePair() returns (pair: PairResult)
      requires Valid()
      modifies this`currentPos
      ensures Valid() && currentPos >= old(currentPos)
      ensures match KeyValue(old(Rest()))
              case Pair(key, value, rest) => pair == Pair(key, value, rest) && Rest() == rest
              case NoPair => pair == NoPair && currentPos == old(currentPos)
              case PairRaised => pair == PairRaised
    {
      var savedPos := currentPos;
      var key, ok := ParseKey();
      if !ok || key == "" {
        currentPos := savedPos;
        return NoPair;
      }
      if HasChars() && CurrentChar() == '"' {
        var _ := GetChar();
        var value, res := ParseQuoted();
        if res.Raised? {
          return PairRaised;
        }
        if !res.value {
          currentPos := savedPos;
          return NoPair;
        }
        return Pair(key, value, Rest());
      }
      var value := ParseUnquoted();
      pair := Pair(key, value, Rest());
    }

    /** One round of the attribute loop. */
    method TryGetItem(tokens: Tokens) returns (item: ItemResult)
      requires HasChars()
      modifies this`currentPos
      ensures Valid() && currentPos >= old(currentPos)
      ensures item == NextItem(old(Rest()), tokens)
      ensures item.Item? ==> Rest() == item.rest
    {
      var task := TryParseHelper('#');
      if task.Some? && task.value != "" {
        if "taskId" in tokens {
          return NoItem;
        }
        return Item(tokens["taskId" := Str(task.value)], Rest());
      }
      var name := TryParseHelper('.');
      if name.Some? && name.value != "" {
        if "classes" !in tokens || tokens["classes"] == Str("") {
          return Item(tokens["classes" := Names([name.value])], Rest());
        }
        match tokens["classes"] {
          case Names(names) => return Item(tokens["classes" := Names(names + [name.value])], Rest());
          case _ => return ItemRaised(AttributeError);
        }
      }
      var pair := TryParseKeyValuePair();
      match pair {
        case Pair(key, value, rest) => return Item(tokens[key := Str(value)], rest);
        case NoPair => return NoItem;
        case PairRaised => return ItemRaised(IndexError);
      }
    }

    method TryGetAttributes(pos: nat) returns (res: ScanResult)
      requires pos <= |str|
      modifies this`currentPos
      ensures Valid()
      ensures res == Scan(str[pos..], map[])
    {
      currentPos := pos;
      var tokens: Tokens := map[];
      var endFound := false;
      while HasChars()
        invariant Valid()
        invariant Scan(str[pos..], map[]) == Scan(Rest(), tokens)
        invariant !endFound
        decreases |str| - currentPos
      {
        EatWhitespace();
        if !HasChars() {
          break;
        }
        if CurrentChar() == '}' {
          endFound := true;
          var _ := GetChar();
          break;
        }
        var item := TryGetItem(tokens);
        match item {
          case Item(t, _) => tokens := t;
          case NoItem => break;
          case ItemRaised(e) => return ScanRaised(e);
        }
      }
      if endFound {
        EatWhitespace();
        return if HasChars() then NoList else Found(tokens);
      }
      res := NoList;
    }

    /** Reads the language name at the cursor. */
    method ReadLanguage() returns (language: string)
      requires Valid()
      modifies this`currentPos
      ensures Valid()
      ensures var r := old(Rest()); language == r[..LanguageLength(r)]
    {
      var start := currentPos;
      ghost var r := Rest();
      while HasChars() && CurrentChar() != ' ' && CurrentChar() != '{'
        invariant Valid() && start <= currentPos
        invariant Rest() == r[currentPos - start..]
        invariant LanguageLength(r) == currentPos - start + LanguageLength(Rest())
        decreases |str| - currentPos
      {
        assert Rest()[1..] == str[currentPos + 1..];
        currentPos := currentPos + 1;
      }
      language := str[start..currentPos];
    }

    method ParseCodeType() returns (tokens: Tokens)
      requires currentPos == 0
      modifies this`currentPos
      ensures Valid()
      ensures tokens == CodeInfo(str)
    {
      if !HasChars() || CurrentChar() != '`' {
        return map[];
      }
      while HasChars() && CurrentChar() == '`'
        invariant Valid()
        invariant RunLength(str, '`') == currentPos + RunLength(Rest(), '`')
        decreases |str| - currentPos
      {
        assert Rest()[1..] == str[currentPos + 1..];
        currentPos := currentPos + 1;
      }
      EatWhitespace();
      var language := ReadLanguage();
      currentPos := 0;
      assert Language(str) == language;
      return if language != "" then map["code_lang" := Str(language)] else map[];
    }

    method GetAttributes() returns (res: Result<Attributes>)
      requires currentPos == 0
      modifies this`currentPos
      ensures Valid()
      ensures res == AttributeList.GetAttributes(str)
    {
      var codeInfo := ParseCodeType();
      var i := 0;
      while i < |str|
        invariant 0 <= i <= |str| && Valid()
        invariant FirstList(str, 0) == FirstList(str, i)
      {
        FirstListAt(str, i);
        if str[i] == '{' {
          var tokens := TryGetAttributes(i + 1);
          match tokens {
            case Found(t) => return Ok(Attributes(t + codeInfo, Some(i)));
            case ScanRaised(e) => return Raised(e);
            case NoList =>
          }
        }
        i := i + 1;
      }
      return Ok(Attributes(codeInfo, None));
    }
  }

  lemma FirstListAt(s: string, i: nat)
    requires i < |s|
    ensures FirstList(s, i) ==
            if s[i] != '{' then FirstList(s, i + 1)
            else match Scan(s[i + 1..], map[])
                 case Found(t) => ListAt(t, i)
                 case NoList => FirstList(s, i + 1)
                 case ScanRaised(e) => ListRaised(e)
  {
  }

  /** A quoted value of which `value` has been read already. */
  ghost function Prefixed(value: string, q: QuotedResult): QuotedResult {
    if q.Closed? then Closed(value + q.value, q.rest) else q
  }

  lemma PrefixedStep(value: string, c: char, q: QuotedResult)
    ensures Prefixed(value, Prepend(c, q)) == Prefixed(value + [c], q)
  {
    if q.Closed? {
      assert value + ([c] + q.value) == value + [c] + q.value;
    }
  }
}
