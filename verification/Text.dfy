/** The Python string operations the document format relies on, over sequences of characters. */
module Text {

  datatype Option<+T> = None | Some(value: T)

  /** The exceptions the modelled code can let escape. */
  datatype Error = IndexError | AttributeError | ValueError | TooLargeAnswer | IntegrityError

  datatype Result<+T> = Ok(value: T) | Raised(error: Error)

  /** Line boundaries of Python's `str.splitlines`; a carriage return and a newline count once. */
  predicate IsLineBreak(c: char) {
    c == '\n' || c == '\r' || c == '\U{0B}' || c == '\U{0C}' || '\U{1C}' <= c <= '\U{1E}' ||
    c == '\U{85}' || c == '\U{2028}' || c == '\U{2029}'
  }

  /** `str.isspace` for one character. */
  predicate IsSpace(c: char) {
    c == ' ' || '\t' <= c <= '\r' || '\U{1C}' <= c <= '\U{1F}' || c == '\U{85}' || c == '\U{A0}' ||
    c == '\U{1680}' || '\U{2000}' <= c <= '\U{200A}' || c == '\U{2028}' || c == '\U{2029}' ||
    c == '\U{202F}' || c == '\U{205F}' || c == '\U{3000}'
  }

  predicate NoBreaks(s: string) {
    forall i :: 0 <= i < |s| ==> !IsLineBreak(s[i])
  }

  predicate AllSpace(s: string) {
    forall i :: 0 <= i < |s| ==> IsSpace(s[i])
  }

  /** An empty or whitespace-only line. */
  predicate IsBlank(line: string) {
    AllSpace(line)
  }

  predicate StartsWith(s: string, p: string) {
    p <= s
  }

  function RStrip(s: string): string {
    if s != "" && IsSpace(s[|s| - 1]) then RStrip(s[..|s| - 1]) else s
  }

  function LStrip(s: string): string {
    if s != "" && IsSpace(s[0]) then LStrip(s[1..]) else s
  }

  function Strip(s: string): string {
    LStrip(RStrip(s))
  }

  /** `s.strip("\r\n")` on text whose right end is already stripped. */
  function LStripNewlines(s: string): string {
    if s != "" && (s[0] == '\n' || s[0] == '\r') then LStripNewlines(s[1..]) else s
  }

  /** Neither end is whitespace. */
  predicate Trimmed(s: string) {
    s == "" || (!IsSpace(s[0]) && !IsSpace(s[|s| - 1]))
  }

  /** Number of characters before the first line boundary. */
  function LineLength(s: string): (n: nat)
    ensures n <= |s|
    ensures NoBreaks(s[..n])
    ensures n < |s| ==> IsLineBreak(s[n])
  {
    if s == "" || IsLineBreak(s[0]) then 0
    else
      var n := LineLength(s[1..]);
      assert s[..n + 1] == [s[0]] + s[1..][..n];
      n + 1
  }

  /** `str.splitlines`: no line is produced after a final line boundary. */
  function SplitLines(s: string): seq<string>
    decreases |s|
  {
    if s == "" then []
    else
      var n := LineLength(s);
      if n == |s| then [s]
      else if s[n] == '\r' && n + 1 < |s| && s[n + 1] == '\n' then [s[..n]] + SplitLines(s[n + 2..])
      else [s[..n]] + SplitLines(s[n + 1..])
  }

  /** `"\n".join(lines)`. */
  function JoinLines(lines: seq<string>): string {
    if lines == [] then ""
    else if |lines| == 1 then lines[0]
    else lines[0] + "\n" + JoinLines(lines[1..])
  }

  /** Every line followed by a newline. */
  function Terminated(lines: seq<string>): string {
    if lines == [] then "" else lines[0] + "\n" + Terminated(lines[1..])
  }

  /** Length of the run of `c` at the beginning of `s`. */
  function RunLength(s: string, c: char): (n: nat)
    ensures n <= |s|
    ensures forall i :: 0 <= i < n ==> s[i] == c
    ensures n < |s| ==> s[n] != c
  {
    if s != "" && s[0] == c then
      var n := RunLength(s[1..], c);
      assert forall i :: 1 <= i < n + 1 ==> s[i] == s[1..][i - 1];
      n + 1
    else 0
  }

  function Repeat(c: char, n: nat): (s: string)
    ensures |s| == n
    ensures forall i :: 0 <= i < n ==> s[i] == c
  {
    if n == 0 then "" else [c] + Repeat(c, n - 1)
  }

  // ----- facts about the operations -----

  lemma {:induction false} RunLengthIs(s: string, c: char, n: nat)
    requires n <= |s|
    requires forall i :: 0 <= i < n ==> s[i] == c
    requires n < |s| ==> s[n] != c
    ensures RunLength(s, c) == n
  {
    var m := RunLength(s, c);
  }

  lemma {:induction false} RStripSplit(s: string)
    ensures |RStrip(s)| <= |s|
    ensures RStrip(s) == s[..|RStrip(s)|]
    ensures AllSpace(s[|RStrip(s)|..])
    ensures RStrip(s) == "" || !IsSpace(RStrip(s)[|RStrip(s)| - 1])
  {
    if s != "" && IsSpace(s[|s| - 1]) {
      var t := s[..|s| - 1];
      RStripSplit(t);
      var n := |RStrip(t)|;
      assert s[..n] == t[..n];
      assert s[n..] == t[n..] + [s[|s| - 1]];
    } else {
      assert s[..|s|] == s;
    }
  }

  lemma {:induction false} RStripAppend(s: string, w: string)
    requires AllSpace(w)
    ensures RStrip(s + w) == RStrip(s)
  {
    if w == "" {
      assert s + w == s;
    } else {
      var v := w[..|w| - 1];
      assert (s + w)[..|s + w| - 1] == s + v;
      RStripAppend(s, v);
    }
  }

  lemma {:induction false} LStripAppend(w: string, s: string)
    requires AllSpace(w)
    ensures LStrip(w + s) == LStrip(s)
  {
    if w == "" {
      assert w + s == s;
    } else {
      assert (w + s)[1..] == w[1..] + s;
      LStripAppend(w[1..], s);
    }
  }

  lemma {:induction false} RStripAfter(a: string, s: string)
    requires !AllSpace(s)
    ensures RStrip(a + s) == a + RStrip(s)
    decreases |s|
  {
    if IsSpace(s[|s| - 1]) {
      var t := s[..|s| - 1];
      assert (a + s)[..|a + s| - 1] == a + t;
      var i :| 0 <= i < |s| && !IsSpace(s[i]);
      assert t[i] == s[i];
      RStripAfter(a, t);
    } else {
      assert (a + s)[|a + s| - 1] == s[|s| - 1];
    }
  }

  /** What `lstrip` removes and what it leaves. */
  lemma {:induction false} LStripSplit(s: string)
    ensures |LStrip(s)| <= |s| && LStrip(s) == s[|s| - |LStrip(s)|..]
    ensures AllSpace(s[..|s| - |LStrip(s)|])
    ensures LStrip(s) == "" || !IsSpace(LStrip(s)[0])
  {
    if s != "" && IsSpace(s[0]) {
      LStripSplit(s[1..]);
      var k := |s[1..]| - |LStrip(s[1..])|;
      assert s[..k + 1] == [s[0]] + s[1..][..k];
    }
  }

  /** Both ends can be stripped in either order. */
  lemma StripEither(s: string)
    ensures Strip(s) == RStrip(LStrip(s))
  {
    LStripSplit(s);
    var n := |s| - |LStrip(s)|;
    var w, t := s[..n], LStrip(s);
    assert s == w + t;
    if t == "" {
      assert s == "" + w;
      RStripAppend("", w);
    } else {
      assert !AllSpace(t);
      RStripAfter(w, t);
      LStripAppend(w, RStrip(t));
      RStripHead(t);
    }
  }

  lemma {:induction false} RStripHead(t: string)
    requires t != "" && !IsSpace(t[0])
    ensures RStrip(t) != "" && RStrip(t)[0] == t[0]
  {
    if IsSpace(t[|t| - 1]) {
      RStripHead(t[..|t| - 1]);
    }
  }

  /** Surrounding whitespace around a trimmed text is exactly what `strip` removes. */
  lemma {:induction false} StripPadded(w: string, s: string, v: string)
    requires AllSpace(w) && AllSpace(v) && Trimmed(s)
    ensures Strip(w + s + v) == s
  {
    RStripAppend(w + s, v);
    if s == "" {
      assert w + s == "" + w;
      RStripAppend("", w);
    } else {
      assert (w + s)[|w + s| - 1] == s[|s| - 1];
      LStripAppend(w, s);
    }
  }

  lemma {:induction false} StripTrims(s: string)
    ensures Trimmed(Strip(s))
  {
    RStripSplit(s);
    LStripTrims(RStrip(s));
  }

  lemma {:induction false} LStripTrims(s: string)
    requires s == "" || !IsSpace(s[|s| - 1])
    ensures Trimmed(LStrip(s))
    ensures |LStrip(s)| <= |s| && LStrip(s) == s[|s| - |LStrip(s)|..]
    ensures AllSpace(s[..|s| - |LStrip(s)|])
  {
    if s != "" && IsSpace(s[0]) {
      LStripTrims(s[1..]);
      var k := |s[1..]| - |LStrip(s[1..])|;
      assert s[..k + 1] == [s[0]] + s[1..][..k];
    }
  }

  lemma {:induction false} SplitLine(line: string, rest: string)
    requires NoBreaks(line)
    ensures SplitLines(line + "\n" + rest) == [line] + SplitLines(rest)
  {
    var s := line + "\n" + rest;
    var n := LineLength(s);
    assert s[|line|] == '\n';
    assert forall i :: 0 <= i < |line| ==> s[i] == line[i];
    assert s[..n] <= s;
    assert s[..n] == line;
    assert s[n + 1..] == rest;
  }

  lemma TerminatedHead(line: string, lines: seq<string>, rest: string)
    ensures Terminated([line] + lines) + rest == line + "\n" + (Terminated(lines) + rest)
  {
    assert ([line] + lines)[1..] == lines;
  }

  lemma AppendTail<T>(a: seq<T>, b: seq<T>)
    requires a != []
    ensures (a + b)[0] == a[0] && (a + b)[1..] == a[1..] + b
  {
  }

  lemma InitLast<T>(s: seq<T>)
    requires s != []
    ensures s == s[..|s| - 1] + [s[|s| - 1]]
  {
  }

  lemma DropAppend<T>(a: seq<T>, b: seq<T>, n: nat)
    requires n <= |a|
    ensures (a + b)[n..] == a[n..] + b
  {
  }

  lemma Assoc<T>(a: seq<T>, b: seq<T>, c: seq<T>)
    ensures a + (b + c) == (a + b) + c
  {
  }

  /** Splitting undoes terminating, whatever text follows. */
  lemma {:induction false} SplitTerminated(lines: seq<string>, rest: string)
    requires forall l :: l in lines ==> NoBreaks(l)
    ensures SplitLines(Terminated(lines) + rest) == lines + SplitLines(rest)
  {
    if lines == [] {
      assert Terminated(lines) + rest == rest;
    } else {
      var head, tail := [lines[0]], lines[1..];
      assert lines == head + tail;
      SplitTerminated(tail, rest);
      SplitLine(lines[0], Terminated(tail) + rest);
      TerminatedHead(lines[0], tail, rest);
      Assoc(head, tail, SplitLines(rest));
    }
  }

  lemma {:induction false} JoinTerminated(lines: seq<string>)
    requires lines != []
    ensures JoinLines(lines) + "\n" == Terminated(lines)
  {
    if |lines| == 1 {
      assert Terminated(lines[1..]) == "";
    } else {
      JoinTerminated(lines[1..]);
    }
  }

  lemma {:induction false} SplitHasNoBreaks(s: string)
    ensures forall l :: l in SplitLines(s) ==> NoBreaks(l)
    decreases |s|
  {
    if s != "" {
      var n := LineLength(s);
      if n < |s| {
        var k := if s[n] == '\r' && n + 1 < |s| && s[n + 1] == '\n' then n + 2 else n + 1;
        SplitHasNoBreaks(s[k..]);
      } else {
        assert s[..n] == s;
      }
    }
  }

  lemma SplitOne(line: string)
    requires NoBreaks(line) && line != ""
    ensures SplitLines(line) == [line]
  {
  }

  /** Splitting undoes joining when the last line is not empty. */
  lemma {:induction false} SplitJoined(lines: seq<string>)
    requires lines != [] && lines[|lines| - 1] != ""
    requires forall l :: l in lines ==> NoBreaks(l)
    ensures SplitLines(JoinLines(lines)) == lines
  {
    if |lines| == 1 {
      SplitOne(lines[0]);
      assert lines == [lines[0]];
    } else {
      SplitLine(lines[0], JoinLines(lines[1..]));
      SplitJoined(lines[1..]);
      assert lines == [lines[0]] + lines[1..];
    }
  }

  lemma JoinCons(head: string, lines: seq<string>)
    requires lines != []
    ensures JoinLines([head] + lines) == head + "\n" + JoinLines(lines)
    ensures ([head] + lines)[|[head] + lines| - 1] == lines[|lines| - 1]
  {
    assert ([head] + lines)[1..] == lines;
  }

  /** A text whose only line boundaries are newlines. */
  predicate OnlyNewlines(s: string) {
    forall i :: 0 <= i < |s| && IsLineBreak(s[i]) ==> s[i] == '\n'
  }

  lemma SplitFirstLine(s: string, n: nat)
    requires n == LineLength(s) < |s| && s[|s| - 1] != '\n' && OnlyNewlines(s)
    ensures n + 1 < |s|
    ensures var t := s[n + 1..];
            OnlyNewlines(t) && t[|t| - 1] != '\n' && s == s[..n] + "\n" + t && SplitLines(s) == [s[..n]] + SplitLines(t)
  {
    var t := s[n + 1..];
    assert t[|t| - 1] == s[|s| - 1];
  }

  /** Joining undoes splitting for a text that does not end in a newline. */
  lemma {:induction false} JoinSplit(s: string)
    requires OnlyNewlines(s)
    requires s == "" || s[|s| - 1] != '\n'
    ensures JoinLines(SplitLines(s)) == s
    ensures s != "" ==> SplitLines(s) != [] && SplitLines(s)[|SplitLines(s)| - 1] != ""
    decreases |s|
  {
    if s != "" {
      var n := LineLength(s);
      if n < |s| {
        var t := s[n + 1..];
        SplitFirstLine(s, n);
        JoinSplit(t);
        JoinCons(s[..n], SplitLines(t));
      }
    }
  }

  lemma {:induction false} JoinAppend(a: seq<string>, b: seq<string>)
    requires a != [] && b != []
    ensures JoinLines(a + b) == JoinLines(a) + "\n" + JoinLines(b)
  {
    assert (a + b)[0] == a[0];
    if |a| == 1 {
      assert (a + b)[1..] == b;
    } else {
      assert (a + b)[1..] == a[1..] + b;
      JoinAppend(a[1..], b);
    }
  }
}
