/** Scanning a template for `${...}` and splicing the values in. */
module Template {
  import opened Text

  /** The inside of one interpolation: first character after the brace, index of the closing brace. */
  datatype Capture = Capture(start: nat, end: nat)

  /** A dollar sign and an opening brace at `i`. */
  predicate OpensAt(t: string, i: nat) {
    i + 1 < |t| && t[i] == '$' && t[i + 1] == '{'
  }

  /** The first opening at or after `i`, or the length. */
  function NextOpening(t: string, i: nat): (j: nat)
    requires i <= |t|
    ensures i <= j <= |t|
    ensures j < |t| ==> OpensAt(t, j)
    ensures forall k :: i <= k < j ==> !OpensAt(t, k)
    decreases |t| - i
  {
    if i == |t| || OpensAt(t, i) then i else NextOpening(t, i + 1)
  }

  /** Where the brace that is `depth` levels open at `i` closes, or the length. */
  function Closing(t: string, i: nat, depth: nat): (e: nat)
    requires i <= |t| && depth > 0
    ensures i <= e <= |t|
    ensures e < |t| ==> t[e] == '}'
    decreases |t| - i
  {
    if i == |t| then i
    else if t[i] == '{' then Closing(t, i + 1, depth + 1)
    else if t[i] == '}' then if depth == 1 then i else Closing(t, i + 1, depth - 1)
    else Closing(t, i + 1, depth)
  }

  /** The captures of the text from `i` on. Scanning ends at an opening that is never closed. */
  function Captures(t: string, i: nat): seq<Capture>
    requires i <= |t|
    decreases |t| - i
  {
    var j := NextOpening(t, i);
    if j == |t| then [] else Closed(t, j + 2, Closing(t, j + 2, 1))
  }

  /** The capture that closes at `e`, and those after it. */
  function Closed(t: string, start: nat, e: nat): seq<Capture>
    requires start <= e <= |t|
    decreases |t| - e, 0
  {
    if e == |t| then [] else [Capture(start, e)] + Captures(t, e + 1)
  }

  /** `eval` of the text of a capture, or none when a name or the syntax is unknown. */
  type Resolver = string -> Option<string>

  function Value(t: string, c: Capture, resolve: Resolver): string
    requires c.start <= c.end <= |t|
  {
    var text := t[c.start..c.end];
    match resolve(text)
    case Some(v) => v
    case None => "${" + text + "}"
  }

  /** Captures in order, apart from each other and from `pos`, each after its opening and before its brace. */
  predicate WellPlaced(t: string, cs: seq<Capture>, pos: nat)
    decreases |cs|
  {
    cs == [] ||
    (pos + 2 <= cs[0].start <= cs[0].end < |t| && OpensAt(t, cs[0].start - 2) && t[cs[0].end] == '}' &&
     WellPlaced(t, cs[1..], cs[0].end + 1))
  }

  /** The text from `pos` on with the captures replaced. */
  function Spliced(t: string, cs: seq<Capture>, pos: nat, resolve: Resolver): string
    requires pos <= |t| && WellPlaced(t, cs, pos)
    decreases |cs|
  {
    if cs == [] then t[pos..]
    else t[pos..cs[0].start - 2] + Value(t, cs[0], resolve) + Spliced(t, cs[1..], cs[0].end + 1, resolve)
  }

  lemma {:induction false} CapturesWellPlaced(t: string, i: nat)
    requires i <= |t|
    ensures WellPlaced(t, Captures(t, i), i)
    decreases |t| - i
  {
    var j := NextOpening(t, i);
    if j < |t| {
      var e := Closing(t, j + 2, 1);
      if e < |t| {
        CapturesWellPlaced(t, e + 1);
        assert Captures(t, i) == [Capture(j + 2, e)] + Captures(t, e + 1);
        assert Captures(t, i)[1..] == Captures(t, e + 1);
      }
    }
  }

  function Rendered(t: string, resolve: Resolver): string {
    CapturesWellPlaced(t, 0);
    Spliced(t, Captures(t, 0), 0, resolve)
  }

  class PyTemplate {
    const template: string

    constructor (template: string)
      ensures this.template == template
    {
      this.template := template;
    }

    method FindCaptures() returns (captures: seq<Capture>)
      ensures captures == Captures(template, 0)
    {
      captures := [];
      var captureStart := -1;
      var foundDelimiter := false;
      var delimCount := 0;
      for i := 0 to |template|
        invariant captureStart >= 0 ==> !foundDelimiter && captureStart <= i && delimCount > 0
        invariant foundDelimiter ==> i > 0 && template[i - 1] == '$'
        invariant Captures(template, 0) == captures + Pending(template, i, captureStart, foundDelimiter, delimCount)
      {
        PendingStep(template, i, captureStart, foundDelimiter, delimCount);
        var ch := template[i];
        if ch == '$' && captureStart < 0 {
          foundDelimiter := true;
        } else if ch != '{' && foundDelimiter {
          foundDelimiter := false;
        } else if ch == '{' && foundDelimiter && captureStart < 0 {
          foundDelimiter := false;
          delimCount := 1;
          captureStart := i + 1;
        } else if ch == '{' && captureStart >= 0 {
          delimCount := delimCount + 1;
        } else if ch == '}' && captureStart >= 0 {
          delimCount := delimCount - 1;
          if delimCount == 0 {
            Assoc(captures, [Capture(captureStart, i)], Captures(template, i + 1));
            captures := captures + [Capture(captureStart, i)];
            captureStart := -1;
          }
        }
      }
      assert Pending(template, |template|, captureStart, foundDelimiter, delimCount) == [] by {
        PendingEnds(template, captureStart, foundDelimiter, delimCount);
      }
      assert captures + [] == captures;
    }

    method Render(resolve: Resolver) returns (result: string)
      ensures result == Rendered(template, resolve)
    {
      var captures := FindCaptures();
      CapturesWellPlaced(template, 0);
      result := "";
      var pos := 0;
      assert captures[0..] == captures;
      for i := 0 to |captures|
        invariant 0 <= pos <= |template|
        invariant Continues(template, captures[i..], pos, resolve, result)
      {
        result, pos := Replace(captures, i, pos, resolve, result);
      }
      result := result + template[pos..];
    }

    /** Appends the text before a capture and the value of the capture. */
    method Replace(captures: seq<Capture>, i: nat, pos: nat, resolve: Resolver, buffer: string)
      returns (result: string, next: nat)
      requires i < |captures| && Continues(template, captures[i..], pos, resolve, buffer)
      ensures Continues(template, captures[i + 1..], next, resolve, result)
    {
      var c := captures[i];
      next := c.end + 1;
      SplicedStep(template, captures, i, pos, next, resolve, buffer);
      result := buffer + template[pos..c.start - 2];
      var val := Value(template, c, resolve);
      result := result + val;
    }
  }

  lemma TailAt<T>(s: seq<T>, i: nat)
    requires i < |s|
    ensures s[i..][0] == s[i] && s[i..][1..] == s[i + 1..]
  {
  }

  /** The result so far, to be followed by the rest of the text. */
  ghost predicate Continues(t: string, cs: seq<Capture>, pos: nat, resolve: Resolver, result: string) {
    pos <= |t| && WellPlaced(t, cs, pos) && Rendered(t, resolve) == result + Spliced(t, cs, pos, resolve)
  }

  lemma Regroup(a: string, b: string, c: string, d: string)
    ensures a + (b + c + d) == a + b + c + d
  {
  }

  /** What one capture adds to the result. */
  lemma {:induction false} SplicedStep(t: string, cs: seq<Capture>, i: nat, pos: nat, next: nat, resolve: Resolver,
                                       result: string)
    requires i < |cs| && Continues(t, cs[i..], pos, resolve, result) && next == cs[i].end + 1
    ensures var c := cs[i];
            && pos + 2 <= c.start <= c.end < |t|
            && Continues(t, cs[i + 1..], next, resolve, result + t[pos..c.start - 2] + Value(t, c, resolve))
  {
    var c := cs[i];
    TailAt(cs, i);
    var rest := Spliced(t, cs[i + 1..], next, resolve);
    assert Spliced(t, cs[i..], pos, resolve) == t[pos..c.start - 2] + Value(t, c, resolve) + rest;
    Regroup(result, t[pos..c.start - 2], Value(t, c, resolve), rest);
  }

  /** The captures still to be found in a state of the scan. */
  ghost function Pending(t: string, i: nat, captureStart: int, found: bool, depth: int): seq<Capture>
    requires i <= |t|
    requires captureStart >= 0 ==> captureStart <= i && depth > 0
    requires found ==> i > 0
  {
    if captureStart >= 0 then Closed(t, captureStart, Closing(t, i, depth))
    else if found then Captures(t, i - 1)
    else Captures(t, i)
  }

  lemma SkipToNext(t: string, i: nat)
    requires i < |t| && !OpensAt(t, i)
    ensures Captures(t, i) == Captures(t, i + 1)
  {
  }

  lemma {:induction false} PendingEnds(t: string, captureStart: int, found: bool, depth: int)
    requires captureStart >= 0 ==> captureStart <= |t| && depth > 0
    requires found ==> |t| > 0
    ensures Pending(t, |t|, captureStart, found, depth) == []
  {
    if captureStart < 0 && found {
      SkipToNext(t, |t| - 1);
    }
  }

  /** What one character does to the captures still to be found. */
  lemma {:induction false} PendingStep(t: string, i: nat, captureStart: int, found: bool, depth: int)
    requires i < |t|
    requires captureStart >= 0 ==> !found && captureStart <= i && depth > 0
    requires found ==> i > 0 && t[i - 1] == '$'
    ensures captureStart < 0 && t[i] == '$' ==>
              Pending(t, i, captureStart, found, depth) == Captures(t, i)
    ensures captureStart < 0 && t[i] != '$' && !(found && t[i] == '{') ==>
              Pending(t, i, captureStart, found, depth) == Captures(t, i + 1)
    ensures captureStart < 0 && found && t[i] == '{' ==>
              Pending(t, i, captureStart, found, depth) == Closed(t, i + 1, Closing(t, i + 1, 1))
  {
    if captureStart < 0 {
      if found {
        if t[i] == '{' {
          assert OpensAt(t, i - 1);
          assert NextOpening(t, i - 1) == i - 1;
        } else {
          SkipToNext(t, i - 1);
        }
      }
      if t[i] != '$' {
        SkipToNext(t, i);
      }
    }
  }

  // ----- what the captures are -----

  /** Opening braces minus closing braces between two positions. */
  function Depth(t: string, i: nat, k: nat): int
    requires i <= k <= |t|
  {
    if i == k then 0 else Depth(t, i, k - 1) + (if t[k - 1] == '{' then 1 else if t[k - 1] == '}' then -1 else 0)
  }

  predicate Balanced(t: string, i: nat, e: nat) {
    i <= e <= |t| && Depth(t, i, e) == 0 && forall k :: i <= k <= e ==> Depth(t, i, k) >= 0
  }

  lemma {:induction false} DepthSplit(t: string, i: nat, m: nat, k: nat)
    requires i <= m <= k <= |t|
    ensures Depth(t, i, k) == Depth(t, i, m) + Depth(t, m, k)
  {
    if m < k {
      DepthSplit(t, i, m, k - 1);
    }
  }

  /** Up to where it closes, the text never leaves the brace. */
  lemma {:induction false} ClosingDepth(t: string, i: nat, depth: nat)
    requires i <= |t| && depth > 0
    ensures var e := Closing(t, i, depth);
            && (forall k :: i <= k <= e ==> Depth(t, i, k) + depth > 0)
            && (e < |t| ==> Depth(t, i, e) + depth == 1)
    decreases |t| - i
  {
    var e := Closing(t, i, depth);
    if i < |t| && e > i {
      var d := if t[i] == '{' then depth + 1 else if t[i] == '}' then depth - 1 else depth;
      assert e == Closing(t, i + 1, d) && d > 0;
      ClosingDepth(t, i + 1, d);
      assert Depth(t, i, i) == 0;
      assert Depth(t, i, i + 1) + depth == d;
      forall k | i < k <= e
        ensures Depth(t, i, k) + depth == Depth(t, i + 1, k) + d
      {
        DepthSplit(t, i, i + 1, k);
      }
    }
  }

  /** Every capture is brace-balanced. */
  lemma {:induction false} CapturesBalanced(t: string, i: nat)
    requires i <= |t|
    ensures forall c :: c in Captures(t, i) ==> Balanced(t, c.start, c.end)
    decreases |t| - i
  {
    var j := NextOpening(t, i);
    if j < |t| {
      var e := Closing(t, j + 2, 1);
      ClosingDepth(t, j + 2, 1);
      if e < |t| {
        CapturesBalanced(t, e + 1);
      }
    }
  }

  /**
   Nothing is missed: an opening lies in a capture or is the opening of one, unless an earlier opening,
   or itself, is never closed.
   */
  lemma {:induction false} CapturesComplete(t: string, i: nat, k: nat)
    requires i <= k < |t| && OpensAt(t, k)
    ensures (exists c :: c in Captures(t, i) && c.start - 2 <= k < c.end) ||
            (exists j :: i <= j <= k && OpensAt(t, j) && Closing(t, j + 2, 1) == |t|)
    decreases |t| - i
  {
    var j := NextOpening(t, i);
    var e := Closing(t, j + 2, 1);
    if e < |t| {
      var c := Capture(j + 2, e);
      assert c in Captures(t, i);
      if k > e {
        CapturesComplete(t, e + 1, k);
        if c' :| c' in Captures(t, e + 1) && c'.start - 2 <= k < c'.end {
          assert c' in Captures(t, i);
        }
      }
    }
  }

  /** None of the captured texts has a value. */
  predicate NoneResolve(t: string, cs: seq<Capture>, resolve: Resolver) {
    cs == [] ||
    ((cs[0].start <= cs[0].end <= |t| ==> resolve(t[cs[0].start..cs[0].end]).None?) && NoneResolve(t, cs[1..], resolve))
  }

  lemma {:induction false} UnresolvedUnchanged(t: string, cs: seq<Capture>, pos: nat, resolve: Resolver)
    requires pos <= |t| && WellPlaced(t, cs, pos) && NoneResolve(t, cs, resolve)
    ensures Spliced(t, cs, pos, resolve) == t[pos..]
    decreases |cs|
  {
    if cs != [] {
      UnresolvedUnchanged(t, cs[1..], cs[0].end + 1, resolve);
      UnresolvedHead(t, cs, pos, resolve);
    }
  }

  lemma UnresolvedHead(t: string, cs: seq<Capture>, pos: nat, resolve: Resolver)
    requires cs != [] && pos <= |t| && WellPlaced(t, cs, pos) && NoneResolve(t, cs, resolve)
    requires Spliced(t, cs[1..], cs[0].end + 1, resolve) == t[cs[0].end + 1..]
    ensures Spliced(t, cs, pos, resolve) == t[pos..]
  {
    var Capture(s, e) := cs[0];
    assert Value(t, cs[0], resolve) == "${" + t[s..e] + "}";
    PutBack(t, pos, s, e);
  }

  lemma PutBack(t: string, pos: nat, s: nat, e: nat)
    requires pos + 2 <= s <= e < |t| && OpensAt(t, s - 2) && t[e] == '}'
    ensures t[pos..s - 2] + ("${" + t[s..e] + "}") + t[e + 1..] == t[pos..]
  {
  }

  /** When no capture can be resolved, rendering returns the template unchanged, whatever its braces. */
  lemma {:induction false} RenderUnresolved(t: string, resolve: Resolver)
    requires NoneResolve(t, Captures(t, 0), resolve)
    ensures Rendered(t, resolve) == t
  {
    CapturesWellPlaced(t, 0);
    UnresolvedUnchanged(t, Captures(t, 0), 0, resolve);
  }
}
