/** Normalising document paths with a stack of segments. */
module DocPaths {
  import opened Text

  function StripSlashesLeft(s: string): string {
    if s != "" && s[0] == '/' then StripSlashesLeft(s[1..]) else s
  }

  function StripSlashesRight(s: string): string {
    if s != "" && s[|s| - 1] == '/' then StripSlashesRight(s[..|s| - 1]) else s
  }

  /** `s.strip("/")` */
  function StripSlashes(s: string): string {
    StripSlashesLeft(StripSlashesRight(s))
  }

  /** Characters before the first slash. */
  function SegmentLength(s: string): (n: nat)
    ensures n <= |s|
    ensures forall i :: 0 <= i < n ==> s[i] != '/'
    ensures n < |s| ==> s[n] == '/'
  {
    if s == "" || s[0] == '/' then 0
    else
      var n := SegmentLength(s[1..]);
      assert forall i :: 1 <= i < n + 1 ==> s[i] == s[1..][i - 1];
      n + 1
  }

  /** `s.split("/")` */
  function Split(s: string): (segs: seq<string>)
    ensures segs != []
    decreases |s|
  {
    var n := SegmentLength(s);
    if n == |s| then [s] else [s[..n]] + Split(s[n + 1..])
  }

  /** `"/".join(parts)` */
  function Join(parts: seq<string>): string {
    if parts == [] then "" else if |parts| == 1 then parts[0] else parts[0] + "/" + Join(parts[1..])
  }

  /** One segment: empty ones and dots are skipped, two dots drop the last part if there is one. */
  function Push(parts: seq<string>, seg: string): seq<string> {
    if seg == "" || seg == "." then parts
    else if seg == ".." then if parts == [] then [] else parts[..|parts| - 1]
    else parts + [seg]
  }

  function Resolve(parts: seq<string>, segs: seq<string>): seq<string>
    decreases |segs|
  {
    if segs == [] then parts else Resolve(Push(parts, segs[0]), segs[1..])
  }

  function Normal(path: string): string {
    var p := StripSlashes(Strip(path));
    if p == "" then "" else Join(Resolve([], Split(p)))
  }

  method NormalizeDocPath(path: string) returns (res: string)
    ensures res == Normal(path)
  {
    if path == "" {
      return "";
    }
    var p := StripSlashes(Strip(path));
    if p == "" {
      return "";
    }
    var parts: seq<string> := [];
    var segs := Split(p);
    for i := 0 to |segs|
      invariant Resolve([], segs) == Resolve(parts, segs[i..])
    {
      var seg := segs[i];
      assert segs[i..][0] == seg && segs[i..][1..] == segs[i + 1..];
      if seg == "" || seg == "." {
        continue;
      }
      if seg == ".." {
        if parts != [] {
          parts := parts[..|parts| - 1];
        }
      } else {
        parts := parts + [seg];
      }
    }
    res := Join(parts);
  }

  // ----- segments -----

  predicate NoSlash(s: string) {
    forall i :: 0 <= i < |s| ==> s[i] != '/'
  }

  /** A segment that stays in a normalised path. */
  predicate ProperSegment(seg: string) {
    seg != "" && seg != "." && seg != ".." && NoSlash(seg)
  }

  predicate Proper(parts: seq<string>) {
    forall i :: 0 <= i < |parts| ==> ProperSegment(parts[i])
  }

  lemma {:induction false} SplitHead(seg: string, rest: string)
    requires NoSlash(seg)
    ensures Split(seg + "/" + rest) == [seg] + Split(rest)
  {
    var s := seg + "/" + rest;
    assert s[|seg|] == '/';
    assert forall i :: 0 <= i < |seg| ==> s[i] == seg[i];
    assert SegmentLength(s) == |seg|;
    assert s[..|seg|] == seg && s[|seg| + 1..] == rest;
  }

  lemma {:induction false} SplitAppend(a: string, b: string)
    ensures Split(a + "/" + b) == Split(a) + Split(b)
    decreases |a|
  {
    var n := SegmentLength(a);
    if n == |a| {
      SplitHead(a, b);
    } else {
      var rest := a[n + 1..];
      SplitAppend(rest, b);
      assert a + "/" + b == a[..n] + "/" + (rest + "/" + b);
      SplitHead(a[..n], rest + "/" + b);
      Assoc([a[..n]], Split(rest), Split(b));
    }
  }

  lemma {:induction false} SplitNoSlash(s: string)
    ensures forall i :: 0 <= i < |Split(s)| ==> NoSlash(Split(s)[i])
    decreases |s|
  {
    var n := SegmentLength(s);
    if n < |s| {
      SplitNoSlash(s[n + 1..]);
    }
  }

  lemma {:induction false} SplitJoin(parts: seq<string>)
    requires parts != [] && forall i :: 0 <= i < |parts| ==> NoSlash(parts[i])
    ensures Split(Join(parts)) == parts
  {
    if |parts| == 1 {
      assert SegmentLength(parts[0]) == |parts[0]|;
    } else {
      SplitJoin(parts[1..]);
      SplitHead(parts[0], Join(parts[1..]));
    }
  }

  lemma {:induction false} ResolveAppend(parts: seq<string>, x: seq<string>, y: seq<string>)
    ensures Resolve(parts, x + y) == Resolve(Resolve(parts, x), y)
    decreases |x|
  {
    if x == [] {
      assert x + y == y;
    } else {
      assert (x + y)[0] == x[0] && (x + y)[1..] == x[1..] + y;
      ResolveAppend(Push(parts, x[0]), x[1..], y);
    }
  }

  lemma {:induction false} ResolveProper(parts: seq<string>, segs: seq<string>)
    requires Proper(parts) && forall i :: 0 <= i < |segs| ==> NoSlash(segs[i])
    ensures Proper(Resolve(parts, segs))
    decreases |segs|
  {
    if segs != [] {
      ResolveProper(Push(parts, segs[0]), segs[1..]);
    }
  }

  lemma {:induction false} ResolveKeeps(parts: seq<string>, segs: seq<string>)
    requires Proper(segs)
    ensures Resolve(parts, segs) == parts + segs
    decreases |segs|
  {
    if segs == [] {
      assert parts + segs == parts;
    } else {
      ResolveKeeps(parts + [segs[0]], segs[1..]);
      assert parts + [segs[0]] + segs[1..] == parts + segs;
    }
  }

  // ----- surrounding slashes make no difference -----

  /** The parts a text resolves to. */
  function Parts(s: string): seq<string> {
    Resolve([], Split(s))
  }

  lemma {:induction false} LeadingSlashes(s: string)
    ensures Parts(StripSlashesLeft(s)) == Parts(s)
  {
    if s != "" && s[0] == '/' {
      LeadingSlashes(s[1..]);
      assert s == "" + "/" + s[1..];
      SplitAppend("", s[1..]);
      assert Split("") == [""];
      ResolveAppend([], [""], Split(s[1..]));
      assert [""][1..] == [];
    }
  }

  lemma {:induction false} TrailingSlashes(s: string)
    ensures Parts(StripSlashesRight(s)) == Parts(s)
  {
    if s != "" && s[|s| - 1] == '/' {
      var t := s[..|s| - 1];
      TrailingSlashes(t);
      assert s == t + "/" + "";
      SplitAppend(t, "");
      assert Split("") == [""];
      ResolveAppend([], Split(t), [""]);
      assert [""][1..] == [];
    }
  }

  lemma NormalParts(path: string)
    ensures Normal(path) == Join(Parts(Strip(path)))
    ensures Proper(Parts(Strip(path)))
  {
    var s := Strip(path);
    TrailingSlashes(s);
    LeadingSlashes(StripSlashesRight(s));
    SplitNoSlash(s);
    ResolveProper([], Split(s));
    if StripSlashes(s) == "" {
      assert Split("") == [""] && [""][1..] == [];
    }
  }

  /** A normalised path has no empty segment, no dot and no double dot. */
  lemma {:induction false} NormalIsProper(path: string)
    ensures Normal(path) == "" || Proper(Split(Normal(path)))
  {
    NormalParts(path);
    var g := Parts(Strip(path));
    if g != [] {
      SplitJoin(g);
    }
  }

  // ----- idempotence -----

  /** Total length of the segments with their slashes. */
  function Total(parts: seq<string>): nat {
    if parts == [] then 0 else |parts[0]| + 1 + Total(parts[1..])
  }

  lemma {:induction false} TotalAppend(a: seq<string>, b: seq<string>)
    ensures Total(a + b) == Total(a) + Total(b)
  {
    if a == [] {
      assert a + b == b;
    } else {
      assert (a + b)[0] == a[0] && (a + b)[1..] == a[1..] + b;
      TotalAppend(a[1..], b);
    }
  }

  lemma TotalCons(seg: string, parts: seq<string>)
    ensures Total([seg] + parts) == |seg| + 1 + Total(parts)
  {
    assert ([seg] + parts)[1..] == parts;
  }

  lemma {:induction false} TotalSplit(s: string)
    ensures Total(Split(s)) == |s| + 1
    decreases |s|
  {
    var n := SegmentLength(s);
    if n == |s| {
      TotalCons(s, []);
      assert [s] + [] == [s];
    } else {
      TotalSplit(s[n + 1..]);
      TotalCons(s[..n], Split(s[n + 1..]));
    }
  }

  lemma {:induction false} TotalJoin(parts: seq<string>)
    ensures parts != [] ==> |Join(parts)| + 1 == Total(parts)
  {
    if |parts| > 1 {
      TotalJoin(parts[1..]);
    } else if |parts| == 1 {
      assert parts[1..] == [];
    }
  }

  lemma {:induction false} TotalResolve(parts: seq<string>, segs: seq<string>)
    ensures Total(Resolve(parts, segs)) <= Total(parts) + Total(segs)
    decreases |segs|
  {
    if segs != [] {
      if parts != [] {
        TotalAppend(parts[..|parts| - 1], [parts[|parts| - 1]]);
        assert parts[..|parts| - 1] + [parts[|parts| - 1]] == parts;
      }
      TotalAppend(parts, [segs[0]]);
      assert [segs[0]][1..] == [];
      TotalResolve(Push(parts, segs[0]), segs[1..]);
    }
  }

  lemma {:induction false} NormalShortens(path: string)
    ensures |Normal(path)| <= |Strip(path)|
  {
    var s := Strip(path);
    NormalParts(path);
    TotalSplit(s);
    TotalResolve([], Split(s));
    TotalJoin(Parts(s));
  }

  lemma {:induction false} PartsOfJoin(g: seq<string>)
    requires Proper(g)
    ensures Parts(Join(g)) == g
  {
    if g == [] {
      assert Split("") == [""] && [""][1..] == [];
    } else {
      SplitJoin(g);
      ResolveKeeps([], g);
      assert [] + g == g;
    }
  }

  lemma StripShorter(s: string)
    requires !Trimmed(s)
    ensures |Strip(s)| < |s|
  {
    RStripSplit(s);
    LStripTrims(RStrip(s));
    StripTrims(s);
  }

  predicate StartsInSpace(s: string) {
    s != "" && IsSpace(s[0])
  }

  predicate EndsInSpace(s: string) {
    s != "" && IsSpace(s[|s| - 1])
  }

  /**
   The segments that no later double dots drop, found from the end: every `..` drops one more of the
   proper segments before it.
   */
  function Survivors(segs: seq<string>, skip: nat): seq<string> {
    if segs == [] then []
    else
      var init, last := segs[..|segs| - 1], segs[|segs| - 1];
      if last == "" || last == "." then Survivors(init, skip)
      else if last == ".." then Survivors(init, skip + 1)
      else if skip > 0 then Survivors(init, skip - 1)
      else Survivors(init, 0) + [last]
  }

  function Dropped(parts: seq<string>, k: nat): seq<string> {
    if k <= |parts| then parts[..|parts| - k] else []
  }

  lemma ResolveLast(segs: seq<string>, last: string)
    ensures Resolve([], segs + [last]) == Push(Resolve([], segs), last)
  {
    ResolveAppend([], segs, [last]);
    assert [last][1..] == [];
  }

  lemma DroppedPush(parts: seq<string>, last: string, k: nat)
    ensures Dropped(Push(parts, last), k) ==
            if last == "" || last == "." then Dropped(parts, k)
            else if last == ".." then Dropped(parts, k + 1)
            else if k > 0 then Dropped(parts, k - 1)
            else Dropped(parts, 0) + [last]
  {
  }

  /** The survivors are what the stack of parts holds, less its last `k` parts. */
  lemma {:induction false} SurvivorsAre(segs: seq<string>, k: nat)
    ensures Survivors(segs, k) == Dropped(Resolve([], segs), k)
    decreases |segs|
  {
    if segs != [] {
      var init, last := segs[..|segs| - 1], segs[|segs| - 1];
      assert segs == init + [last];
      ResolveLast(init, last);
      DroppedPush(Resolve([], init), last, k);
      SurvivorsAre(init, k);
      SurvivorsAre(init, k + 1);
      SurvivorsAre(init, if k > 0 then k - 1 else 0);
    }
  }

  lemma PartsSurvive(s: string)
    ensures Survivors(Split(s), 0) == Parts(s)
  {
    SurvivorsAre(Split(s), 0);
  }

  lemma {:induction false} JoinEdges(parts: seq<string>)
    requires Proper(parts)
    ensures StartsInSpace(Join(parts)) <==> parts != [] && StartsInSpace(parts[0])
    ensures EndsInSpace(Join(parts)) <==> parts != [] && EndsInSpace(parts[|parts| - 1])
    ensures parts != [] ==> Join(parts) != ""
  {
    if |parts| > 1 {
      JoinEdges(parts[1..]);
    }
  }

  lemma {:induction false} IdempotentWhenTrimmed(path: string)
    ensures Normal(Normal(path)) == Normal(path) <==> Trimmed(Normal(path))
  {
    var q := Normal(path);
    NormalParts(path);
    if Trimmed(q) {
      NormalParts(q);
      PartsOfJoin(Parts(Strip(path)));
      assert Strip(q) == q;
    } else {
      NormalShortens(q);
      StripShorter(q);
    }
  }

  /**
   Normalising again changes nothing if and only if the first surviving segment of the stripped path
   does not begin, and the last one does not end, in whitespace.
   */
  lemma {:induction false} Idempotent(path: string)
    ensures var g := Survivors(Split(Strip(path)), 0);
            Normal(Normal(path)) == Normal(path) <==>
            g == [] || (!StartsInSpace(g[0]) && !EndsInSpace(g[|g| - 1]))
  {
    IdempotentWhenTrimmed(path);
    NormalParts(path);
    PartsSurvive(Strip(path));
    JoinEdges(Parts(Strip(path)));
  }

  predicate NoSpace(s: string) {
    forall i :: 0 <= i < |s| ==> !IsSpace(s[i])
  }

  predicate NoSpaces(parts: seq<string>) {
    forall i :: 0 <= i < |parts| ==> NoSpace(parts[i])
  }

  lemma {:induction false} JoinNoSpace(parts: seq<string>)
    requires NoSpaces(parts)
    ensures NoSpace(Join(parts))
  {
    if |parts| > 1 {
      JoinNoSpace(parts[1..]);
    }
  }

  lemma {:induction false} SplitNoSpace(s: string)
    requires NoSpace(s)
    ensures NoSpaces(Split(s))
    decreases |s|
  {
    var n := SegmentLength(s);
    if n < |s| {
      SplitNoSpace(s[n + 1..]);
    }
  }

  lemma {:induction false} ResolveNoSpace(parts: seq<string>, segs: seq<string>)
    requires NoSpaces(parts) && NoSpaces(segs)
    ensures NoSpaces(Resolve(parts, segs))
    decreases |segs|
  {
    if segs != [] {
      ResolveNoSpace(Push(parts, segs[0]), segs[1..]);
    }
  }

  /** Normalising a path without whitespace is idempotent. */
  lemma {:induction false} IdempotentWithoutSpaces(path: string)
    requires NoSpace(path)
    ensures Normal(Normal(path)) == Normal(path) && Trimmed(Normal(path))
  {
    assert Strip(path) == path;
    NormalParts(path);
    SplitNoSpace(path);
    ResolveNoSpace([], Split(path));
    JoinNoSpace(Parts(path));
    IdempotentWhenTrimmed(path);
  }

  /** A space after a leading slash survives the first normalisation but not the second. */
  lemma {:induction false} SpaceBreaksIdempotence()
    ensures Normal("/ a") == " a" && Normal(Normal("/ a")) != Normal("/ a")
  {
    assert Strip("/ a") == "/ a";
    NormalParts("/ a");
    assert "/ a" == "" + "/" + " a";
    SplitHead("", " a");
    assert SegmentLength(" a") == 2;
    assert Split(" a") == [" a"];
    ResolveKeeps([], [" a"]);
    assert ["", " a"][1..] == [" a"] && [""] + [" a"] == ["", " a"];
    assert Parts("/ a") == [" a"];
    IdempotentWhenTrimmed("/ a");
  }

  // ----- joining paths -----

  lemma {:induction false} RStripKept(x: string, b: string)
    requires x != "" && !IsSpace(x[|x| - 1])
    ensures RStrip(x + b) == x + RStrip(b)
  {
    if b == "" {
      assert x + b == x;
    } else if IsSpace(b[|b| - 1]) {
      var c := b[..|b| - 1];
      assert (x + b)[..|x + b| - 1] == x + c;
      RStripKept(x, c);
    } else {
      assert (x + b)[|x + b| - 1] == b[|b| - 1];
    }
  }

  lemma {:induction false} StripJoinedPath(a: string, b: string)
    ensures Strip(a + "/" + b) == LStrip(a) + "/" + RStrip(b)
  {
    LStripSplit(a);
    var w, s := a[..|a| - |LStrip(a)|], LStrip(a);
    RStripKept(a + "/", b);
    var y := s + "/" + RStrip(b);
    assert a == w + s;
    assert a + "/" + RStrip(b) == w + y;
    LStripAppend(w, y);
    assert y[0] == if s == "" then '/' else s[0];
  }

  lemma {:induction false} NormalJoined(a: string, b: string)
    ensures Normal(a + "/" + b) == Join(Resolve(Parts(LStrip(a)), Split(RStrip(b))))
  {
    NormalParts(a + "/" + b);
    StripJoinedPath(a, b);
    SplitAppend(LStrip(a), RStrip(b));
    ResolveAppend([], Split(LStrip(a)), Split(RStrip(b)));
  }

  lemma NormalFront(a: string)
    ensures Normal(a + "/" + "") == Join(Parts(LStrip(a))) && Proper(Parts(LStrip(a)))
  {
    NormalJoined(a, "");
    assert Split("") == [""] && [""][1..] == [];
    SplitNoSlash(LStrip(a));
    ResolveProper([], Split(LStrip(a)));
  }

  /** More text at the end lengthens the last segment. */
  lemma {:induction false} SplitLonger(s: string, w: string)
    requires NoSlash(w)
    ensures var k := |Split(s)| - 1; Split(s + w) == Split(s)[..k] + [Split(s)[k] + w]
    decreases |s|
  {
    var n := SegmentLength(s);
    if n == |s| {
      SplitNoSlash(s);
      assert Split(s) == [s] && NoSlash(s);
      assert NoSlash(s + w);
      assert SegmentLength(s + w) == |s + w|;
    } else {
      var rest := s[n + 1..];
      SplitLonger(rest, w);
      CutAtSlash(s, n, w);
      SplitHead(s[..n], rest + w);
      LastBehind(s[..n], Split(rest), Split(rest)[|Split(rest)| - 1] + w);
    }
  }

  lemma LastBehind<T>(head: T, tail: seq<T>, last: T)
    requires tail != []
    ensures var all := [head] + tail;
            all[|all| - 1] == tail[|tail| - 1] &&
            all[..|all| - 1] + [last] == [head] + (tail[..|tail| - 1] + [last])
  {
  }

  lemma CutAtSlash(s: string, n: nat, w: string)
    requires n < |s| && s[n] == '/'
    ensures s + w == s[..n] + "/" + (s[n + 1..] + w)
  {
  }

  lemma TotalParts(s: string)
    ensures Total(Parts(s)) <= |s| + 1
  {
    TotalSplit(s);
    TotalResolve([], Split(s));
  }

  /** Whitespace at the end of a text that has any other character lengthens what it resolves to. */
  lemma {:induction false} LongerParts(s: string, w: string)
    requires w != "" && AllSpace(w)
    ensures Total(Parts(s)) < Total(Parts(s + w))
  {
    var k := |Split(s)| - 1;
    var init, last := Split(s)[..k], Split(s)[k];
    SplitLonger(s, w);
    assert Split(s) == init + [last];
    ResolveLast(init, last);
    ResolveLast(init, last + w);
    assert (last + w)[|last + w| - 1] == w[|w| - 1];
    PushLonger(Resolve([], init), last, last + w);
  }

  lemma PushLonger(parts: seq<string>, x: string, y: string)
    requires |x| < |y| && y != "." && y != ".."
    ensures Total(Push(parts, x)) < Total(Push(parts, y))
  {
    TotalAppend(parts, [x]);
    TotalAppend(parts, [y]);
    TotalCons(x, []);
    TotalCons(y, []);
    assert [x] + [] == [x] && [y] + [] == [y];
    if parts != [] {
      var k := |parts| - 1;
      assert parts == parts[..k] + [parts[k]];
      TotalAppend(parts[..k], [parts[k]]);
    }
  }

  lemma TakeDrop<T>(s: seq<T>, n: nat)
    requires n <= |s|
    ensures s == s[..n] + s[n..] && (n < |s| ==> s[n..][|s| - n - 1] == s[|s| - 1])
  {
  }

  lemma TailLengthens(a: string)
    requires LStrip(a) != "" && EndsInSpace(a)
    ensures Total(Parts(Strip(a))) < Total(Parts(LStrip(a)))
  {
    var s := LStrip(a);
    StripEither(a);
    LStripSplit(a);
    RStripSplit(s);
    var n := |RStrip(s)|;
    TakeDrop(s, n);
    TakeDrop(a, |a| - |s|);
    LongerParts(RStrip(s), s[n..]);
  }

  lemma NoTail(a: string)
    requires LStrip(a) == "" || !EndsInSpace(a)
    ensures Strip(a) == LStrip(a)
  {
    StripEither(a);
    LStripSplit(a);
  }

  /** Stripping the front of a normalised path never makes it resolve to more. */
  lemma {:induction false} StrippedJoin(g: seq<string>)
    requires Proper(g)
    ensures var h := Parts(LStrip(Join(g)));
            if g == [] || !StartsInSpace(g[0]) then h == g else Total(h) < Total(g)
  {
    JoinEdges(g);
    PartsOfJoin(g);
    TotalJoin(g);
    TotalParts(LStrip(Join(g)));
    LStripSplit(Join(g));
    if g != [] && StartsInSpace(g[0]) {
      LStripSplit(Join(g)[1..]);
    }
  }

  /**
   A front that can be normalised by itself: blank, or not ending in whitespace and with a first
   surviving segment that does not begin in whitespace.
   */
  predicate CleanFront(a: string) {
    LStrip(a) == "" ||
    (!EndsInSpace(a) && var g := Survivors(Split(LStrip(a)), 0); g == [] || !StartsInSpace(g[0]))
  }

  /** The parts of a front, taken as it is and normalised first. */
  lemma {:induction false} FrontParts(a: string)
    ensures Parts(LStrip(Normal(a))) == Parts(LStrip(a)) <==> CleanFront(a)
  {
    var g := Parts(Strip(a));
    NormalParts(a);
    StrippedJoin(g);
    PartsSurvive(LStrip(a));
    if LStrip(a) == "" || !EndsInSpace(a) {
      NoTail(a);
      if LStrip(a) == "" {
        assert Split("") == [""] && [""][1..] == [];
      }
    } else {
      TailLengthens(a);
    }
  }

  /** Normalising the front of joined paths first makes no difference if and only if the front is clean. */
  lemma {:induction false} NormalComposes(a: string)
    ensures (forall b :: Normal(a + "/" + b) == Normal(Normal(a) + "/" + b)) <==> CleanFront(a)
  {
    FrontParts(a);
    if CleanFront(a) {
      forall b
        ensures Normal(a + "/" + b) == Normal(Normal(a) + "/" + b)
      {
        NormalJoined(a, b);
        NormalJoined(Normal(a), b);
      }
    } else {
      NormalFront(a);
      NormalFront(Normal(a));
      PartsOfJoin(Parts(LStrip(a)));
      PartsOfJoin(Parts(LStrip(Normal(a))));
      assert Normal(a + "/" + "") != Normal(Normal(a) + "/" + "");
    }
  }

  lemma SplitUp(seg: string)
    requires NoSlash(seg)
    ensures Split(seg + "/..") == [seg, ".."]
  {
    SplitHead(seg, "..");
    assert SegmentLength("..") == 2;
    assert seg + "/" + ".." == seg + "/..";
  }

  lemma ResolveUp(parts: seq<string>, seg: string)
    requires ProperSegment(seg)
    ensures Resolve(parts, [seg, ".."]) == parts
  {
    var down := parts + [seg];
    assert [seg, ".."][1..] == [".."] && [".."][1..] == [];
    assert down[..|down| - 1] == parts;
    assert Resolve(parts, [seg, ".."]) == Resolve(down, [".."]);
  }

  /** Going down one segment and up again leads back, unless whitespace at the end of the front is in the way. */
  lemma {:induction false} UpUndoesDown(a: string, seg: string)
    requires ProperSegment(seg)
    ensures Normal(a + "/" + (seg + "/..")) == Normal(a) <==> LStrip(a) == "" || !EndsInSpace(a)
  {
    var p := Parts(LStrip(a));
    NormalJoined(a, seg + "/..");
    NormalParts(a);
    NormalFront(a);
    assert RStrip(seg + "/..") == seg + "/..";
    SplitUp(seg);
    ResolveUp(p, seg);
    PartsOfJoin(p);
    PartsOfJoin(Parts(Strip(a)));
    if LStrip(a) == "" || !EndsInSpace(a) {
      NoTail(a);
    } else {
      TailLengthens(a);
    }
  }

  /** More text at the beginning lengthens the first segment. */
  lemma {:induction false} SplitPadded(w: string, s: string)
    requires NoSlash(w)
    ensures Split(w + s) == [w + Split(s)[0]] + Split(s)[1..]
  {
    var n := SegmentLength(s);
    if n == |s| {
      SplitNoSlash(s);
      SplitNoSlash(w + s);
      assert Split(s)[1..] == [];
    } else {
      assert w + s == (w + s[..n]) + "/" + s[n + 1..];
      assert Split(s)[1..] == Split(s[n + 1..]);
      SplitHead(w + s[..n], s[n + 1..]);
    }
  }

  /** A part at the bottom of the stack either stays or is dropped, whatever it is. */
  lemma {:induction false} BottomPart(x: string, y: string, segs: seq<string>)
    ensures var rest := Resolve([], segs);
            || (Resolve([x], segs) == [x] + rest && Resolve([y], segs) == [y] + rest)
            || (Resolve([x], segs) == rest && Resolve([y], segs) == rest)
    decreases |segs|
  {
    if segs == [] {
      assert [x] + [] == [x] && [y] + [] == [y];
    } else {
      var init, last := segs[..|segs| - 1], segs[|segs| - 1];
      assert segs == init + [last] && [last][1..] == [];
      BottomPart(x, y, init);
      ResolveAppend([], init, [last]);
      ResolveAppend([x], init, [last]);
      ResolveAppend([y], init, [last]);
      PushAbove(x, Resolve([], init), last);
      PushAbove(y, Resolve([], init), last);
    }
  }

  lemma PushAbove(x: string, parts: seq<string>, seg: string)
    ensures Push([x] + parts, seg) == if seg == ".." && parts == [] then [] else [x] + Push(parts, seg)
  {
  }

  /** No later double dots drop the first segment. */
  predicate FirstSurvives(segs: seq<string>)
    requires segs != []
  {
    Survivors(segs, 0) != Survivors(segs[1..], 0)
  }

  /** Whitespace in front of a path that has any other character is lost unless its first segment is dropped. */
  lemma {:induction false} LostInFront(w: string, t: string)
    requires w != "" && AllSpace(w)
    ensures Parts(w + t) == Parts(t) <==> !FirstSurvives(Split(w + t))
  {
    var y, rest := Split(t)[0], Split(t)[1..];
    var x := w + y;
    SplitPadded(w, t);
    assert Split(t) == [y] + rest;
    assert ([x] + rest)[1..] == rest;
    assert x[0] == w[0];
    SurvivorsAre([x] + rest, 0);
    SurvivorsAre(rest, 0);
    DroppedNone(Resolve([], [x] + rest));
    DroppedNone(Resolve([], rest));
    FirstDecides(x, y, rest);
  }

  lemma DroppedNone(parts: seq<string>)
    ensures Dropped(parts, 0) == parts
  {
  }

  lemma FirstDecides(x: string, y: string, rest: seq<string>)
    requires x != y && x != "" && x != "." && x != ".."
    ensures Resolve([], [x] + rest) == Resolve([], [y] + rest) <==> Resolve([], [x] + rest) == Resolve([], rest)
  {
    FirstPart(x, rest);
    FirstPart(y, rest);
    BottomPart(x, y, rest);
    Unequal(x, y, Resolve([], rest));
  }

  lemma FirstPart(x: string, rest: seq<string>)
    ensures Resolve([], [x] + rest) == Resolve(Push([], x), rest)
  {
    assert ([x] + rest)[1..] == rest;
  }

  lemma Unequal(x: string, y: string, rest: seq<string>)
    requires x != y
    ensures Push([], x) == [x] || Push([], x) == []
    ensures Push([], y) == [y] || Push([], y) == []
    ensures [x] + rest != [y] + rest && [x] + rest != rest
  {
    assert ([x] + rest)[0] == x && ([y] + rest)[0] == y;
  }

  lemma JoinedAlike(a: string, b: string)
    ensures Join(Parts(a)) == Join(Parts(b)) <==> Parts(a) == Parts(b)
  {
    SplitNoSlash(a);
    SplitNoSlash(b);
    ResolveProper([], Split(a));
    ResolveProper([], Split(b));
    PartsOfJoin(Parts(a));
    PartsOfJoin(Parts(b));
  }

  lemma NothingInFront()
    ensures Parts("") == [] && Parts("..") == []
  {
    assert Split("") == [""] && [""][1..] == [];
    assert SegmentLength("..") == 2;
    assert Split("..") == [".."] && [".."][1..] == [];
  }

  /** The whitespace that `strip` takes from the front, if that is more than nothing. */
  lemma {:induction false} StripFront(path: string)
    ensures Parts(RStrip(path)) == Parts(Strip(path)) <==>
            StartsInSpace(RStrip(path)) ==> !FirstSurvives(Split(RStrip(path)))
  {
    var s := RStrip(path);
    if StartsInSpace(s) {
      LStripSplit(s);
      var w := s[..|s| - |LStrip(s)|];
      assert s == w + LStrip(s);
      LStripSplit(s[1..]);
      LostInFront(w, LStrip(s));
    }
  }

  /**
   Double dots cannot climb above the root: in front of a path they are as good as a slash. Either makes a
   difference if and only if the path without trailing whitespace begins in whitespace and its first segment
   survives.
   */
  lemma {:induction false} RootAbsorbs(path: string)
    ensures Normal("../" + path) == Normal("/" + path)
    ensures Normal("/" + path) == Normal(path) <==>
            (StartsInSpace(RStrip(path)) ==> !FirstSurvives(Split(RStrip(path))))
  {
    assert "../" + path == ".." + "/" + path && "/" + path == "" + "/" + path;
    NormalJoined("..", path);
    NormalJoined("", path);
    NormalParts(path);
    NothingInFront();
    StripFront(path);
    JoinedAlike(RStrip(path), Strip(path));
  }
}
