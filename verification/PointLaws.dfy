/** Laws of the point rules: counting is optimal, and points are monotone. */
module PointLaws {
  import opened Text
  import opened Rounding
  import opened PointRules

  // ----- sums and permutations -----

  lemma {:induction false} SumAppend(a: seq<real>, b: seq<real>)
    ensures Sum(a + b) == Sum(a) + Sum(b)
  {
    if b == [] {
      assert a + b == a;
    } else {
      assert (a + b)[..|a + b| - 1] == a + b[..|b| - 1];
      SumAppend(a, b[..|b| - 1]);
    }
  }

  lemma SumOne(x: real)
    ensures Sum([x]) == x
  {
    assert [x][..0] == [];
  }

  /** Taking out one element. */
  function Removed(xs: seq<real>, i: nat): seq<real>
    requires i < |xs|
  {
    xs[..i] + xs[i + 1..]
  }

  lemma ApartAt<T>(xs: seq<T>, i: nat)
    requires i < |xs|
    ensures xs == xs[..i] + ([xs[i]] + xs[i + 1..])
  {
  }

  lemma SumRemoved(xs: seq<real>, i: nat)
    requires i < |xs|
    ensures Sum(xs) == Sum(Removed(xs, i)) + xs[i]
    ensures multiset(xs) == multiset(Removed(xs, i)) + multiset{xs[i]}
  {
    ApartAt(xs, i);
    SumAppend(xs[..i], [xs[i]] + xs[i + 1..]);
    SumAppend([xs[i]], xs[i + 1..]);
    SumAppend(xs[..i], xs[i + 1..]);
    SumOne(xs[i]);
  }

  // ----- sorted scores -----

  predicate Descending(xs: seq<real>) {
    forall i, j :: 0 <= i < j < |xs| ==> xs[i] >= xs[j]
  }

  predicate Ascending(xs: seq<real>) {
    forall i, j :: 0 <= i < j < |xs| ==> xs[i] <= xs[j]
  }

  /** A choice of some of the scores. */
  predicate Choice(ys: seq<real>, xs: seq<real>) {
    multiset(ys) <= multiset(xs)
  }

  lemma BagHead(xs: seq<real>)
    requires xs != []
    ensures multiset(xs) == multiset{xs[0]} + multiset(xs[1..])
  {
    assert xs == [xs[0]] + xs[1..];
  }

  lemma CancelOne(a: multiset<real>, b: multiset<real>, x: real)
    requires a + multiset{x} <= multiset{x} + b
    ensures a <= b
  {
    forall y
      ensures a[y] <= b[y]
    {
      assert (a + multiset{x})[y] <= (multiset{x} + b)[y];
    }
  }

  lemma ElementChosen(ys: seq<real>, xs: seq<real>, i: nat)
    requires Choice(ys, xs) && i < |ys|
    ensures ys[i] in xs
  {
    assert ys[i] in multiset(ys);
    assert ys[i] in multiset(xs);
  }

  /** Where to take an element out of a choice so that the rest chooses from the tail. */
  lemma {:induction false} ChoiceStep(ys: seq<real>, xs: seq<real>) returns (i: nat)
    requires Choice(ys, xs) && ys != [] && xs != []
    ensures i < |ys| && Choice(Removed(ys, i), xs[1..]) && ys[i] in xs
  {
    BagHead(xs);
    if xs[0] in ys {
      i :| 0 <= i < |ys| && ys[i] == xs[0];
      SumRemoved(ys, i);
      CancelOne(multiset(Removed(ys, i)), multiset(xs[1..]), xs[0]);
    } else {
      i := 0;
      SumRemoved(ys, 0);
      OthersOnly(multiset(ys), multiset(xs[1..]), xs[0]);
    }
    ElementChosen(ys, xs, i);
  }

  lemma OthersOnly(a: multiset<real>, b: multiset<real>, x: real)
    requires a <= multiset{x} + b && x !in a
    ensures a <= b
  {
    forall y
      ensures a[y] <= b[y]
    {
      assert a[y] <= (multiset{x} + b)[y];
    }
  }

  /** Of a descending list no choice sums to more than the front. */
  lemma {:induction false} FrontIsLargest(ys: seq<real>, xs: seq<real>)
    requires Descending(xs) && Choice(ys, xs)
    ensures |ys| <= |xs| && Sum(ys) <= Sum(xs[..|ys|])
    decreases |xs|
  {
    ChoiceSize(ys, xs);
    if ys != [] {
      var i := ChoiceStep(ys, xs);
      var rest := Removed(ys, i);
      FrontIsLargest(rest, xs[1..]);
      SumRemoved(ys, i);
      SumFront(xs, |ys|);
    } else {
      assert xs[..0] == [];
    }
  }

  /** Of an ascending list no choice sums to less than the front. */
  lemma {:induction false} FrontIsSmallest(ys: seq<real>, xs: seq<real>)
    requires Ascending(xs) && Choice(ys, xs)
    ensures |ys| <= |xs| && Sum(ys) >= Sum(xs[..|ys|])
    decreases |xs|
  {
    ChoiceSize(ys, xs);
    if ys != [] {
      var i := ChoiceStep(ys, xs);
      var rest := Removed(ys, i);
      FrontIsSmallest(rest, xs[1..]);
      SumRemoved(ys, i);
      SumFront(xs, |ys|);
    } else {
      assert xs[..0] == [];
    }
  }

  lemma ChoiceSize(ys: seq<real>, xs: seq<real>)
    requires Choice(ys, xs)
    ensures |ys| <= |xs|
  {
    assert |multiset(ys)| <= |multiset(xs)| by {
      assert multiset(xs) == multiset(ys) + (multiset(xs) - multiset(ys));
    }
  }

  lemma SumFront(xs: seq<real>, n: nat)
    requires 0 < n <= |xs|
    ensures Sum(xs[..n]) == xs[0] + Sum(xs[1..][..n - 1])
  {
    assert xs[..n] == [xs[0]] + xs[1..][..n - 1];
    SumAppend([xs[0]], xs[1..][..n - 1]);
    SumOne(xs[0]);
  }

  // ----- the sort seen through the totals -----

  lemma {:induction false} ScoredAppend(a: seq<Option<real>>, b: seq<Option<real>>)
    ensures Scored(a + b) == Scored(a) + Scored(b)
  {
    if b == [] {
      assert a + b == a;
    } else {
      assert (a + b)[..|a + b| - 1] == a + b[..|b| - 1];
      ScoredAppend(a, b[..|b| - 1]);
    }
  }

  lemma ScoredCons(x: Option<real>, xs: seq<Option<real>>)
    ensures Scored([x] + xs) == (if x.Some? then [x.value] else []) + Scored(xs)
  {
    ScoredAppend([x], xs);
    assert [x][..0] == [];
  }

  function Scores(sums: seq<Sums>): seq<real> {
    Scored(Totals(sums))
  }

  lemma TotalsCons(s: Sums, sums: seq<Sums>)
    ensures Totals([s] + sums) == [s.totalSum] + Totals(sums)
    ensures Scores([s] + sums) == (if s.totalSum.Some? then [s.totalSum.value] else []) + Scores(sums)
  {
    ScoredCons(s.totalSum, Totals(sums));
  }

  /** Sorted by the counting order. */
  predicate InOrder(sums: seq<Sums>, best: bool) {
    forall i, j :: 0 <= i < j < |sums| ==> !Before(sums[j].totalSum, sums[i].totalSum, best)
  }

  lemma {:induction false} InsertMembers(s: Sums, sorted: seq<Sums>, best: bool)
    ensures forall x :: x in Insert(s, sorted, best) ==> x == s || x in sorted
  {
    if sorted != [] && Before(sorted[0].totalSum, s.totalSum, best) {
      InsertMembers(s, sorted[1..], best);
    }
  }

  lemma {:induction false} InsertInOrder(s: Sums, sorted: seq<Sums>, best: bool)
    requires InOrder(sorted, best)
    ensures InOrder(Insert(s, sorted, best), best)
  {
    if sorted != [] && Before(sorted[0].totalSum, s.totalSum, best) {
      var more := Insert(s, sorted[1..], best);
      InsertInOrder(s, sorted[1..], best);
      InsertMembers(s, sorted[1..], best);
      forall j | 0 <= j < |more|
        ensures !Before(more[j].totalSum, sorted[0].totalSum, best)
      {
        assert more[j] in more;
      }
    }
  }

  /** The scores of some groups, however ordered. */
  function ScoreBag(sums: seq<Sums>): multiset<real> {
    multiset(Scores(sums))
  }

  function Bag(s: Sums): multiset<real> {
    if s.totalSum.Some? then multiset{s.totalSum.value} else multiset{}
  }

  lemma BagCons(s: Sums, sums: seq<Sums>)
    ensures ScoreBag([s] + sums) == Bag(s) + ScoreBag(sums)
  {
    TotalsCons(s, sums);
  }

  lemma {:induction false} InsertScores(s: Sums, sorted: seq<Sums>, best: bool)
    ensures ScoreBag(Insert(s, sorted, best)) == ScoreBag([s] + sorted)
  {
    if sorted != [] && Before(sorted[0].totalSum, s.totalSum, best) {
      var tail := sorted[1..];
      InsertScores(s, tail, best);
      BagCons(sorted[0], Insert(s, tail, best));
      BagCons(s, tail);
      BagCons(sorted[0], tail);
      BagCons(s, sorted);
      assert sorted == [sorted[0]] + tail;
      SwapBags(Bag(s), Bag(sorted[0]), ScoreBag(tail));
    }
  }

  lemma SwapBags(a: multiset<real>, b: multiset<real>, c: multiset<real>)
    ensures a + (b + c) == b + (a + c)
  {
  }

  /** Sorting orders the groups and neither loses nor changes a score. */
  lemma {:induction false} SortedIsPermutation(sums: seq<Sums>, best: bool)
    ensures InOrder(Sorted(sums, best), best)
    ensures ScoreBag(Sorted(sums, best)) == ScoreBag(sums)
    ensures |Sorted(sums, best)| == |sums|
  {
    SortedSize(sums, best);
    if sums != [] {
      SortedIsPermutation(sums[1..], best);
      InsertInOrder(sums[0], Sorted(sums[1..], best), best);
      InsertScores(sums[0], Sorted(sums[1..], best), best);
      BagCons(sums[0], Sorted(sums[1..], best));
      BagCons(sums[0], sums[1..]);
      assert sums == [sums[0]] + sums[1..];
    }
  }

  /** The groups of one total, in order. */
  function WithTotal(sums: seq<Sums>, total: Option<real>): seq<Sums> {
    if sums == [] then []
    else (if sums[0].totalSum == total then [sums[0]] else []) + WithTotal(sums[1..], total)
  }

  lemma {:induction false} InsertWithTotal(s: Sums, sorted: seq<Sums>, best: bool, total: Option<real>)
    ensures WithTotal(Insert(s, sorted, best), total) ==
            (if s.totalSum == total then [s] else []) + WithTotal(sorted, total)
  {
    if sorted != [] && Before(sorted[0].totalSum, s.totalSum, best) {
      InsertWithTotal(s, sorted[1..], best, total);
    }
  }

  /** Sorting is stable and keeps every group whole: groups of equal totals stay in their order. */
  lemma {:induction false} SortIsStable(sums: seq<Sums>, best: bool, total: Option<real>)
    ensures WithTotal(Sorted(sums, best), total) == WithTotal(sums, total)
  {
    if sums != [] {
      SortIsStable(sums[1..], best, total);
      InsertWithTotal(sums[0], Sorted(sums[1..], best), best, total);
    }
  }

  // ----- the total of one group -----

  function Distance(x: real, y: real): real {
    if x < y then y - x else x - y
  }

  /** The rounded points that a group counts, task and review points together. */
  function RawPoints(gr: GroupRule, tasks: seq<TaskEntry>): Option<real> {
    AddOptions(if gr.countsTask then SumAndRound(TaskPoints(tasks)) else None,
               if gr.countsVelp then SumAndRound(VelpPoints(tasks)) else None)
  }

  /** A group's total is the allowed number nearest to its points, and missing exactly when they are. */
  lemma GroupTotalIsNearest(gr: GroupRule, tasks: seq<TaskEntry>, y: real)
    ensures GroupSums(gr, tasks).totalSum.Some? <==> RawPoints(gr, tasks).Some?
    ensures RawPoints(gr, tasks).Some? && gr.minPoints <= y <= gr.maxPoints ==>
              var raw, total := RawPoints(gr, tasks).value, GroupSums(gr, tasks).totalSum.value;
              gr.minPoints <= total <= gr.maxPoints && Distance(raw, total) <= Distance(raw, y)
  {
  }

  // ----- which scores are counted -----

  lemma {:induction false} ScoredSize(xs: seq<Option<real>>)
    ensures |Scored(xs)| <= |xs|
  {
    if xs != [] {
      ScoredSize(xs[..|xs| - 1]);
    }
  }

  lemma {:induction false} AllScored(xs: seq<Option<real>>)
    requires forall i :: 0 <= i < |xs| ==> xs[i].Some?
    ensures |Scored(xs)| == |xs| && forall i :: 0 <= i < |xs| ==> Scored(xs)[i] == xs[i].value
  {
    if xs != [] {
      AllScored(xs[..|xs| - 1]);
    }
  }

  lemma {:induction false} NoneScored(xs: seq<Option<real>>)
    requires forall i :: 0 <= i < |xs| ==> xs[i].None?
    ensures Scored(xs) == []
  {
    if xs != [] {
      NoneScored(xs[..|xs| - 1]);
    }
  }

  /** How many of the counted slots hold scores: the best come first, the worst after the scoreless groups. */
  function ScoredSlots(sums: seq<Sums>, best: bool, amount: int): nat {
    ScoredSize(Totals(sums));
    var slots := Kept(|sums|, amount);
    var scored := |Scores(sums)|;
    var scoreless := |sums| - scored;
    if best then if slots < scored then slots else scored
    else if slots < scoreless then 0 else slots - scoreless
  }

  /** In the best order the scored groups come first, in the worst order last. */
  lemma {:induction false} ScoresTogether(sums: seq<Sums>, best: bool) returns (n: nat)
    requires InOrder(sums, best)
    ensures n <= |sums|
    ensures forall i :: 0 <= i < |sums| ==> (sums[i].totalSum.Some? <==> (if best then i < n else i >= n))
  {
    n := 0;
    while n < |sums| && sums[n].totalSum.Some? == best
      invariant n <= |sums| && forall i :: 0 <= i < n ==> sums[i].totalSum.Some? == best
    {
      n := n + 1;
    }
  }

  lemma TotalsAppend(a: seq<Sums>, b: seq<Sums>)
    ensures Totals(a + b) == Totals(a) + Totals(b)
    ensures Scores(a + b) == Scores(a) + Scores(b)
  {
    assert Totals(a + b) == Totals(a) + Totals(b);
    ScoredAppend(Totals(a), Totals(b));
  }

  lemma ScoresOfAll(sums: seq<Sums>)
    requires forall i :: 0 <= i < |sums| ==> sums[i].totalSum.Some?
    ensures |Scores(sums)| == |sums| && forall i :: 0 <= i < |sums| ==> Scores(sums)[i] == sums[i].totalSum.value
  {
    AllScored(Totals(sums));
  }

  lemma ScoresOfNone(sums: seq<Sums>)
    requires forall i :: 0 <= i < |sums| ==> sums[i].totalSum.None?
    ensures Scores(sums) == []
  {
    NoneScored(Totals(sums));
  }

  lemma ScoresCut(sums: seq<Sums>, n: nat)
    requires n <= |sums|
    ensures Scores(sums) == Scores(sums[..n]) + Scores(sums[n..])
  {
    assert sums[..n] + sums[n..] == sums;
    TotalsAppend(sums[..n], sums[n..]);
  }

  lemma ScoresInFront(sums: seq<Sums>, n: nat)
    requires n <= |sums| && forall i :: 0 <= i < |sums| ==> (sums[i].totalSum.Some? <==> i < n)
    ensures |Scores(sums)| == n && forall i :: 0 <= i < n ==> Scores(sums)[i] == sums[i].totalSum.value
  {
    ScoresCut(sums, n);
    ScoresOfNone(sums[n..]);
    ScoresOfAll(sums[..n]);
    assert Scores(sums) == Scores(sums[..n]);
  }

  lemma ScoresBehindOnly(sums: seq<Sums>, n: nat)
    requires n <= |sums| && forall i :: 0 <= i < n ==> sums[i].totalSum.None?
    ensures Scores(sums) == Scores(sums[n..])
  {
    ScoresCut(sums, n);
    ScoresOfNone(sums[..n]);
    assert [] + Scores(sums[n..]) == Scores(sums[n..]);
  }

  lemma ScoresBehind(sums: seq<Sums>, n: nat)
    requires n <= |sums| && forall i :: 0 <= i < |sums| ==> (sums[i].totalSum.Some? <==> i >= n)
    ensures |Scores(sums)| == |sums| - n
    ensures forall i :: 0 <= i < |sums| - n ==> Scores(sums)[i] == sums[n + i].totalSum.value
  {
    var back := sums[n..];
    ScoresBehindOnly(sums, n);
    ScoresOfAll(back);
    forall i | 0 <= i < |sums| - n
      ensures Scores(sums)[i] == sums[n + i].totalSum.value
    {
      assert back[i] == sums[n + i];
    }
  }

  /** The scores are those of the scored part. */
  lemma ScoresOfPart(sums: seq<Sums>, best: bool, n: nat)
    requires n <= |sums|
    requires forall i :: 0 <= i < |sums| ==> (sums[i].totalSum.Some? <==> (if best then i < n else i >= n))
    ensures var from := if best then 0 else n;
            |Scores(sums)| == (if best then n else |sums| - n) &&
            forall i :: 0 <= i < |Scores(sums)| ==> Scores(sums)[i] == sums[from + i].totalSum.value
  {
    if best {
      ScoresInFront(sums, n);
    } else {
      ScoresBehind(sums, n);
    }
  }

  lemma {:induction false} ScoresSorted(sums: seq<Sums>, best: bool)
    requires InOrder(sums, best)
    ensures best ==> Descending(Scores(sums))
    ensures !best ==> Ascending(Scores(sums))
  {
    var n := ScoresTogether(sums, best);
    ScoresOfPart(sums, best, n);
  }

  /** The counted slots hold the front of the ordered scores. */
  lemma {:induction false} CountedScores(sums: seq<Sums>, best: bool, amount: int)
    requires InOrder(sums, best)
    ensures var k := Kept(|sums|, amount);
            var m := ScoredSlots(sums, best, amount);
            m <= |Scores(sums)| && Scores(sums[..k]) == Scores(sums)[..m]
  {
    var n := ScoresTogether(sums, best);
    ScoresOfPart(sums, best, n);
    var k := Kept(|sums|, amount);
    var n' := if n < k then n else k;
    ScoresOfPart(sums[..k], best, n');
  }

  /** The sum a rule counts before the final rounding. */
  function RawTotal(sums: seq<Sums>, best: bool, amount: int): real {
    Sum(Scores(Counted(sums, best, amount)))
  }

  /**
   Counting is optimal. A "best" rule counts the largest, a "worst" rule the smallest sum that any
   choice of equally many scored groups has, and some choice has it; the scoreless groups fill the
   slots of a "worst" rule first. The order of the groups does not matter.
   */
  lemma {:induction false} CountingIsOptimal(sums: seq<Sums>, best: bool, amount: int, ys: seq<real>)
    requires Choice(ys, Scores(sums)) && |ys| == ScoredSlots(sums, best, amount)
    ensures if best then Sum(ys) <= RawTotal(sums, best, amount) else Sum(ys) >= RawTotal(sums, best, amount)
  {
    var sorted := Sorted(sums, best);
    SortedIsPermutation(sums, best);
    SameSlots(sums, best, amount);
    CountedScores(sorted, best, amount);
    ScoresSorted(sorted, best);
    if best {
      FrontIsLargest(ys, Scores(sorted));
    } else {
      FrontIsSmallest(ys, Scores(sorted));
    }
  }

  lemma {:induction false} CountingIsAChoice(sums: seq<Sums>, best: bool, amount: int) returns (ys: seq<real>)
    ensures Choice(ys, Scores(sums)) && |ys| == ScoredSlots(sums, best, amount)
    ensures Sum(ys) == RawTotal(sums, best, amount)
  {
    var sorted := Sorted(sums, best);
    SortedIsPermutation(sums, best);
    SameSlots(sums, best, amount);
    CountedScores(sorted, best, amount);
    var m := ScoredSlots(sums, best, amount);
    ys := Scores(sorted)[..m];
    assert Scores(sorted) == ys + Scores(sorted)[m..];
  }

  lemma SameSlots(sums: seq<Sums>, best: bool, amount: int)
    ensures ScoredSlots(Sorted(sums, best), best, amount) == ScoredSlots(sums, best, amount)
  {
    SortedIsPermutation(sums, best);
    assert |ScoreBag(sums)| == |Scores(sums)| && |ScoreBag(Sorted(sums, best))| == |Scores(Sorted(sums, best))|;
  }

  /** A user's total is the rounded count, or nothing when no counted group has a score. */
  lemma {:induction false} TotalIsRounded(rule: Rule, sums: seq<Sums>)
    requires sums != [] && !rule.total
    ensures UserSums(rule, sums).totalSum ==
            if ScoredSlots(sums, rule.best, rule.countAmount) == 0 then None
            else Some(Round2(RawTotal(sums, rule.best, rule.countAmount)))
  {
    SortedIsPermutation(sums, rule.best);
    SameSlots(sums, rule.best, rule.countAmount);
    CountedScores(Sorted(sums, rule.best), rule.best, rule.countAmount);
  }
}
