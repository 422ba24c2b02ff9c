/** Which groups a point rule counts for a user, by their places in the list of the user's groups. */
module CountedGroups {
  import opened Text
  import opened Rounding
  import opened PointRules
  import opened PointLaws

  /** The places 0 to `n - 1` in some order. */
  predicate Arrangement(order: seq<nat>, n: nat) {
    && |order| == n && (forall i :: 0 <= i < n ==> order[i] < n)
    && forall i, j :: 0 <= i < j < n ==> order[i] != order[j]
  }

  /** `x` may come first: the larger one for "best", scoreless last; the smaller one otherwise, scoreless first. */
  predicate MayPrecede(x: Option<real>, y: Option<real>, best: bool) {
    if best then y.None? || (x.Some? && x.value >= y.value)
    else x.None? || (y.Some? && x.value <= y.value)
  }

  /** Groups of equal totals stay in their order. */
  predicate Stable(order: seq<nat>, sums: seq<Sums>)
    requires forall i :: 0 <= i < |order| ==> order[i] < |sums|
  {
    forall i, j :: 0 <= i < j < |order| && sums[order[i]].totalSum == sums[order[j]].totalSum ==> order[i] < order[j]
  }

  /** The groups in counting order; those of equal totals stay in the order in which they appeared. */
  predicate CountingOrder(order: seq<nat>, sums: seq<Sums>, best: bool) {
    && Arrangement(order, |sums|) && Stable(order, sums)
    && forall i, j :: 0 <= i < j < |order| ==>
         MayPrecede(sums[order[i]].totalSum, sums[order[j]].totalSum, best)
  }

  /** The groups at these places. */
  function AtPlaces(sums: seq<Sums>, order: seq<nat>): (r: seq<Sums>)
    requires forall i :: 0 <= i < |order| ==> order[i] < |sums|
    ensures |r| == |order| && forall i :: 0 <= i < |r| ==> r[i] == sums[order[i]]
  {
    seq(|order|, i requires 0 <= i < |order| => sums[order[i]])
  }

  function Later(order: seq<nat>): (r: seq<nat>)
    ensures |r| == |order| && forall i :: 0 <= i < |r| ==> r[i] == order[i] + 1
  {
    seq(|order|, i requires 0 <= i < |order| => order[i] + 1)
  }

  lemma {:induction false} InsertPlace(s: Sums, sorted: seq<Sums>, best: bool) returns (p: nat)
    ensures p <= |sorted| && Insert(s, sorted, best) == sorted[..p] + [s] + sorted[p..]
    ensures forall i :: 0 <= i < p ==> Before(sorted[i].totalSum, s.totalSum, best)
    ensures p < |sorted| ==> !Before(sorted[p].totalSum, s.totalSum, best)
  {
    if sorted == [] || !Before(sorted[0].totalSum, s.totalSum, best) {
      p := 0;
    } else {
      var q := InsertPlace(s, sorted[1..], best);
      p := q + 1;
      assert sorted[..p] == [sorted[0]] + sorted[1..][..q] && sorted[p..] == sorted[1..][q..];
    }
  }

  /** The first group put at place `p` of the order of the others. */
  function Inserted(more: seq<nat>, p: nat): seq<nat>
    requires p <= |more|
  {
    Later(more)[..p] + [0] + Later(more)[p..]
  }

  lemma InsertedAt(more: seq<nat>, p: nat, i: nat)
    requires p <= |more| && i <= |more|
    ensures |Inserted(more, p)| == |more| + 1
    ensures Inserted(more, p)[i] == if i < p then more[i] + 1 else if i == p then 0 else more[i - 1] + 1
  {
  }

  lemma InsertedArranged(more: seq<nat>, p: nat)
    requires Arrangement(more, |more|) && p <= |more|
    ensures Arrangement(Inserted(more, p), |more| + 1)
  {
    var order := Inserted(more, p);
    forall i | 0 <= i < |order|
      ensures order[i] == if i < p then more[i] + 1 else if i == p then 0 else more[i - 1] + 1
    {
      InsertedAt(more, p, i);
    }
  }

  lemma InsertedPlaces(sums: seq<Sums>, more: seq<nat>, p: nat)
    requires sums != [] && Arrangement(more, |sums| - 1) && p <= |more|
    requires Arrangement(Inserted(more, p), |sums|)
    ensures var sorted := AtPlaces(sums[1..], more);
            AtPlaces(sums, Inserted(more, p)) == sorted[..p] + [sums[0]] + sorted[p..]
  {
  }

  lemma InsertedStable(sums: seq<Sums>, more: seq<nat>, p: nat)
    requires sums != [] && Arrangement(more, |sums| - 1) && p <= |more| && Stable(more, sums[1..])
    requires Arrangement(Inserted(more, p), |sums|)
    requires forall i :: 0 <= i < p ==> sums[1..][more[i]].totalSum != sums[0].totalSum
    ensures Stable(Inserted(more, p), sums)
  {
    var order := Inserted(more, p);
    forall i, j | 0 <= i < j < |order| && sums[order[i]].totalSum == sums[order[j]].totalSum
      ensures order[i] < order[j]
    {
      InsertedAt(more, p, i);
      InsertedAt(more, p, j);
    }
  }

  lemma {:induction false} SortedOrder(sums: seq<Sums>, best: bool) returns (order: seq<nat>)
    ensures Arrangement(order, |sums|) && Sorted(sums, best) == AtPlaces(sums, order) && Stable(order, sums)
  {
    if sums == [] {
      order := [];
    } else {
      var more := SortedOrder(sums[1..], best);
      var p := InsertPlace(sums[0], Sorted(sums[1..], best), best);
      order := Inserted(more, p);
      InsertedArranged(more, p);
      InsertedPlaces(sums, more, p);
      InsertedStable(sums, more, p);
    }
  }

  // ----- sums -----

  function Gathered(xs: seq<Option<real>>): real {
    if xs == [] then 0.0 else (if xs[0].Some? then xs[0].value else 0.0) + Gathered(xs[1..])
  }

  /** The rounded sum of the values that are there, and nothing if none is. */
  predicate IsSum(r: Option<real>, xs: seq<Option<real>>) {
    && (r.None? <==> forall i :: 0 <= i < |xs| ==> xs[i].None?)
    && (r.Some? ==> r.value == Round2(Gathered(xs)))
  }

  lemma {:induction false} GatheredScores(xs: seq<Option<real>>)
    ensures Sum(Scored(xs)) == Gathered(xs)
    ensures Scored(xs) == [] <==> forall i :: 0 <= i < |xs| ==> xs[i].None?
  {
    if xs != [] {
      var first := if xs[0].Some? then [xs[0].value] else [];
      assert [xs[0]] + xs[1..] == xs;
      ScoredCons(xs[0], xs[1..]);
      SumAppend(first, Scored(xs[1..]));
      if xs[0].Some? { SumOne(xs[0].value); }
      GatheredScores(xs[1..]);
    }
  }

  lemma SumAndRoundIs(xs: seq<Option<real>>)
    ensures IsSum(SumAndRound(xs), xs)
  {
    GatheredScores(xs);
  }

  /** How many of `n` elements a Python slice up to `amount` has. */
  predicate SliceLength(k: nat, n: nat, amount: int) {
    && k <= n && (amount >= 0 ==> k <= amount && (k < n ==> k == amount))
    && (amount < 0 ==> if n + amount < 0 then k == 0 else k == n + amount)
  }

  /** The points of a user from these groups. */
  predicate PointsFrom(r: Sums, counted: seq<Sums>, total: bool) {
    if total then
      && |counted| == 1 && r.taskSum == Round2Option(counted[0].taskSum)
      && r.velpSum == Round2Option(counted[0].velpSum) && r.totalSum == Round2Option(counted[0].totalSum)
    else
      && IsSum(r.taskSum, TaskSums(counted)) && IsSum(r.velpSum, VelpSums(counted))
      && IsSum(r.totalSum, Totals(counted))
  }

  lemma InCountingOrder(sums: seq<Sums>, order: seq<nat>, best: bool)
    requires Arrangement(order, |sums|) && InOrder(AtPlaces(sums, order), best) && Stable(order, sums)
    ensures CountingOrder(order, sums, best)
  {
    var sorted := AtPlaces(sums, order);
    forall i, j | 0 <= i < j < |order|
      ensures MayPrecede(sums[order[i]].totalSum, sums[order[j]].totalSum, best)
    {
      assert !Before(sorted[j].totalSum, sorted[i].totalSum, best);
    }
  }

  lemma FrontPlaces(sums: seq<Sums>, order: seq<nat>, k: nat)
    requires k <= |order| && forall i :: 0 <= i < |order| ==> order[i] < |sums|
    ensures AtPlaces(sums, order)[..k] == AtPlaces(sums, order[..k])
  {
  }

  lemma PointsOfFirst(rule: Rule, sums: seq<Sums>, counted: seq<Sums>)
    requires sums != [] && rule.total && |counted| == 1 && |Sorted(sums, rule.best)| == |sums|
    requires counted[0] == Sorted(sums, rule.best)[0]
    ensures PointsFrom(UserSums(rule, sums), counted, true)
  {
  }

  lemma PointsOfCounted(rule: Rule, sums: seq<Sums>, counted: seq<Sums>)
    requires sums != [] && !rule.total && counted == Counted(sums, rule.best, rule.countAmount)
    ensures PointsFrom(UserSums(rule, sums), counted, false)
  {
    SumAndRoundIs(TaskSums(counted));
    SumAndRoundIs(VelpSums(counted));
    SumAndRoundIs(Totals(counted));
  }

  /**
   The points of a user come from the groups that are first in counting order: for a rule on the total from the
   first one alone, otherwise from as many as the rule counts, whose task, review and total points are summed.
   */
  lemma {:induction false} UserSumsMean(rule: Rule, sums: seq<Sums>) returns (order: seq<nat>, k: nat)
    requires sums != []
    ensures CountingOrder(order, sums, rule.best) && k <= |order|
    ensures if rule.total then k == 1 else SliceLength(k, |sums|, rule.countAmount)
    ensures PointsFrom(UserSums(rule, sums), AtPlaces(sums, order[..k]), rule.total)
  {
    order := SortedOrder(sums, rule.best);
    SortedIsPermutation(sums, rule.best);
    InCountingOrder(sums, order, rule.best);
    k := if rule.total then 1 else Kept(|sums|, rule.countAmount);
    FrontPlaces(sums, order, k);
    if rule.total {
      PointsOfFirst(rule, sums, AtPlaces(sums, order[..k]));
    } else {
      PointsOfCounted(rule, sums, AtPlaces(sums, order[..k]));
    }
  }

  /** The points of one group: sums of what it counts, and the allowed number nearest to their sum. */
  lemma {:induction false} GroupSumsMean(gr: GroupRule, tasks: seq<TaskEntry>)
    ensures var r := GroupSums(gr, tasks);
            && (if gr.countsTask then IsSum(r.taskSum, TaskPoints(tasks)) else r.taskSum == None)
            && (if gr.countsVelp then IsSum(r.velpSum, VelpPoints(tasks)) else r.velpSum == None)
            && (r.totalSum.None? <==> r.taskSum.None? && r.velpSum.None?)
            && (r.totalSum.Some? && gr.minPoints <= gr.maxPoints ==>
                  gr.minPoints <= r.totalSum.value <= gr.maxPoints &&
                  var raw := Gathered([r.taskSum, r.velpSum]);
                  (gr.minPoints <= raw <= gr.maxPoints ==> r.totalSum.value == raw) &&
                  (raw < gr.minPoints ==> r.totalSum.value == gr.minPoints) &&
                  (raw > gr.maxPoints ==> r.totalSum.value == gr.maxPoints))
  {
    var r := GroupSums(gr, tasks);
    SumAndRoundIs(TaskPoints(tasks));
    SumAndRoundIs(VelpPoints(tasks));
    assert [r.taskSum, r.velpSum][1..] == [r.velpSum];
    assert [r.velpSum][1..] == [];
    assert Gathered([r.velpSum]) == if r.velpSum.Some? then r.velpSum.value else 0.0;
  }

  // ----- the settings of the groups -----

  predicate Alone(rule: Rule, e: TaskEntry, name: string) {
    rule.includeGroupless && rule.findGroups(e.taskId) == [] && rule.taskName(e.taskId) == name
  }

  /** Some task without groups is counted under this name, which is its own. */
  predicate CountedAlone(rule: Rule, entries: seq<TaskEntry>, name: string) {
    exists i :: 0 <= i < |entries| && Alone(rule, entries[i], name)
  }

  lemma AloneStep(rule: Rule, entries: seq<TaskEntry>, name: string)
    requires entries != []
    ensures CountedAlone(rule, entries, name) <==>
            CountedAlone(rule, entries[..|entries| - 1], name) || Alone(rule, entries[|entries| - 1], name)
  {
    var init := entries[..|entries| - 1];
    if CountedAlone(rule, init, name) {
      var i :| 0 <= i < |init| && Alone(rule, init[i], name);
      assert Alone(rule, entries[i], name);
    }
    if CountedAlone(rule, entries, name) {
      var i :| 0 <= i < |entries| && Alone(rule, entries[i], name);
      assert i < |init| ==> Alone(rule, init[i], name);
    }
  }

  /** Tasks counted under their own name count fully, and the configured groups as they are configured. */
  lemma {:induction false} GroupSettings(rule: Rule, entries: seq<TaskEntry>, name: string)
    ensures var settings := RuleGroups(rule, entries);
            && (name in settings <==> name in rule.groups || CountedAlone(rule, entries, name))
            && (CountedAlone(rule, entries, name) ==> settings[name] == GroupRule(true, true, 0.0, 1.0e100))
            && (!CountedAlone(rule, entries, name) && name in rule.groups ==> settings[name] == rule.groups[name])
  {
    if entries != [] {
      GroupSettings(rule, entries[..|entries| - 1], name);
      AloneStep(rule, entries, name);
    }
  }
}
