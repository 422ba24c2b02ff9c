/** Raising points never lowers a group total or a user's total. */
module PointMonotonicity {
  import opened Text
  import opened Rounding
  import opened PointRules
  import opened PointLaws

  /** Both missing, or both there and not lowered. */
  predicate Raised(x: Option<real>, y: Option<real>) {
    if x.Some? then y.Some? && x.value <= y.value else y.None?
  }

  predicate AllRaised(xs: seq<Option<real>>, ys: seq<Option<real>>) {
    |xs| == |ys| && forall i :: 0 <= i < |xs| ==> Raised(xs[i], ys[i])
  }

  predicate EntryRaised(e: TaskEntry, f: TaskEntry) {
    e.user == f.user && e.taskId == f.taskId && Raised(e.taskPoints, f.taskPoints) && Raised(e.velpPoints, f.velpPoints)
  }

  predicate EntriesRaised(es: seq<TaskEntry>, fs: seq<TaskEntry>) {
    |es| == |fs| && forall i :: 0 <= i < |es| ==> EntryRaised(es[i], fs[i])
  }

  predicate TotalsRaised(s: seq<Sums>, t: seq<Sums>) {
    |s| == |t| && forall i :: 0 <= i < |s| ==> Raised(s[i].totalSum, t[i].totalSum)
  }

  // ----- sums -----

  lemma {:induction false} SumRaised(xs: seq<Option<real>>, ys: seq<Option<real>>)
    requires AllRaised(xs, ys)
    ensures |Scored(xs)| == |Scored(ys)| && Sum(Scored(xs)) <= Sum(Scored(ys))
  {
    if xs != [] {
      var n := |xs| - 1;
      SumRaised(xs[..n], ys[..n]);
      SumSnoc(Scored(xs[..n]), xs[n]);
      SumSnoc(Scored(ys[..n]), ys[n]);
    }
  }

  lemma SumSnoc(xs: seq<real>, x: Option<real>)
    ensures Sum(xs + (if x.Some? then [x.value] else [])) == Sum(xs) + (if x.Some? then x.value else 0.0)
  {
    if x.Some? {
      assert (xs + [x.value])[..|xs|] == xs;
    } else {
      assert xs + [] == xs;
    }
  }

  lemma {:induction false} SumAndRoundRaised(xs: seq<Option<real>>, ys: seq<Option<real>>)
    requires AllRaised(xs, ys)
    ensures Raised(SumAndRound(xs), SumAndRound(ys))
  {
    SumRaised(xs, ys);
    Round2Monotone(Sum(Scored(xs)), Sum(Scored(ys)));
  }

  lemma {:induction false} GroupRaised(gr: GroupRule, es: seq<TaskEntry>, fs: seq<TaskEntry>)
    requires EntriesRaised(es, fs)
    ensures Raised(GroupSums(gr, es).totalSum, GroupSums(gr, fs).totalSum)
  {
    SumAndRoundRaised(TaskPoints(es), TaskPoints(fs));
    SumAndRoundRaised(VelpPoints(es), VelpPoints(fs));
  }

  // ----- sorting -----

  /** Inserting a raised group into raised groups keeps every place raised. */
  lemma {:induction false} InsertRaised(x: Sums, y: Sums, s: seq<Sums>, t: seq<Sums>, best: bool)
    requires Raised(x.totalSum, y.totalSum) && TotalsRaised(s, t)
    requires InOrder(s, best) && InOrder(t, best)
    ensures TotalsRaised(Insert(x, s, best), Insert(y, t, best))
    decreases |s|
  {
    if s != [] {
      var first := Before(s[0].totalSum, x.totalSum, best);
      var second := Before(t[0].totalSum, y.totalSum, best);
      assert TotalsRaised(s[1..], t[1..]) && InOrder(s[1..], best) && InOrder(t[1..], best);
      if first && second {
        InsertRaised(x, y, s[1..], t[1..], best);
      } else if !first && second {
        InsertRaised(s[0], y, s[1..], t[1..], best);
        InsertFirst(s, best);
      } else if first && !second {
        InsertRaised(x, t[0], s[1..], t[1..], best);
        InsertFirst(t, best);
      }
    }
  }

  /** The first of an ordered list is inserted where it was. */
  lemma InsertFirst(s: seq<Sums>, best: bool)
    requires s != [] && InOrder(s, best)
    ensures Insert(s[0], s[1..], best) == s
  {
    if |s| > 1 {
      assert s[1..][0] == s[1];
    }
  }

  lemma {:induction false} SortedRaised(s: seq<Sums>, t: seq<Sums>, best: bool)
    requires TotalsRaised(s, t)
    ensures TotalsRaised(Sorted(s, best), Sorted(t, best))
    ensures InOrder(Sorted(s, best), best) && InOrder(Sorted(t, best), best)
  {
    SortedIsPermutation(s, best);
    SortedIsPermutation(t, best);
    if s != [] {
      SortedRaised(s[1..], t[1..], best);
      InsertRaised(s[0], t[0], Sorted(s[1..], best), Sorted(t[1..], best), best);
    }
  }

  /** Sorting, counting the best or worst groups, and rounding keep the order of totals. */
  lemma {:induction false} UserRaised(rule: Rule, s: seq<Sums>, t: seq<Sums>)
    requires s != [] && TotalsRaised(s, t)
    ensures Raised(UserSums(rule, s).totalSum, UserSums(rule, t).totalSum)
  {
    SortedRaised(s, t, rule.best);
    SortedSize(s, rule.best);
    if rule.total {
      var x, y := Sorted(s, rule.best)[0].totalSum, Sorted(t, rule.best)[0].totalSum;
      assert Raised(x, y);
      if x.Some? {
        Round2Monotone(x.value, y.value);
      }
    } else {
      SumAndRoundRaised(Totals(Counted(s, rule.best, rule.countAmount)), Totals(Counted(t, rule.best,
        rule.countAmount)));
    }
  }

  // ----- grouping -----

  /** The same groups with raised tasks. */
  predicate GroupsRaised(g: UserGroups, h: UserGroups) {
    g.order == h.order && g.tasks.Keys == h.tasks.Keys &&
      forall k :: k in g.tasks ==> EntriesRaised(g.tasks[k], h.tasks[k])
  }

  lemma {:induction false} WithTasksRaised(g: UserGroups, h: UserGroups, names: seq<string>, e: TaskEntry, f: TaskEntry)
    requires GroupsRaised(g, h) && EntryRaised(e, f)
    ensures GroupsRaised(WithTasks(g, names, e), WithTasks(h, names, f))
  {
    if names != [] {
      WithTasksRaised(g, h, names[..|names| - 1], e, f);
    }
  }

  lemma {:induction false} GroupsOfRaised(rule: Rule, es: seq<TaskEntry>, fs: seq<TaskEntry>, user: int)
    requires EntriesRaised(es, fs)
    ensures GroupsRaised(GroupsOf(rule, es, user), GroupsOf(rule, fs, user))
    ensures RuleGroups(rule, es) == RuleGroups(rule, fs)
  {
    if es != [] {
      var n := |es| - 1;
      GroupsOfRaised(rule, es[..n], fs[..n], user);
      WithTasksRaised(GroupsOf(rule, es[..n], user), GroupsOf(rule, fs[..n], user),
                      GroupNames(rule, es[n].taskId), es[n], fs[n]);
    }
  }

  /**
   Points are monotone end to end: raising existing points of any tasks lowers neither the total of any
   group nor the user's total, through group sums, rounding, clamping, sorting and counting.
   */
  lemma {:induction false} PointsAreMonotone(rule: Rule, es: seq<TaskEntry>, fs: seq<TaskEntry>, user: int)
    requires Consistent(rule) && EntriesRaised(es, fs) && Appears(rule, es, user)
    ensures Appears(rule, fs, user)
    ensures Raised(UserPoints(rule, es, user).totalSum, UserPoints(rule, fs, user).totalSum)
    ensures var g, h := GroupsOf(rule, es, user), GroupsOf(rule, fs, user);
            var rg := RuleGroups(rule, es);
            g.order == h.order && Complete(g, rg) && Complete(h, rg) && TotalsRaised(AllSums(g, rg), AllSums(h, rg))
  {
    GroupsOfRaised(rule, es, fs, user);
    GroupsComplete(rule, es, user);
    GroupsComplete(rule, fs, user);
    var g, h := GroupsOf(rule, es, user), GroupsOf(rule, fs, user);
    var rg := RuleGroups(rule, es);
    forall i | 0 <= i < |g.order|
      ensures Raised(AllSums(g, rg)[i].totalSum, AllSums(h, rg)[i].totalSum)
    {
      GroupRaised(rg[g.order[i]], g.tasks[g.order[i]], h.tasks[g.order[i]]);
    }
    UserRaised(rule, AllSums(g, rg), AllSums(h, rg));
  }

  // ----- what the groups hold -----

  /** The tasks of a user whose group names include `name`, in order and once for every mention. */
  function TasksIn(rule: Rule, entries: seq<TaskEntry>, user: int, name: string): seq<TaskEntry> {
    if entries == [] then []
    else
      var last := entries[|entries| - 1];
      TasksIn(rule, entries[..|entries| - 1], user, name) +
      (if last.user == user then Mentions(GroupNames(rule, last.taskId), name, last) else [])
  }

  function Mentions(names: seq<string>, name: string, e: TaskEntry): seq<TaskEntry> {
    if names == [] then []
    else Mentions(names[..|names| - 1], name, e) + (if names[|names| - 1] == name then [e] else [])
  }

  function Held(g: UserGroups, name: string): seq<TaskEntry> {
    if name in g.tasks then g.tasks[name] else []
  }

  lemma {:induction false} WithTasksHolds(g: UserGroups, names: seq<string>, e: TaskEntry, name: string)
    ensures Held(WithTasks(g, names, e), name) == Held(g, name) + Mentions(names, name, e)
  {
    if names == [] {
      assert Held(g, name) + [] == Held(g, name);
    } else {
      var n := |names| - 1;
      WithTasksHolds(g, names[..n], e, name);
      Assoc(Held(g, name), Mentions(names[..n], name, e), if names[n] == name then [e] else []);
    }
  }

  /** The first pass puts every task into exactly the groups the rule names for it. */
  lemma {:induction false} GroupsHoldTasks(rule: Rule, entries: seq<TaskEntry>, user: int, name: string)
    ensures Held(GroupsOf(rule, entries, user), name) == TasksIn(rule, entries, user, name)
  {
    if entries != [] {
      var before, last := entries[..|entries| - 1], entries[|entries| - 1];
      GroupsHoldTasks(rule, before, user, name);
      WithTasksHolds(GroupsOf(rule, before, user), GroupNames(rule, last.taskId), last, name);
    }
  }
}
