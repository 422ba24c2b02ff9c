/** From the tally to the point rule: raising the points of a tallied answer never lowers a total. */
module TallyMonotonicity {
  import Text
  import opened Rounding
  import AnswerTally
  import opened Grouping
  import PointRules
  import opened PointMonotonicity

  /** The entry of a task as the point rule reads it. */
  function ForRule(e: Entry): PointRules.TaskEntry {
    PointRules.TaskEntry(e.user, e.taskId, e.tally.task, e.tally.velp)
  }

  function AllForRule(entries: seq<Entry>): (r: seq<PointRules.TaskEntry>)
    ensures |r| == |entries| && forall i :: 0 <= i < |r| ==> r[i] == ForRule(entries[i])
  {
    seq(|entries|, i requires 0 <= i < |entries| => ForRule(entries[i]))
  }

  /** What the rule reads of a tally: the entries by task of all users. */
  function TallyForRule(users: seq<int>, items: map<int, seq<Item>>): seq<PointRules.TaskEntry> {
    AllForRule(ForUsers(ByTask, users, items))
  }

  predicate InfoRaised(i: AnswerTally.Info, j: AnswerTally.Info) {
    Raised(i.points, j.points) && Raised(i.velpPoints, j.velpPoints)
  }

  predicate ItemsRaised(x: seq<Item>, y: seq<Item>) {
    |x| == |y| && forall i :: 0 <= i < |x| ==> x[i].task == y[i].task && InfoRaised(x[i].info, y[i].info)
  }

  predicate TallyRaised(x: map<int, seq<Item>>, y: map<int, seq<Item>>) {
    x.Keys == y.Keys && forall u :: u in x ==> ItemsRaised(x[u], y[u])
  }

  lemma Round4Raised(x: Text.Option<real>, y: Text.Option<real>)
    requires Raised(x, y)
    ensures Raised(Round4Option(x), Round4Option(y))
  {
    if x.Some? {
      Round4Monotone(x.value, y.value);
    }
  }

  lemma TaskEntriesRaised(user: int, x: seq<Item>, y: seq<Item>)
    requires ItemsRaised(x, y)
    ensures EntriesRaised(AllForRule(TaskEntries(user, x)), AllForRule(TaskEntries(user, y)))
  {
    forall i | 0 <= i < |x|
      ensures EntryRaised(AllForRule(TaskEntries(user, x))[i], AllForRule(TaskEntries(user, y))[i])
    {
      Round4Raised(x[i].info.points, y[i].info.points);
      Round4Raised(x[i].info.velpPoints, y[i].info.velpPoints);
    }
  }

  lemma AllForRuleAppend(a: seq<Entry>, b: seq<Entry>)
    ensures AllForRule(a + b) == AllForRule(a) + AllForRule(b)
  {
  }

  lemma RaisedAppend(a: seq<PointRules.TaskEntry>, b: seq<PointRules.TaskEntry>, c: seq<PointRules.TaskEntry>,
                     d: seq<PointRules.TaskEntry>)
    requires EntriesRaised(a, c) && EntriesRaised(b, d)
    ensures EntriesRaised(a + b, c + d)
  {
  }

  lemma {:induction false} TallyEntriesRaised(users: seq<int>, x: map<int, seq<Item>>, y: map<int, seq<Item>>)
    requires TallyRaised(x, y)
    ensures EntriesRaised(TallyForRule(users, x), TallyForRule(users, y))
  {
    if users != [] {
      var init, user := users[..|users| - 1], users[|users| - 1];
      var ex, ey := if user in x then x[user] else [], if user in y then y[user] else [];
      TallyEntriesRaised(init, x, y);
      TaskEntriesRaised(user, ex, ey);
      AllForRuleAppend(ForUsers(ByTask, init, x), TaskEntries(user, ex));
      AllForRuleAppend(ForUsers(ByTask, init, y), TaskEntries(user, ey));
      RaisedAppend(TallyForRule(init, x), AllForRule(TaskEntries(user, ex)),
                   TallyForRule(init, y), AllForRule(TaskEntries(user, ey)));
    }
  }

  /**
   Points are monotone from the tally on: raising the points of selected answers or of their reviews never
   lowers the user's total, through both roundings, the groups, their limits, sorting and counting.
   */
  lemma {:induction false} TotalsAreMonotone(rule: PointRules.Rule, users: seq<int>, x: map<int, seq<Item>>,
                                             y: map<int, seq<Item>>, user: int)
    requires PointRules.Consistent(rule) && TallyRaised(x, y)
    requires PointRules.Appears(rule, TallyForRule(users, x), user)
    ensures PointRules.Appears(rule, TallyForRule(users, y), user)
    ensures Raised(PointRules.UserPoints(rule, TallyForRule(users, x), user).totalSum,
                   PointRules.UserPoints(rule, TallyForRule(users, y), user).totalSum)
  {
    TallyEntriesRaised(users, x, y);
    PointsAreMonotone(rule, TallyForRule(users, x), TallyForRule(users, y), user);
  }
}
