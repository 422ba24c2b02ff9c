/** Point rules: summing tasks into groups, clamping, and counting the best or worst groups. */
module PointRules {
  import opened Text
  import opened Rounding

  /** One task of one user as listed for a point rule. */
  datatype TaskEntry = TaskEntry(user: int, taskId: string, taskPoints: Option<real>, velpPoints: Option<real>)

  datatype GroupRule = GroupRule(countsTask: bool, countsVelp: bool, minPoints: real, maxPoints: real)

  /** A point sum rule; `findGroups` stands for matching a task against the groups' patterns. */
  datatype Rule = Rule(
    groups: map<string, GroupRule>, findGroups: string -> seq<string>, taskName: string -> string,
    includeGroupless: bool, best: bool, countAmount: int, total: bool)

  /** A group that is not configured counts everything. */
  const DEFAULT_GROUP := GroupRule(true, true, 0.0, 1.0e100)

  /** Task, review and total points of one group. */
  datatype Sums = Sums(taskSum: Option<real>, velpSum: Option<real>, totalSum: Option<real>)

  /** The groups of one user in the order they appeared, with their tasks. */
  datatype UserGroups = UserGroups(order: seq<string>, tasks: map<string, seq<TaskEntry>>)

  /** The rule only finds its own groups. */
  ghost predicate Consistent(rule: Rule) {
    forall t, i :: 0 <= i < |rule.findGroups(t)| ==> rule.findGroups(t)[i] in rule.groups
  }

  // ----- sums -----

  function Sum(xs: seq<real>): real {
    if xs == [] then 0.0 else Sum(xs[..|xs| - 1]) + xs[|xs| - 1]
  }

  /** The values that are there. */
  function Scored(xs: seq<Option<real>>): seq<real> {
    if xs == [] then []
    else
      var last := xs[|xs| - 1];
      Scored(xs[..|xs| - 1]) + (if last.Some? then [last.value] else [])
  }

  /** `sum_and_round` of the values that are not None. */
  function SumAndRound(xs: seq<Option<real>>): Option<real> {
    if Scored(xs) == [] then None else Some(Round2(Sum(Scored(xs))))
  }

  function Clamp(x: real, lo: real, hi: real): real {
    var y := if x < lo then lo else x;
    if y > hi then hi else y
  }

  function AddOptions(x: Option<real>, y: Option<real>): Option<real> {
    if x.Some? && y.Some? then Some(x.value + y.value)
    else if x.Some? then x
    else y
  }

  function TaskPoints(tasks: seq<TaskEntry>): (r: seq<Option<real>>)
    ensures |r| == |tasks| && forall i :: 0 <= i < |r| ==> r[i] == tasks[i].taskPoints
  {
    seq(|tasks|, i requires 0 <= i < |tasks| => tasks[i].taskPoints)
  }

  function VelpPoints(tasks: seq<TaskEntry>): (r: seq<Option<real>>)
    ensures |r| == |tasks| && forall i :: 0 <= i < |r| ==> r[i] == tasks[i].velpPoints
  {
    seq(|tasks|, i requires 0 <= i < |tasks| => tasks[i].velpPoints)
  }

  function GroupSums(gr: GroupRule, tasks: seq<TaskEntry>): Sums {
    var t := if gr.countsTask then SumAndRound(TaskPoints(tasks)) else None;
    var v := if gr.countsVelp then SumAndRound(VelpPoints(tasks)) else None;
    var total := AddOptions(t, v);
    Sums(t, v, if total.Some? then Some(Clamp(total.value, gr.minPoints, gr.maxPoints)) else None)
  }

  // ----- sorting and counting -----

  /** The order in which groups are counted: best first with scoreless groups last, or worst first after them. */
  predicate Before(x: Option<real>, y: Option<real>, best: bool) {
    if best then x.Some? && (y.None? || x.value > y.value)
    else y.Some? && (x.None? || x.value < y.value)
  }

  function Insert(s: Sums, sorted: seq<Sums>, best: bool): seq<Sums> {
    if sorted == [] || !Before(sorted[0].totalSum, s.totalSum, best) then [s] + sorted
    else [sorted[0]] + Insert(s, sorted[1..], best)
  }

  /** The stable sort by total points. */
  function Sorted(sums: seq<Sums>, best: bool): seq<Sums> {
    if sums == [] then [] else Insert(sums[0], Sorted(sums[1..], best), best)
  }

  /** Python's `xs[0:k]`: how many elements it keeps of `n`. */
  function Kept(n: nat, k: int): (m: nat)
    ensures m <= n
  {
    if k >= n then n else if k >= 0 then k else if n + k >= 0 then n + k else 0
  }

  function Totals(sums: seq<Sums>): (r: seq<Option<real>>)
    ensures |r| == |sums| && forall i :: 0 <= i < |r| ==> r[i] == sums[i].totalSum
  {
    seq(|sums|, i requires 0 <= i < |sums| => sums[i].totalSum)
  }

  function TaskSums(sums: seq<Sums>): (r: seq<Option<real>>)
    ensures |r| == |sums| && forall i :: 0 <= i < |r| ==> r[i] == sums[i].taskSum
  {
    seq(|sums|, i requires 0 <= i < |sums| => sums[i].taskSum)
  }

  function VelpSums(sums: seq<Sums>): (r: seq<Option<real>>)
    ensures |r| == |sums| && forall i :: 0 <= i < |r| ==> r[i] == sums[i].velpSum
  {
    seq(|sums|, i requires 0 <= i < |sums| => sums[i].velpSum)
  }

  /** The groups that count. */
  function Counted(sums: seq<Sums>, best: bool, amount: int): seq<Sums> {
    var sorted := Sorted(sums, best);
    sorted[..Kept(|sorted|, amount)]
  }

  /** The sums of a user: those of the first group, or of all groups that count. */
  function UserSums(rule: Rule, sums: seq<Sums>): Sums
    requires sums != []
  {
    SortedSize(sums, rule.best);
    if rule.total then
      var s := Sorted(sums, rule.best)[0];
      Sums(Round2Option(s.taskSum), Round2Option(s.velpSum), Round2Option(s.totalSum))
    else
      var counted := Counted(sums, rule.best, rule.countAmount);
      Sums(SumAndRound(TaskSums(counted)), SumAndRound(VelpSums(counted)), SumAndRound(Totals(counted)))
  }

  lemma {:induction false} InsertSize(s: Sums, sorted: seq<Sums>, best: bool)
    ensures |Insert(s, sorted, best)| == |sorted| + 1
  {
    if sorted != [] && Before(sorted[0].totalSum, s.totalSum, best) {
      InsertSize(s, sorted[1..], best);
    }
  }

  lemma {:induction false} SortedSize(sums: seq<Sums>, best: bool)
    ensures |Sorted(sums, best)| == |sums|
  {
    if sums != [] {
      SortedSize(sums[1..], best);
      InsertSize(sums[0], Sorted(sums[1..], best), best);
    }
  }

  // ----- grouping the tasks -----

  function GroupNames(rule: Rule, taskId: string): seq<string> {
    var found := rule.findGroups(taskId);
    if found == [] && rule.includeGroupless then [rule.taskName(taskId)] else found
  }

  predicate Groupless(rule: Rule, taskId: string) {
    rule.findGroups(taskId) == [] && rule.includeGroupless
  }

  /** The configured groups, and a default group under the name of every groupless task. */
  function RuleGroups(rule: Rule, entries: seq<TaskEntry>): map<string, GroupRule> {
    if entries == [] then rule.groups
    else
      var before := RuleGroups(rule, entries[..|entries| - 1]);
      var last := entries[|entries| - 1];
      if Groupless(rule, last.taskId) then before[rule.taskName(last.taskId) := DEFAULT_GROUP] else before
  }

  function WithTask(g: UserGroups, name: string, e: TaskEntry): UserGroups {
    if name in g.tasks then g.(tasks := g.tasks[name := g.tasks[name] + [e]])
    else UserGroups(g.order + [name], g.tasks[name := [e]])
  }

  function WithTasks(g: UserGroups, names: seq<string>, e: TaskEntry): UserGroups {
    if names == [] then g
    else WithTask(WithTasks(g, names[..|names| - 1], e), names[|names| - 1], e)
  }

  /** The groups of one user after some entries. */
  function GroupsOf(rule: Rule, entries: seq<TaskEntry>, user: int): UserGroups {
    if entries == [] then UserGroups([], map[])
    else
      var before := GroupsOf(rule, entries[..|entries| - 1], user);
      var last := entries[|entries| - 1];
      if last.user == user then WithTasks(before, GroupNames(rule, last.taskId), last) else before
  }

  /** Every group has its tasks and its settings. */
  predicate Complete(g: UserGroups, ruleGroups: map<string, GroupRule>) {
    forall i :: 0 <= i < |g.order| ==> g.order[i] in g.tasks && g.order[i] in ruleGroups
  }

  function AllSums(g: UserGroups, ruleGroups: map<string, GroupRule>): (r: seq<Sums>)
    requires Complete(g, ruleGroups)
    ensures |r| == |g.order|
    ensures forall i :: 0 <= i < |r| ==> r[i] == GroupSums(ruleGroups[g.order[i]], g.tasks[g.order[i]])
  {
    seq(|g.order|, i requires 0 <= i < |g.order| => GroupSums(ruleGroups[g.order[i]], g.tasks[g.order[i]]))
  }

  lemma {:induction false} WithTasksComplete(g: UserGroups, names: seq<string>, e: TaskEntry, rg: map<string,
                                             GroupRule>)
    requires Complete(g, rg) && forall i :: 0 <= i < |names| ==> names[i] in rg
    ensures Complete(WithTasks(g, names, e), rg)
  {
    if names != [] {
      WithTasksComplete(g, names[..|names| - 1], e, rg);
    }
  }

  lemma {:induction false} RuleGroupsKeep(rule: Rule, entries: seq<TaskEntry>)
    ensures forall k :: k in rule.groups ==> k in RuleGroups(rule, entries)
  {
    if entries != [] {
      RuleGroupsKeep(rule, entries[..|entries| - 1]);
    }
  }

  lemma {:induction false} GroupsComplete(rule: Rule, entries: seq<TaskEntry>, user: int)
    requires Consistent(rule)
    ensures Complete(GroupsOf(rule, entries, user), RuleGroups(rule, entries))
  {
    if entries != [] {
      var before, last := entries[..|entries| - 1], entries[|entries| - 1];
      GroupsComplete(rule, before, user);
      RuleGroupsKeep(rule, before);
      var rg := RuleGroups(rule, entries);
      assert forall k :: k in RuleGroups(rule, before) ==> k in rg;
      WithTasksComplete(GroupsOf(rule, before, user), GroupNames(rule, last.taskId), last, rg);
    }
  }

  // ----- the two passes -----

  method AddToGroups(g: UserGroups, names: seq<string>, e: TaskEntry) returns (groups: UserGroups)
    ensures groups == WithTasks(g, names, e)
  {
    groups := g;
    for i := 0 to |names|
      invariant groups == WithTasks(g, names[..i], e)
    {
      assert names[..i + 1][..i] == names[..i];
      groups := WithTask(groups, names[i], e);
    }
    assert names[..|names|] == names;
  }

  /** The users with at least one grouped task. */
  predicate Appears(rule: Rule, entries: seq<TaskEntry>, user: int) {
    GroupsOf(rule, entries, user).order != []
  }

  /** The first pass: tasks are collected under the user and each of their groups. */
  method GroupTasks(rule: Rule, entries: seq<TaskEntry>)
    returns (result: map<int, UserGroups>, ruleGroups: map<string, GroupRule>)
    ensures ruleGroups == RuleGroups(rule, entries)
    ensures forall u :: u in result <==> Appears(rule, entries, u)
    ensures forall u :: u in result ==> result[u] == GroupsOf(rule, entries, u)
  {
    result := map[];
    ruleGroups := rule.groups;
    for n := 0 to |entries|
      invariant ruleGroups == RuleGroups(rule, entries[..n])
      invariant forall u :: u in result <==> Appears(rule, entries[..n], u)
      invariant forall u :: u in result ==> result[u] == GroupsOf(rule, entries[..n], u)
    {
      var tu := entries[n];
      var uid := tu.user;
      assert entries[..n + 1][..n] == entries[..n];
      var groupNames := rule.findGroups(tu.taskId);
      if groupNames == [] && rule.includeGroupless {
        var gname := rule.taskName(tu.taskId);
        groupNames := [gname];
        ruleGroups := ruleGroups[gname := DEFAULT_GROUP];
      }
      EmptyGroups(rule, entries[..n], uid);
      if groupNames != [] {
        var g := if uid in result then result[uid] else UserGroups([], map[]);
        var g' := AddToGroups(g, groupNames, tu);
        NamesAppear(g, groupNames, tu);
        result := result[uid := g'];
      }
    }
    assert entries[..|entries|] == entries;
  }

  lemma {:induction false} NamesAppear(g: UserGroups, names: seq<string>, e: TaskEntry)
    ensures names != [] && (forall k :: k in g.tasks ==> g.order != []) ==> WithTasks(g, names, e).order != []
    ensures (forall k :: k in g.tasks ==> g.order != []) ==>
              forall k :: k in WithTasks(g, names, e).tasks ==> WithTasks(g, names, e).order != []
  {
    if names != [] {
      NamesAppear(g, names[..|names| - 1], e);
    }
  }

  lemma {:induction false} EmptyGroups(rule: Rule, entries: seq<TaskEntry>, user: int)
    ensures var g := GroupsOf(rule, entries, user);
            (forall k :: k in g.tasks ==> g.order != []) && (g.order == [] ==> g == UserGroups([], map[]))
  {
    if entries != [] {
      var before, last := entries[..|entries| - 1], entries[|entries| - 1];
      EmptyGroups(rule, before, user);
      NamesAppear(GroupsOf(rule, before, user), GroupNames(rule, last.taskId), last);
    }
  }

  /** The sums of the groups of one user, in the order of the groups. */
  method SumGroups(g: UserGroups, ruleGroups: map<string, GroupRule>) returns (sums: seq<Sums>)
    requires Complete(g, ruleGroups)
    ensures sums == AllSums(g, ruleGroups)
  {
    sums := [];
    for i := 0 to |g.order|
      invariant sums == AllSums(g, ruleGroups)[..i]
    {
      var gr := ruleGroups[g.order[i]];
      var tasks := g.tasks[g.order[i]];
      var taskSum, velpSum: Option<real> := None, None;
      if gr.countsTask {
        taskSum := SumAndRound(TaskPoints(tasks));
      }
      if gr.countsVelp {
        velpSum := SumAndRound(VelpPoints(tasks));
      }
      var totalSum: Option<real>;
      if taskSum.Some? && velpSum.Some? {
        totalSum := Some(taskSum.value + velpSum.value);
      } else if taskSum.Some? {
        totalSum := taskSum;
      } else {
        totalSum := velpSum;
      }
      if totalSum.Some? {
        totalSum := Some(Clamp(totalSum.value, gr.minPoints, gr.maxPoints));
      }
      sums := sums + [Sums(taskSum, velpSum, totalSum)];
    }
  }

  /** The points of every user with a grouped task. */
  function UserPoints(rule: Rule, entries: seq<TaskEntry>, user: int): Sums
    requires Consistent(rule) && Appears(rule, entries, user)
  {
    GroupsComplete(rule, entries, user);
    UserSums(rule, AllSums(GroupsOf(rule, entries, user), RuleGroups(rule, entries)))
  }

  method AnyOf<T>(s: set<T>) returns (x: T)
    requires s != {}
    ensures x in s
  {
    x :| x in s;
  }

  /** The second pass: sums per group, sorted and counted per user. */
  method GetPointsByRule(rule: Rule, entries: seq<TaskEntry>) returns (points: map<int, Sums>)
    requires Consistent(rule)
    ensures forall u :: u in points <==> Appears(rule, entries, u)
    ensures forall u :: u in points ==> points[u] == UserPoints(rule, entries, u)
  {
    var result, ruleGroups := GroupTasks(rule, entries);
    points := map[];
    var users := result.Keys;
    while users != {}
      invariant users <= result.Keys && points.Keys == result.Keys - users
      invariant forall u :: u in points ==> Appears(rule, entries, u) && points[u] == UserPoints(rule, entries, u)
      decreases users
    {
      var u := AnyOf(users);
      GroupsComplete(rule, entries, u);
      var sums := SumGroups(result[u], ruleGroups);
      points := points[u := UserSums(rule, sums)];
      users := users - {u};
    }
  }
}
