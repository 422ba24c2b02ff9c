/**
 The three groupings of tallied answers: one entry per user, per user and document, or per user and
 task. Merging the finer entries of a user gives the coarser ones, up to rounding.
 */
module Grouping {
  import opened Text
  import opened Rounding
  import opened AnswerTally

  /** The contents of an entry. */
  datatype Entry = Entry(
    user: int, tally: Sums, totalPoints: Option<real>, taskId: string, docId: string, duration: Option<int>)

  /** What an entry accumulates. */
  datatype Sums = Sums(
    tasks: int, velped: int, task: Option<real>, velp: Option<real>, first: Option<int>, last: Option<int>)

  /** The record of a task of a user. */
  datatype Item = Item(task: string, info: Info)

  // ----- entries and their meaning -----

  const NOTHING: Sums := Sums(0, 0, None, None, None, None)

  function Plus(x: Option<real>, y: Option<real>): Option<real> {
    if y.None? then x else Some(OrZero(x) + y.value)
  }

  function First(x: Option<int>, y: Option<int>): Option<int> {
    if y.None? then x else Earliest(x, y.value)
  }

  function Last(x: Option<int>, y: Option<int>): Option<int> {
    if y.None? then x else Newest(x, y.value)
  }

  function Merge(s: Sums, t: Sums): Sums {
    Sums(s.tasks + t.tasks, s.velped + t.velped, Plus(s.task, t.task), Plus(s.velp, t.velp),
         First(s.first, t.first), Last(s.last, t.last))
  }

  function MergeAll(ss: seq<Sums>): Sums {
    if ss == [] then NOTHING else Merge(MergeAll(ss[..|ss| - 1]), ss[|ss| - 1])
  }

  /** What one record contributes. */
  function SumsOf(i: Info): Sums {
    Sums(if i.answerId >= 0 then 1 else 0, if i.velped then 1 else 0, i.points, i.velpPoints,
         i.answeredOnMin, i.answeredOnMax)
  }

  function AllSums(items: seq<Item>): seq<Sums> {
    seq(|items|, i requires 0 <= i < |items| => SumsOf(items[i].info))
  }

  function TotalOf(s: Sums): Option<real> {
    if s.task.None? && s.velp.None? then None else Some(Round4(OrZero(s.task) + OrZero(s.velp)))
  }

  /** An entry as it is returned: rounded, with its total and duration. */
  function Finished(user: int, s: Sums, taskId: string, docId: string): Entry {
    Entry(user, s.(task := Round4Option(s.task), velp := Round4Option(s.velp)), TotalOf(s), taskId, docId,
          if s.first.Some? && s.last.Some? then Some(s.last.value - s.first.value) else None)
  }

  class UserTaskEntry {
    const user: int
    var taskCount: int
    var velpedTaskCount: int
    var totalPoints: Option<real>
    var taskPoints: Option<real>
    var velpPoints: Option<real>
    var taskId: string
    var docId: string
    var firstAnswerOn: Option<int>
    var lastAnswerOn: Option<int>
    var answerDuration: Option<int>

    /** `task_entry_for_user` */
    constructor (user: int)
      ensures this.user == user && View() == Entry(user, NOTHING, None, "", "", None)
    {
      this.user := user;
      taskCount, velpedTaskCount := 0, 0;
      totalPoints, taskPoints, velpPoints := None, None, None;
      taskId, docId := "", "";
      firstAnswerOn, lastAnswerOn, answerDuration := None, None, None;
    }

    function View(): Entry
      reads this
    {
      Entry(user, Sums(taskCount, velpedTaskCount, taskPoints, velpPoints, firstAnswerOn, lastAnswerOn),
            totalPoints, taskId, docId, answerDuration)
    }

    method AddPoints(info: UserAnswerInfo)
      modifies this`taskPoints, this`velpPoints
      ensures taskPoints == Plus(old(taskPoints), info.points)
      ensures velpPoints == Plus(old(velpPoints), info.velpPoints)
    {
      if info.points.Some? {
        if taskPoints.None? {
          taskPoints := Some(0.0);
        }
        taskPoints := Some(taskPoints.value + info.points.value);
      }
      if info.velpPoints.Some? {
        if velpPoints.None? {
          velpPoints := Some(0.0);
        }
        velpPoints := Some(velpPoints.value + info.velpPoints.value);
      }
    }

    method AddTimes(info: UserAnswerInfo)
      modifies this`firstAnswerOn, this`lastAnswerOn
      ensures firstAnswerOn == First(old(firstAnswerOn), info.answeredOnMin)
      ensures lastAnswerOn == Last(old(lastAnswerOn), info.answeredOnMax)
    {
      if info.answeredOnMin.Some? && (firstAnswerOn.None? || info.answeredOnMin.value < firstAnswerOn.value) {
        firstAnswerOn := info.answeredOnMin;
      }
      if info.answeredOnMax.Some? && (lastAnswerOn.None? || info.answeredOnMax.value > lastAnswerOn.value) {
        lastAnswerOn := info.answeredOnMax;
      }
    }

    /** `UserAnswerInfo.update_entry` */
    method Update(info: UserAnswerInfo)
      modifies this
      ensures View() == old(View()).(tally := Merge(old(View()).tally, SumsOf(old(info.View()))))
    {
      AddPoints(info);
      taskCount := taskCount + if info.answerId >= 0 then 1 else 0;
      velpedTaskCount := velpedTaskCount + if info.velped then 1 else 0;
      AddTimes(info);
    }

    method UpdateTotals()
      requires totalPoints.None? && answerDuration.None?
      modifies this
      ensures View() == Finished(user, old(View()).tally, old(taskId), old(docId))
    {
      if firstAnswerOn.Some? && lastAnswerOn.Some? {
        answerDuration := Some(lastAnswerOn.value - firstAnswerOn.value);
      }
      if taskPoints.Some? && velpPoints.Some? {
        totalPoints := Some(Round4(taskPoints.value + velpPoints.value));
      } else if taskPoints.Some? {
        totalPoints := Some(Round4(taskPoints.value));
      } else if velpPoints.Some? {
        totalPoints := Some(Round4(velpPoints.value));
      }
      taskPoints := if taskPoints.Some? then Some(Round4(taskPoints.value)) else None;
      velpPoints := if velpPoints.Some? then Some(Round4(velpPoints.value)) else None;
    }
  }

  // ----- what each grouping returns for a user -----

  /** The part of a task name before its first dot. */
  function DocOf(task: string): string {
    if task == "" || task[0] == '.' then "" else [task[0]] + DocOf(task[1..])
  }

  function InDoc(items: seq<Item>, doc: string): seq<Item> {
    if items == [] then []
    else
      var before := InDoc(items[..|items| - 1], doc);
      if DocOf(items[|items| - 1].task) == doc then before + [items[|items| - 1]] else before
  }

  /** The documents of the tasks, in the order of their first tasks. */
  function Docs(items: seq<Item>): seq<string> {
    if items == [] then []
    else
      var before := Docs(items[..|items| - 1]);
      var doc := DocOf(items[|items| - 1].task);
      if doc in before then before else before + [doc]
  }

  function UserSums(items: seq<Item>): Sums {
    MergeAll(AllSums(items))
  }

  function DocSums(items: seq<Item>): seq<Sums> {
    seq(|Docs(items)|, i requires 0 <= i < |Docs(items)| => UserSums(InDoc(items, Docs(items)[i])))
  }

  function UserEntries(user: int, items: seq<Item>): seq<Entry> {
    if items == [] then [] else [Finished(user, UserSums(items), "", "")]
  }

  function TaskEntries(user: int, items: seq<Item>): seq<Entry> {
    seq(|items|, i requires 0 <= i < |items| => Finished(user, SumsOf(items[i].info), items[i].task, ""))
  }

  function DocEntries(user: int, items: seq<Item>): seq<Entry> {
    seq(|Docs(items)|, i requires 0 <= i < |Docs(items)| => Finished(user, DocSums(items)[i], "", Docs(items)[i]))
  }

  // ----- merging is a commutative monoid -----

  lemma MergeLaws(s: Sums, t: Sums, u: Sums)
    ensures Merge(Merge(s, t), u) == Merge(s, Merge(t, u))
    ensures Merge(s, t) == Merge(t, s)
    ensures Merge(NOTHING, s) == s == Merge(s, NOTHING)
  {
  }

  lemma MergeLast(ss: seq<Sums>, s: Sums)
    ensures MergeAll(ss + [s]) == Merge(MergeAll(ss), s)
  {
    assert (ss + [s])[..|ss|] == ss;
  }

  /** Merging something into one member merges it into the whole. */
  lemma {:induction false} MergeInto(ss: seq<Sums>, j: nat, s: Sums)
    requires j < |ss|
    ensures MergeAll(ss[j := Merge(ss[j], s)]) == Merge(MergeAll(ss), s)
  {
    var n := |ss| - 1;
    var merged := ss[j := Merge(ss[j], s)];
    var before := MergeAll(ss[..n]);
    if j == n {
      assert merged[..n] == ss[..n];
      MergeLaws(before, ss[n], s);
    } else {
      assert merged[..n] == ss[..n][j := Merge(ss[..n][j], s)];
      MergeInto(ss[..n], j, s);
      MergeLaws(before, s, ss[n]);
      MergeLaws(before, ss[n], s);
      MergeLaws(s, ss[n], s);
    }
  }

  /** The earliest of some times, and none only if there are none. */
  predicate IsEarliest(ss: seq<Sums>, t: Option<int>) {
    && (forall i :: 0 <= i < |ss| && ss[i].first.Some? ==> t.Some? && t.value <= ss[i].first.value)
    && (t.Some? ==> exists i :: 0 <= i < |ss| && ss[i].first == t)
  }

  predicate IsLatest(ss: seq<Sums>, t: Option<int>) {
    && (forall i :: 0 <= i < |ss| && ss[i].last.Some? ==> t.Some? && t.value >= ss[i].last.value)
    && (t.Some? ==> exists i :: 0 <= i < |ss| && ss[i].last == t)
  }

  predicate HasPoints(ss: seq<Sums>) {
    exists i :: 0 <= i < |ss| && ss[i].task.Some?
  }

  /** Merged sums hold the earliest and the latest time, and points exactly when some member has points. */
  lemma {:induction false} MergedExtremes(ss: seq<Sums>)
    ensures IsEarliest(ss, MergeAll(ss).first) && IsLatest(ss, MergeAll(ss).last)
    ensures MergeAll(ss).task.Some? <==> HasPoints(ss)
  {
    if ss != [] {
      var n := |ss| - 1;
      MergedExtremes(ss[..n]);
      MergedStep(ss[..n], ss[n], MergeAll(ss[..n]));
      assert ss == ss[..n] + [ss[n]];
    }
  }

  lemma {:induction false} MergedStep(ss: seq<Sums>, s: Sums, m: Sums)
    requires IsEarliest(ss, m.first) && IsLatest(ss, m.last) && (m.task.Some? <==> HasPoints(ss))
    ensures var more := ss + [s]; var merged := Merge(m, s);
            IsEarliest(more, merged.first) && IsLatest(more, merged.last) && (merged.task.Some? <==> HasPoints(more))
  {
    var more := ss + [s];
    assert more[|ss|] == s && forall i :: 0 <= i < |ss| ==> more[i] == ss[i];
    if i :| 0 <= i < |ss| && ss[i].first == m.first {
      assert more[i].first == m.first;
    }
    if i :| 0 <= i < |ss| && ss[i].last == m.last {
      assert more[i].last == m.last;
    }
    if i :| 0 <= i < |ss| && ss[i].task.Some? {
      assert more[i].task.Some?;
    }
  }

  lemma UserSumsLast(items: seq<Item>, x: Item)
    ensures UserSums(items + [x]) == Merge(UserSums(items), SumsOf(x.info))
  {
    assert AllSums(items + [x]) == AllSums(items) + [SumsOf(x.info)];
    MergeLast(AllSums(items), SumsOf(x.info));
  }

  lemma UserSumsStep(items: seq<Item>, n: nat)
    requires n < |items|
    ensures UserSums(items[..n + 1]) == Merge(UserSums(items[..n]), SumsOf(items[n].info))
  {
    assert items[..n + 1] == items[..n] + [items[n]];
    UserSumsLast(items[..n], items[n]);
  }

  lemma InDocLast(items: seq<Item>, x: Item, doc: string)
    ensures InDoc(items + [x], doc) == if DocOf(x.task) == doc then InDoc(items, doc) + [x] else InDoc(items, doc)
  {
    assert (items + [x])[..|items|] == items;
  }

  predicate Distinct(docs: seq<string>) {
    forall i, j :: 0 <= i < j < |docs| ==> docs[i] != docs[j]
  }

  lemma {:induction false} DocsDistinct(items: seq<Item>)
    ensures Distinct(Docs(items))
    ensures forall doc :: doc in Docs(items) <==> InDoc(items, doc) != []
  {
    if items != [] {
      DocsDistinct(items[..|items| - 1]);
    }
  }

  /** What one more task does to the sums of a document. */
  lemma DocLast(items: seq<Item>, x: Item, d: string)
    ensures UserSums(InDoc(items + [x], d)) ==
            if d == DocOf(x.task) then Merge(UserSums(InDoc(items, d)), SumsOf(x.info)) else UserSums(InDoc(items, d))
  {
    InDocLast(items, x, d);
    UserSumsLast(InDoc(items, d), x);
  }

  lemma DocsLast(items: seq<Item>, x: Item)
    ensures Docs(items + [x]) == if DocOf(x.task) in Docs(items) then Docs(items) else Docs(items) + [DocOf(x.task)]
  {
    assert (items + [x])[..|items|] == items;
  }

  lemma OldDoc(items: seq<Item>, x: Item, j: nat)
    requires j < |Docs(items)| && Docs(items)[j] == DocOf(x.task)
    ensures DocSums(items + [x]) == DocSums(items)[j := Merge(DocSums(items)[j], SumsOf(x.info))]
  {
    var docs := Docs(items);
    DocsDistinct(items);
    DocsLast(items, x);
    forall i | 0 <= i < |docs|
      ensures DocSums(items + [x])[i] == DocSums(items)[j := Merge(DocSums(items)[j], SumsOf(x.info))][i]
    {
      DocLast(items, x, docs[i]);
    }
  }

  lemma NewDocSums(items: seq<Item>, x: Item)
    requires DocOf(x.task) !in Docs(items)
    ensures UserSums(InDoc(items + [x], DocOf(x.task))) == SumsOf(x.info)
  {
    DocsDistinct(items);
    DocLast(items, x, DocOf(x.task));
    assert UserSums([]) == NOTHING;
    MergeLaws(SumsOf(x.info), NOTHING, NOTHING);
  }

  lemma NewDoc(items: seq<Item>, x: Item)
    requires DocOf(x.task) !in Docs(items)
    ensures DocSums(items + [x]) == DocSums(items) + [SumsOf(x.info)]
  {
    var docs := Docs(items);
    DocsDistinct(items);
    DocsLast(items, x);
    NewDocSums(items, x);
    forall i | 0 <= i < |docs|
      ensures DocSums(items + [x])[i] == DocSums(items)[i]
    {
      DocLast(items, x, docs[i]);
    }
  }

  /** One more task is merged into its document, which may be new. */
  lemma DocSumsLast(items: seq<Item>, x: Item)
    ensures MergeAll(DocSums(items + [x])) == Merge(MergeAll(DocSums(items)), SumsOf(x.info))
  {
    var docs := Docs(items);
    if DocOf(x.task) in docs {
      var j :| 0 <= j < |docs| && docs[j] == DocOf(x.task);
      OldDoc(items, x, j);
      MergeInto(DocSums(items), j, SumsOf(x.info));
    } else {
      NewDoc(items, x);
      MergeLast(DocSums(items), SumsOf(x.info));
    }
  }

  lemma DocSumsStep(items: seq<Item>, n: nat)
    requires |items| == n + 1
    ensures MergeAll(DocSums(items)) == Merge(MergeAll(DocSums(items[..n])), SumsOf(items[n].info))
    ensures UserSums(items) == Merge(UserSums(items[..n]), SumsOf(items[n].info))
  {
    assert items == items[..n] + [items[n]];
    DocSumsLast(items[..n], items[n]);
    UserSumsLast(items[..n], items[n]);
  }

  /** Before rounding, the sums of a user are the merged sums of the documents, and of the tasks. */
  lemma {:induction false} GroupingsAgree(items: seq<Item>)
    ensures MergeAll(DocSums(items)) == UserSums(items)
  {
    if items != [] {
      GroupingsAgree(items[..|items| - 1]);
      DocSumsStep(items, |items| - 1);
    }
  }

  // ----- what is left of that after rounding -----

  function Tallies(entries: seq<Entry>): seq<Sums> {
    seq(|entries|, i requires 0 <= i < |entries| => entries[i].tally)
  }

  function Totals(entries: seq<Entry>): Option<real> {
    if entries == [] then None else Plus(Totals(entries[..|entries| - 1]), entries[|entries| - 1].totalPoints)
  }

  /** Both or neither, and no further apart than `n` roundings can take them. */
  predicate Near(x: Option<real>, y: Option<real>, n: int) {
    (x.Some? <==> y.Some?) && -(n as real) * 0.00005 <= OrZero(x) - OrZero(y) <= n as real * 0.00005
  }

  /** The merged entries have the counts and the times of the one entry, and nearly its points. */
  predicate MergesTo(entries: seq<Entry>, whole: Entry) {
    var m := MergeAll(Tallies(entries));
    var n := |entries| + 1;
    && m.tasks == whole.tally.tasks && m.velped == whole.tally.velped
    && m.first == whole.tally.first && m.last == whole.tally.last
    && Near(m.task, whole.tally.task, n) && Near(m.velp, whole.tally.velp, n)
    && Near(Totals(entries), whole.totalPoints, n)
  }

  /** The entries of the sums. */
  predicate EntriesOf(entries: seq<Entry>, ss: seq<Sums>) {
    |entries| == |ss| &&
    forall i :: 0 <= i < |ss| ==> entries[i] == Finished(entries[i].user, ss[i], entries[i].taskId, entries[i].docId)
  }

  function Exact(s: Sums): Option<real> {
    if s.task.None? && s.velp.None? then None else Some(OrZero(s.task) + OrZero(s.velp))
  }

  lemma RoundNear(x: Option<real>)
    ensures Near(Round4Option(x), x, 1)
  {
    if x.Some? {
      Round4IsNear(x.value);
    }
  }

  lemma TotalNear(s: Sums)
    ensures Near(TotalOf(s), Exact(s), 1)
  {
    RoundNear(Exact(s));
  }

  lemma PlusNear(x: Option<real>, y: Option<real>, x': Option<real>, y': Option<real>, n: nat)
    requires Near(x, y, n) && Near(x', y', 1)
    ensures Near(Plus(x, x'), Plus(y, y'), n + 1)
  {
  }

  lemma NearTrans(x: Option<real>, y: Option<real>, z: Option<real>, n: nat)
    requires Near(x, y, n) && Near(z, y, 1)
    ensures Near(x, z, n + 1)
  {
  }

  predicate MergedNear(m: Sums, totals: Option<real>, s: Sums, n: nat) {
    && m.tasks == s.tasks && m.velped == s.velped && m.first == s.first && m.last == s.last
    && Near(m.task, s.task, n) && Near(m.velp, s.velp, n) && Near(totals, Exact(s), n)
  }

  lemma {:induction false} MergedEntriesNear(entries: seq<Entry>, ss: seq<Sums>)
    requires EntriesOf(entries, ss)
    ensures MergedNear(MergeAll(Tallies(entries)), Totals(entries), MergeAll(ss), |entries|)
  {
    if entries != [] {
      var n := |entries| - 1;
      MergedEntriesNear(entries[..n], ss[..n]);
      assert Tallies(entries)[..n] == Tallies(entries[..n]);
      var s, before := ss[n], MergeAll(ss[..n]);
      RoundNear(s.task);
      RoundNear(s.velp);
      TotalNear(s);
      var was := MergeAll(Tallies(entries[..n]));
      PlusNear(was.task, before.task, Round4Option(s.task), s.task, n);
      PlusNear(was.velp, before.velp, Round4Option(s.velp), s.velp, n);
      PlusNear(Totals(entries[..n]), Exact(before), TotalOf(s), Exact(s), n);
    }
  }

  lemma EntriesMerge(entries: seq<Entry>, ss: seq<Sums>, whole: Entry)
    requires EntriesOf(entries, ss) && whole == Finished(whole.user, MergeAll(ss), whole.taskId, whole.docId)
    ensures MergesTo(entries, whole)
  {
    MergedEntriesNear(entries, ss);
    var s := MergeAll(ss);
    RoundNear(s.task);
    RoundNear(s.velp);
    TotalNear(s);
    var m := MergeAll(Tallies(entries));
    NearTrans(m.task, s.task, Round4Option(s.task), |entries|);
    NearTrans(m.velp, s.velp, Round4Option(s.velp), |entries|);
    NearTrans(Totals(entries), Exact(s), TotalOf(s), |entries|);
  }

  /**
   The entries of the tasks of a user, and the entries of the documents, merge to the entry of the user:
   equal counts and times, points in both or in neither, and totals of `n` entries at most `n + 1` half
   units of the last decimal away.
   */
  lemma EntriesAgree(user: int, items: seq<Item>)
    requires items != []
    ensures UserEntries(user, items) != []
    ensures MergesTo(TaskEntries(user, items), UserEntries(user, items)[0])
    ensures MergesTo(DocEntries(user, items), UserEntries(user, items)[0])
  {
    GroupingsAgree(items);
    EntriesMerge(TaskEntries(user, items), AllSums(items), UserEntries(user, items)[0]);
    EntriesMerge(DocEntries(user, items), DocSums(items), UserEntries(user, items)[0]);
  }

  // ----- the methods -----

  /** An iteration order of the tasks of every user. */
  ghost predicate Orders(order: map<int, seq<string>>, kept: map<int, map<string, UserAnswerInfo>>) {
    && order.Keys == kept.Keys
    && forall u :: u in kept ==> Distinct(order[u]) && forall t :: t in order[u] <==> t in kept[u]
  }

  /** The records of every user, in that order. */
  ghost predicate AreItems(items: map<int, seq<Item>>, kept: map<int, map<string, UserAnswerInfo>>, order: map<int,
                           seq<string>>)
    reads Records(kept)
  {
    && Orders(order, kept) && items.Keys == kept.Keys
    && forall u :: u in kept ==> TaskItems(items[u], kept[u], order[u])
  }

  ghost predicate TaskItems(items: seq<Item>, tasks: map<string, UserAnswerInfo>, order: seq<string>)
    reads tasks.Values
  {
    |order| == |items| && forall i :: 0 <= i < |order| ==>
      order[i] in tasks && items[i] == Item(order[i], tasks[order[i]].View())
  }

  datatype By = ByUser | ByTask | ByDoc

  function EntriesBy(how: By, user: int, items: seq<Item>): seq<Entry> {
    match how
    case ByUser => UserEntries(user, items)
    case ByTask => TaskEntries(user, items)
    case ByDoc => DocEntries(user, items)
  }

  /** The entries of the users one after the other. */
  function ForUsers(how: By, users: seq<int>, items: map<int, seq<Item>>): seq<Entry> {
    if users == [] then []
    else
      var user := users[|users| - 1];
      ForUsers(how, users[..|users| - 1], items) + EntriesBy(how, user, if user in items then items[user] else [])
  }

  ghost predicate Holds(result: seq<UserTaskEntry>, entries: seq<Entry>)
    reads result
  {
    |result| == |entries| && forall i :: 0 <= i < |result| ==> result[i].View() == entries[i]
  }

  ghost predicate Contents(infos: seq<UserAnswerInfo>, items: seq<Item>)
    reads infos
  {
    |infos| == |items| && forall i :: 0 <= i < |infos| ==> infos[i].View() == items[i].info
  }

  /** An entry with the records merged into it. */
  method Accumulate(user: int, infos: seq<UserAnswerInfo>, ghost items: seq<Item>) returns (entry: UserTaskEntry)
    requires Contents(infos, items)
    ensures fresh(entry) && entry.View() == Entry(user, UserSums(items), None, "", "", None)
  {
    entry := new UserTaskEntry(user);
    for n := 0 to |infos|
      invariant entry.View() == Entry(user, UserSums(items[..n]), None, "", "", None)
    {
      UserSumsStep(items, n);
      entry.Update(infos[n]);
    }
    assert items[..|infos|] == items;
  }

  /** The records of a user in order. */
  method InfosOf(tasks: map<string, UserAnswerInfo>, order: seq<string>,
                 ghost items: seq<Item>) returns (infos: seq<UserAnswerInfo>)
    requires TaskItems(items, tasks, order)
    ensures Contents(infos, items)
  {
    infos := seq(|order|, i requires 0 <= i < |order| => tasks[order[i]]);
  }

  lemma HoldsMore(result: seq<UserTaskEntry>, entries: seq<Entry>, more: seq<UserTaskEntry>, moreEntries: seq<Entry>)
    requires Holds(result, entries) && Holds(more, moreEntries)
    ensures Holds(result + more, entries + moreEntries)
  {
  }

  lemma TaskEntriesStep(user: int, items: seq<Item>, n: nat)
    requires n < |items|
    ensures TaskEntries(user, items[..n + 1]) ==
            TaskEntries(user, items[..n]) + [Finished(user, SumsOf(items[n].info), items[n].task, "")]
  {
  }

  lemma ForUsersStep(how: By, users: seq<int>, n: nat, items: map<int, seq<Item>>)
    requires n < |users|
    ensures ForUsers(how, users[..n + 1], items) ==
            ForUsers(how, users[..n], items) +
            EntriesBy(how, users[n], if users[n] in items then items[users[n]] else [])
  {
    assert users[..n + 1][..n] == users[..n];
  }

  /** The entry of a user. */
  method UserEntry(user: int, infos: seq<UserAnswerInfo>, ghost items: seq<Item>) returns (entry: UserTaskEntry)
    requires Contents(infos, items)
    ensures fresh(entry) && entry.View() == Finished(user, UserSums(items), "", "")
  {
    entry := Accumulate(user, infos, items);
    entry.UpdateTotals();
  }

  /** The entry of a task. */
  method TaskEntry(user: int, task: string, info: UserAnswerInfo, ghost i: Info) returns (entry: UserTaskEntry)
    requires info.View() == i
    ensures fresh(entry) && entry.View() == Finished(user, SumsOf(i), task, "")
  {
    entry := new UserTaskEntry(user);
    MergeLaws(SumsOf(i), NOTHING, NOTHING);
    entry.Update(info);
    entry.UpdateTotals();
    entry.taskId := task;
  }

  /** The entry of a document. */
  method DocEntry(user: int, doc: string, infos: seq<UserAnswerInfo>,
                  ghost items: seq<Item>) returns (entry: UserTaskEntry)
    requires Contents(infos, items)
    ensures fresh(entry) && entry.View() == Finished(user, UserSums(items), "", doc)
  {
    entry := Accumulate(user, infos, items);
    entry.UpdateTotals();
    entry.docId := doc;
  }

  /** The entry of a user, unless the user has no tasks. */
  method UserEntriesOf(user: int, tasks: map<string, UserAnswerInfo>, order: seq<string>, ghost items: seq<Item>)
    returns (result: seq<UserTaskEntry>)
    requires TaskItems(items, tasks, order)
    ensures fresh(result) && Holds(result, UserEntries(user, items))
  {
    result := [];
    if |order| > 0 {
      var infos := InfosOf(tasks, order, items);
      var entry := UserEntry(user, infos, items);
      result := [entry];
    }
  }

  method TaskEntriesOf(user: int, tasks: map<string, UserAnswerInfo>, order: seq<string>, ghost items: seq<Item>)
    returns (result: seq<UserTaskEntry>)
    requires TaskItems(items, tasks, order)
    ensures fresh(result) && Holds(result, TaskEntries(user, items))
  {
    result := [];
    for n := 0 to |order|
      invariant fresh(result)
      invariant Holds(result, TaskEntries(user, items[..n]))
    {
      TaskEntriesStep(user, items, n);
      var entry := TaskEntry(user, order[n], tasks[order[n]], items[n].info);
      HoldsMore(result, TaskEntries(user, items[..n]), [entry],
                [Finished(user, SumsOf(items[n].info), items[n].task, "")]);
      result := result + [entry];
    }
    assert items[..|order|] == items;
  }

  // ----- grouping by document -----

  /** Those of `xs` whose tasks are in the document. */
  function Picked<T>(order: seq<string>, xs: seq<T>, doc: string): seq<T>
    requires |order| == |xs|
  {
    if xs == [] then []
    else
      var n := |xs| - 1;
      var before := Picked(order[..n], xs[..n], doc);
      if DocOf(order[n]) == doc then before + [xs[n]] else before
  }

  lemma {:induction false} PickedContents(order: seq<string>, infos: seq<UserAnswerInfo>, items: seq<Item>, doc: string)
    requires |order| == |infos| && Contents(infos, items) && forall i :: 0 <= i < |order| ==> items[i].task == order[i]
    ensures Contents(Picked(order, infos, doc), InDoc(items, doc))
    decreases |order|
  {
    if infos != [] {
      var n := |infos| - 1;
      PickedContents(order[..n], infos[..n], items[..n], doc);
    }
  }

  function Listed<T>(byDoc: map<string, seq<T>>, doc: string): seq<T> {
    if doc in byDoc then byDoc[doc] else []
  }

  ghost predicate Grouped<T>(docs: seq<string>, byDoc: map<string, seq<T>>, order: seq<string>, xs: seq<T>) {
    && |order| == |xs|
    && (forall d :: Listed(byDoc, d) == Picked(order, xs, d))
    && (forall d :: d in docs <==> d in byDoc)
    && (forall d :: d in byDoc ==> byDoc[d] != [])
  }

  lemma GroupedStep<T>(docs: seq<string>, byDoc: map<string, seq<T>>, order: seq<string>, xs: seq<T>, n: nat)
    requires n < |order| == |xs|
    requires Grouped(docs, byDoc, order[..n], xs[..n])
    ensures var doc := DocOf(order[n]);
            Grouped(if doc in docs then docs else docs + [doc], byDoc[doc := Listed(byDoc, doc) + [xs[n]]],
                    order[..n + 1], xs[..n + 1])
  {
    assert order[..n + 1][..n] == order[..n] && xs[..n + 1][..n] == xs[..n];
    var doc := DocOf(order[n]);
    var after := byDoc[doc := Listed(byDoc, doc) + [xs[n]]];
    forall d
      ensures Listed(after, d) == Picked(order[..n + 1], xs[..n + 1], d)
    {
      assert Listed(byDoc, d) == Picked(order[..n], xs[..n], d);
    }
    forall d
      ensures d in (if doc in docs then docs else docs + [doc]) <==> d in after
    {
    }
  }

  lemma DocsStep(items: seq<Item>, n: nat)
    requires n < |items|
    ensures Docs(items[..n + 1]) ==
            var doc, before := DocOf(items[n].task), Docs(items[..n]);
            if doc in before then before else before + [doc]
  {
    assert items[..n + 1][..n] == items[..n];
  }

  /** `user_answers_by_doc` for a user: the documents in the order of their first tasks, with their records. */
  method GroupByDoc(order: seq<string>, infos: seq<UserAnswerInfo>, ghost items: seq<Item>)
    returns (docs: seq<string>, byDoc: map<string, seq<UserAnswerInfo>>)
    requires |order| == |infos| == |items| && forall i :: 0 <= i < |order| ==> items[i].task == order[i]
    ensures docs == Docs(items) && Grouped(docs, byDoc, order, infos)
  {
    docs, byDoc := [], map[];
    for n := 0 to |order|
      invariant docs == Docs(items[..n])
      invariant Grouped(docs, byDoc, order[..n], infos[..n])
    {
      var doc := DocOf(order[n]);
      DocsStep(items, n);
      GroupedStep(docs, byDoc, order, infos, n);
      docs := if doc in docs then docs else docs + [doc];
      byDoc := byDoc[doc := Listed(byDoc, doc) + [infos[n]]];
    }
    assert order[..|order|] == order && infos[..|order|] == infos && items[..|order|] == items;
  }

  lemma DocEntriesStep(user: int, items: seq<Item>, n: nat)
    requires n < |Docs(items)|
    ensures DocEntries(user, items)[..n + 1] ==
            DocEntries(user, items)[..n] + [Finished(user, UserSums(InDoc(items, Docs(items)[n])), "", Docs(items)[n])]
  {
  }

  method DocEntriesOf(user: int, docs: seq<string>, byDoc: map<string, seq<UserAnswerInfo>>, ghost items: seq<Item>)
    returns (result: seq<UserTaskEntry>)
    requires docs == Docs(items)
    requires forall d :: d in docs ==> d in byDoc && Contents(byDoc[d], InDoc(items, d))
    ensures fresh(result) && Holds(result, DocEntries(user, items))
  {
    result := [];
    for n := 0 to |docs|
      invariant fresh(result)
      invariant Holds(result, DocEntries(user, items)[..n])
    {
      DocEntriesStep(user, items, n);
      var doc := docs[n];
      var entry := DocEntry(user, doc, byDoc[doc], InDoc(items, doc));
      HoldsMore(result, DocEntries(user, items)[..n], [entry], [Finished(user, UserSums(InDoc(items, doc)), "", doc)]);
      result := result + [entry];
    }
    assert DocEntries(user, items)[..|docs|] == DocEntries(user, items);
  }

  /** The entries of the documents of a user. */
  method DocEntriesFor(user: int, tasks: map<string, UserAnswerInfo>, order: seq<string>, ghost items: seq<Item>)
    returns (result: seq<UserTaskEntry>)
    requires TaskItems(items, tasks, order)
    ensures fresh(result) && Holds(result, DocEntries(user, items))
  {
    var infos := InfosOf(tasks, order, items);
    var docs, byDoc := GroupByDoc(order, infos, items);
    forall d | d in docs
      ensures d in byDoc && Contents(byDoc[d], InDoc(items, d))
    {
      assert byDoc[d] == Listed(byDoc, d);
      PickedContents(order, infos, items, d);
    }
    result := DocEntriesOf(user, docs, byDoc, items);
  }

  method EntriesOfUser(how: By, user: int, tasks: map<string, UserAnswerInfo>, order: seq<string>,
                       ghost items: seq<Item>)
    returns (result: seq<UserTaskEntry>)
    requires TaskItems(items, tasks, order)
    ensures fresh(result) && Holds(result, EntriesBy(how, user, items))
  {
    match how {
      case ByUser => result := UserEntriesOf(user, tasks, order, items);
      case ByTask => result := TaskEntriesOf(user, tasks, order, items);
      case ByDoc => result := DocEntriesFor(user, tasks, order, items);
    }
  }

  /** `collect_by_user`, `collect_by_task` and `collect_by_doc`, which differ in what they make of one user. */
  method Collect(how: By, users: seq<int>, kept: map<int, map<string, UserAnswerInfo>>, order: map<int, seq<string>>,
                 ghost items: map<int, seq<Item>>)
    returns (result: seq<UserTaskEntry>)
    requires AreItems(items, kept, order)
    ensures fresh(result) && Holds(result, ForUsers(how, users, items))
  {
    result := [];
    for n := 0 to |users|
      invariant fresh(result) && AreItems(items, kept, order)
      invariant Holds(result, ForUsers(how, users[..n], items))
    {
      var user := users[n];
      ForUsersStep(how, users, n, items);
      if user in kept {
        var entries := EntriesOfUser(how, user, kept[user], order[user], items[user]);
        HoldsMore(result, ForUsers(how, users[..n], items), entries, EntriesBy(how, user, items[user]));
        result := result + entries;
      }
    }
    assert users[..|users|] == users;
  }
}
