/** What the entries of a user add up, and which tasks belong to which document. */
module EntryLaws {
  import opened Text
  import opened Rounding
  import opened AnswerTally
  import opened Grouping

  // ----- documents -----

  /** The document has no dot in its name, and the task is the document or goes on with a dot. */
  predicate BelongsTo(task: string, doc: string) {
    && (forall i :: 0 <= i < |doc| ==> doc[i] != '.')
    && doc <= task && (|doc| < |task| ==> task[|doc|] == '.')
  }

  lemma {:induction false} DocIsFront(task: string)
    ensures BelongsTo(task, DocOf(task))
  {
    if task != "" && task[0] != '.' {
      DocIsFront(task[1..]);
      assert task == [task[0]] + task[1..];
    }
  }

  lemma OneFront(task: string, d: string, e: string)
    requires BelongsTo(task, d) && BelongsTo(task, e)
    ensures d == e
  {
    assert forall i :: 0 <= i < |d| ==> task[i] == d[i];
    assert forall i :: 0 <= i < |e| ==> task[i] == e[i];
    assert |d| == |e|;
    assert d == task[..|d|] && e == task[..|e|];
  }

  /** The document of a task is the part of its name before the first dot. */
  lemma DocOfMeans(task: string, doc: string)
    ensures DocOf(task) == doc <==> BelongsTo(task, doc)
  {
    DocIsFront(task);
    if BelongsTo(task, doc) {
      OneFront(task, doc, DocOf(task));
    }
  }

  predicate Increasing(places: seq<nat>) {
    forall i, j :: 0 <= i < j < |places| ==> places[i] < places[j]
  }

  /** The places of the tasks of a document. */
  predicate PlacesOf(places: seq<nat>, items: seq<Item>, doc: string) {
    && Increasing(places) && (forall i :: 0 <= i < |places| ==> places[i] < |items|)
    && forall j :: 0 <= j < |items| ==> (j in places <==> BelongsTo(items[j].task, doc))
  }

  lemma PlacesMore(places: seq<nat>, items: seq<Item>, x: Item, doc: string)
    requires PlacesOf(places, items, doc)
    ensures PlacesOf(if BelongsTo(x.task, doc) then places + [|items|] else places, items + [x], doc)
  {
    var more := if BelongsTo(x.task, doc) then places + [|items|] else places;
    forall j | 0 <= j < |items| + 1
      ensures j in more <==> BelongsTo((items + [x])[j].task, doc)
    {
      assert j < |items| ==> (items + [x])[j] == items[j];
    }
  }

  /** A document has the records of exactly its tasks, in their order. */
  lemma {:induction false} DocItems(items: seq<Item>, doc: string) returns (places: seq<nat>)
    ensures PlacesOf(places, items, doc) && |InDoc(items, doc)| == |places|
    ensures forall i :: 0 <= i < |places| ==> InDoc(items, doc)[i] == items[places[i]]
  {
    if items == [] {
      places := [];
    } else {
      var n := |items| - 1;
      var more := DocItems(items[..n], doc);
      DocOfMeans(items[n].task, doc);
      PlacesMore(more, items[..n], items[n], doc);
      InitLast(items);
      places := if BelongsTo(items[n].task, doc) then more + [n] else more;
    }
  }

  /** The first task of the document. */
  predicate FirstAt(items: seq<Item>, k: nat, doc: string) {
    && k < |items| && BelongsTo(items[k].task, doc)
    && forall j :: 0 <= j < k ==> !BelongsTo(items[j].task, doc)
  }

  predicate InSome(task: string, docs: seq<string>) {
    exists i :: 0 <= i < |docs| && BelongsTo(task, docs[i])
  }

  /** The place of the first task of each document; every task belongs to one of them. */
  predicate FirstsOf(firsts: seq<nat>, items: seq<Item>, docs: seq<string>) {
    && |firsts| == |docs| && Increasing(firsts)
    && (forall i :: 0 <= i < |docs| ==> FirstAt(items, firsts[i], docs[i]))
    && (forall j :: 0 <= j < |items| ==> InSome(items[j].task, docs))
  }

  lemma FirstStays(items: seq<Item>, x: Item, k: nat, doc: string)
    requires FirstAt(items, k, doc)
    ensures FirstAt(items + [x], k, doc)
  {
    assert forall j :: 0 <= j < |items| ==> (items + [x])[j] == items[j];
  }

  lemma NotYet(task: string, docs: seq<string>, doc: string)
    requires InSome(task, docs) && doc !in docs
    ensures !BelongsTo(task, doc)
  {
    var i :| 0 <= i < |docs| && BelongsTo(task, docs[i]);
    if BelongsTo(task, doc) {
      OneFront(task, doc, docs[i]);
    }
  }

  lemma NewFirst(items: seq<Item>, x: Item, docs: seq<string>, doc: string)
    requires (forall j :: 0 <= j < |items| ==> InSome(items[j].task, docs)) && doc !in docs
    requires BelongsTo(x.task, doc)
    ensures FirstAt(items + [x], |items|, doc)
  {
    var more := items + [x];
    forall j | 0 <= j < |items|
      ensures !BelongsTo(more[j].task, doc)
    {
      assert more[j] == items[j];
      NotYet(items[j].task, docs, doc);
    }
  }

  lemma InSomeMore(task: string, docs: seq<string>, doc: string)
    requires InSome(task, docs) || BelongsTo(task, doc)
    ensures InSome(task, docs + [doc])
  {
    if InSome(task, docs) {
      var i :| 0 <= i < |docs| && BelongsTo(task, docs[i]);
      assert (docs + [doc])[i] == docs[i];
    } else {
      assert (docs + [doc])[|docs|] == doc;
    }
  }

  lemma FirstsMore(firsts: seq<nat>, items: seq<Item>, docs: seq<string>, x: Item, doc: string)
    requires FirstsOf(firsts, items, docs) && BelongsTo(x.task, doc) && doc !in docs
    ensures FirstsOf(firsts + [|items|], items + [x], docs + [doc])
  {
    var more := items + [x];
    NewFirst(items, x, docs, doc);
    forall i | 0 <= i < |docs| + 1
      ensures FirstAt(more, (firsts + [|items|])[i], (docs + [doc])[i])
    {
      if i < |docs| { FirstStays(items, x, firsts[i], docs[i]); }
    }
    forall j | 0 <= j < |more|
      ensures InSome(more[j].task, docs + [doc])
    {
      InSomeMore(more[j].task, docs, doc);
    }
    assert forall i :: 0 <= i < |firsts| ==> FirstAt(items, firsts[i], docs[i]);
  }

  lemma AllInSome(items: seq<Item>, docs: seq<string>, x: Item)
    requires (forall j :: 0 <= j < |items| ==> InSome(items[j].task, docs)) && InSome(x.task, docs)
    ensures forall j :: 0 <= j < |items| + 1 ==> InSome((items + [x])[j].task, docs)
  {
  }

  lemma FirstsStay(firsts: seq<nat>, items: seq<Item>, docs: seq<string>, x: Item)
    requires FirstsOf(firsts, items, docs) && InSome(x.task, docs)
    ensures FirstsOf(firsts, items + [x], docs)
  {
    AllInSome(items, docs, x);
    forall i | 0 <= i < |docs|
      ensures FirstAt(items + [x], firsts[i], docs[i])
    {
      FirstStays(items, x, firsts[i], docs[i]);
    }
  }

  /** One more task begins a new document or belongs to one that is there. */
  lemma FirstsNext(firsts: seq<nat>, items: seq<Item>, docs: seq<string>, x: Item, doc: string)
    returns (more: seq<nat>)
    requires FirstsOf(firsts, items, docs) && BelongsTo(x.task, doc)
    ensures FirstsOf(more, items + [x], if doc in docs then docs else docs + [doc])
  {
    if doc in docs {
      var k :| 0 <= k < |docs| && docs[k] == doc;
      assert InSome(x.task, docs);
      FirstsStay(firsts, items, docs, x);
      more := firsts;
    } else {
      FirstsMore(firsts, items, docs, x, doc);
      more := firsts + [|items|];
    }
  }

  /** The documents are those of the tasks, in the order of their first tasks. */
  lemma {:induction false} DocsInOrder(items: seq<Item>) returns (firsts: seq<nat>)
    ensures FirstsOf(firsts, items, Docs(items))
  {
    if items == [] {
      firsts := [];
    } else {
      var init, x := items[..|items| - 1], items[|items| - 1];
      firsts := DocsInOrder(init);
      DocIsFront(x.task);
      InitLast(items);
      DocsLast(init, x);
      firsts := FirstsNext(firsts, init, Docs(init), x, DocOf(x.task));
    }
  }

  // ----- what an entry adds up -----

  function Answered(items: seq<Item>): set<nat> {
    set i | 0 <= i < |items| && items[i].info.answerId >= 0
  }

  function Reviewed(items: seq<Item>): set<nat> {
    set i | 0 <= i < |items| && items[i].info.velped
  }

  function Added(xs: seq<Option<real>>): real {
    if xs == [] then 0.0 else (if xs[0].Some? then xs[0].value else 0.0) + Added(xs[1..])
  }

  /** The sum of the values that are there, and nothing if none is. */
  predicate AddsUp(r: Option<real>, xs: seq<Option<real>>) {
    (r.None? <==> forall i :: 0 <= i < |xs| ==> xs[i].None?) && (r.Some? ==> r.value == Added(xs))
  }

  function Points(items: seq<Item>): (r: seq<Option<real>>)
    ensures |r| == |items| && forall i :: 0 <= i < |r| ==> r[i] == items[i].info.points
  {
    seq(|items|, i requires 0 <= i < |items| => items[i].info.points)
  }

  function ReviewPoints(items: seq<Item>): (r: seq<Option<real>>)
    ensures |r| == |items| && forall i :: 0 <= i < |r| ==> r[i] == items[i].info.velpPoints
  {
    seq(|items|, i requires 0 <= i < |items| => items[i].info.velpPoints)
  }

  lemma {:induction false} AddedLast(xs: seq<Option<real>>, x: Option<real>)
    ensures Added(xs + [x]) == Added(xs) + if x.Some? then x.value else 0.0
  {
    if xs == [] {
      assert [] + [x] == [x] && [x][1..] == [];
    } else {
      AppendTail(xs, [x]);
      AddedLast(xs[1..], x);
    }
  }

  lemma AddsUpMore(r: Option<real>, xs: seq<Option<real>>, x: Option<real>)
    requires AddsUp(r, xs)
    ensures AddsUp(Plus(r, x), xs + [x])
  {
    AddedLast(xs, x);
    var all := xs + [x];
    assert all[|xs|] == x && forall i :: 0 <= i < |xs| ==> all[i] == xs[i];
    if r.None? {
      NothingAdded(xs);
    }
  }

  lemma {:induction false} NothingAdded(xs: seq<Option<real>>)
    requires forall i :: 0 <= i < |xs| ==> xs[i].None?
    ensures Added(xs) == 0.0
  {
    if xs != [] {
      NothingAdded(xs[1..]);
    }
  }

  /** What the sums of a user mean for the records. */
  predicate AddedUp(s: Sums, items: seq<Item>) {
    && s.tasks == |Answered(items)| && s.velped == |Reviewed(items)|
    && AddsUp(s.task, Points(items)) && AddsUp(s.velp, ReviewPoints(items))
  }

  lemma OneMoreIn(a: set<nat>, b: set<nat>, n: nat, more: bool)
    requires n !in a && forall i :: i in b <==> i in a || (i == n && more)
    ensures |b| == |a| + if more then 1 else 0
  {
    assert b == if more then a + {n} else a;
  }

  lemma AnsweredLast(items: seq<Item>, x: Item)
    ensures |Answered(items + [x])| == |Answered(items)| + if x.info.answerId >= 0 then 1 else 0
  {
    OneMoreIn(Answered(items), Answered(items + [x]), |items|, x.info.answerId >= 0);
  }

  lemma ReviewedLast(items: seq<Item>, x: Item)
    ensures |Reviewed(items + [x])| == |Reviewed(items)| + if x.info.velped then 1 else 0
  {
    OneMoreIn(Reviewed(items), Reviewed(items + [x]), |items|, x.info.velped);
  }

  lemma AddedUpMore(s: Sums, items: seq<Item>, x: Item)
    requires AddedUp(s, items)
    ensures AddedUp(Merge(s, SumsOf(x.info)), items + [x])
  {
    AnsweredLast(items, x);
    ReviewedLast(items, x);
    assert Points(items + [x]) == Points(items) + [x.info.points];
    assert ReviewPoints(items + [x]) == ReviewPoints(items) + [x.info.velpPoints];
    AddsUpMore(s.task, Points(items), x.info.points);
    AddsUpMore(s.velp, ReviewPoints(items), x.info.velpPoints);
  }

  /**
   An entry counts the answered and the reviewed tasks of its records and adds up their points; so does the
   entry of a document for the records of that document.
   */
  lemma {:induction false} EntryAddsUp(items: seq<Item>)
    ensures AddedUp(UserSums(items), items)
  {
    if items == [] {
      assert Answered(items) == {} && Reviewed(items) == {};
    } else {
      var n := |items| - 1;
      EntryAddsUp(items[..n]);
      InitLast(items);
      UserSumsLast(items[..n], items[n]);
      AddedUpMore(UserSums(items[..n]), items[..n], items[n]);
    }
  }

  // ----- the entries of a user -----

  /** The entry has the sums, points rounded to four decimals, and the total and the duration that follow. */
  predicate EntryOf(e: Entry, user: int, s: Sums, task: string, doc: string) {
    && e.user == user && e.taskId == task && e.docId == doc
    && e.tally.tasks == s.tasks && e.tally.velped == s.velped && e.tally.first == s.first && e.tally.last == s.last
    && e.tally.task == Round4Option(s.task) && e.tally.velp == Round4Option(s.velp)
    && (e.totalPoints.None? <==> s.task.None? && s.velp.None?)
    && (e.totalPoints.Some? ==> e.totalPoints.value == Round4(Added([s.task, s.velp])))
    && (e.duration.Some? <==> s.first.Some? && s.last.Some?)
    && (e.duration.Some? ==> e.duration.value == s.last.value - s.first.value)
  }

  lemma FinishedIs(user: int, s: Sums, task: string, doc: string)
    ensures EntryOf(Finished(user, s, task, doc), user, s, task, doc)
  {
    assert [s.task, s.velp][1..] == [s.velp] && [s.velp][1..] == [];
    assert Added([s.velp]) == if s.velp.Some? then s.velp.value else 0.0;
  }

  /**
   Grouped by user, a user with records has one entry for all of them; by task, one for each record under its
   task; by document, one for each document with the records of its tasks.
   */
  lemma {:induction false} EntriesMean(how: By, user: int, items: seq<Item>)
    ensures how.ByUser? && items != [] ==>
              |EntriesBy(how, user, items)| == 1 &&
              EntryOf(EntriesBy(how, user, items)[0], user, UserSums(items), "", "")
    ensures how.ByUser? && items == [] ==> EntriesBy(how, user, items) == []
    ensures how.ByTask? ==> |EntriesBy(how, user, items)| == |items|
    ensures how.ByTask? ==> forall i :: 0 <= i < |items| ==>
              EntryOf(EntriesBy(how, user, items)[i], user, UserSums([items[i]]), items[i].task, "")
    ensures how.ByDoc? ==> |EntriesBy(how, user, items)| == |Docs(items)|
    ensures how.ByDoc? ==> forall i :: 0 <= i < |Docs(items)| ==>
              var doc := Docs(items)[i];
              EntryOf(EntriesBy(how, user, items)[i], user, UserSums(InDoc(items, doc)), "", doc)
  {
    match how {
      case ByUser => FinishedIs(user, UserSums(items), "", "");
      case ByTask =>
        forall i | 0 <= i < |items|
          ensures EntryOf(TaskEntries(user, items)[i], user, UserSums([items[i]]), items[i].task, "")
        {
          OneRecord(items[i]);
          FinishedIs(user, SumsOf(items[i].info), items[i].task, "");
        }
      case ByDoc =>
        forall i | 0 <= i < |Docs(items)|
          ensures EntryOf(DocEntries(user, items)[i], user, UserSums(InDoc(items, Docs(items)[i])), "", Docs(items)[i])
        {
          FinishedIs(user, DocSums(items)[i], "", Docs(items)[i]);
        }
    }
  }

  lemma OneRecord(x: Item)
    ensures UserSums([x]) == SumsOf(x.info)
  {
    UserSumsLast([], x);
    assert [] + [x] == [x];
    MergeLaws(SumsOf(x.info), NOTHING, NOTHING);
    assert UserSums([]) == NOTHING;
  }
}
