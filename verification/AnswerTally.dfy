/**
 Collecting the answers of users to tasks: the latest answers are found in one pass over the rows, in
 any order, one of them is selected per user and task, and review points are added to it.
 */
module AnswerTally {
  import opened Text

  /** One answer of one user; rows of a shared answer differ only in the user. */
  datatype Row = Row(answerId: int, taskId: string, points: Option<real>, valid: bool, answeredOn: int, userId: int)

  /** A review annotation of an answer. */
  datatype Annotation = Annotation(answerId: int, points: Option<real>)

  datatype CountRule = OnlyValid | ValidThenInvalid | AnyAnswer

  datatype Single = Single(answerId: int, points: Option<real>)

  /** The latest answer and the latest valid answer. */
  datatype Latest = Latest(any: Option<Single>, valid: Option<Single>)

  datatype Key = Key(user: int, task: string)

  /** The contents of a tally record. */
  datatype Info = Info(
    answeredOnMin: Option<int>, answeredOnMax: Option<int>, answerId: int, points: Option<real>,
    velpPoints: Option<real>, velped: bool)

  class UserAnswerInfo {
    var answeredOnMin: Option<int>
    var answeredOnMax: Option<int>
    var answerId: int
    var points: Option<real>
    var velpPoints: Option<real>
    var velped: bool

    constructor ()
      ensures View() == Info(None, None, -1, None, None, false)
    {
      answeredOnMin, answeredOnMax, answerId, points, velpPoints, velped := None, None, -1, None, None, false;
    }

    function View(): Info
      reads this
    {
      Info(answeredOnMin, answeredOnMax, answerId, points, velpPoints, velped)
    }

    method NoteTime(at: int)
      modifies this
      ensures View() == old(View()).(answeredOnMin := Earliest(old(answeredOnMin), at),
                                     answeredOnMax := Newest(old(answeredOnMax), at))
    {
      if answeredOnMax.None? || at > answeredOnMax.value {
        answeredOnMax := Some(at);
      }
      if answeredOnMin.None? || at < answeredOnMin.value {
        answeredOnMin := Some(at);
      }
    }

    method Select(s: Single)
      modifies this
      ensures View() == old(View()).(answerId := s.answerId, points := s.points)
    {
      answerId := s.answerId;
      points := s.points;
    }

    method AddVelp(p: real)
      modifies this
      ensures View() == old(View()).(velpPoints := Some(OrZero(old(velpPoints)) + p), velped := true)
    {
      if velpPoints.None? {
        velpPoints := Some(0.0);
      }
      velpPoints := Some(velpPoints.value + p);
      velped := true;
    }
  }

  function OrZero(x: Option<real>): real {
    if x.Some? then x.value else 0.0
  }

  function Earliest(t: Option<int>, at: int): Option<int> {
    if t.None? || at < t.value then Some(at) else t
  }

  function Newest(t: Option<int>, at: int): Option<int> {
    if t.None? || at > t.value then Some(at) else t
  }

  // ----- what one pass over the rows finds -----

  function KeyOf(r: Row): Key {
    Key(r.userId, r.taskId)
  }

  function Newer(s: Option<Single>, r: Row): Option<Single> {
    if s.None? || r.answerId > s.value.answerId then Some(Single(r.answerId, r.points)) else s
  }

  function LatestIn(rows: seq<Row>, k: Key): Latest {
    if rows == [] then Latest(None, None)
    else
      var before := LatestIn(rows[..|rows| - 1], k);
      var r := rows[|rows| - 1];
      if KeyOf(r) != k then before
      else Latest(Newer(before.any, r), if r.valid then Newer(before.valid, r) else before.valid)
  }

  function TimesIn(rows: seq<Row>, k: Key): (Option<int>, Option<int>) {
    if rows == [] then (None, None)
    else
      var before := TimesIn(rows[..|rows| - 1], k);
      var r := rows[|rows| - 1];
      if KeyOf(r) != k then before else (Earliest(before.0, r.answeredOn), Newest(before.1, r.answeredOn))
  }

  predicate HasRow(rows: seq<Row>, k: Key) {
    exists i :: 0 <= i < |rows| && KeyOf(rows[i]) == k
  }

  /** A record after the pass, before anything is selected. */
  function Collected(rows: seq<Row>, k: Key, withTime: bool): Info {
    var times := if withTime then TimesIn(rows, k) else (None, None);
    Info(times.0, times.1, -1, None, None, false)
  }

  function Chosen(l: Latest, rule: CountRule): Option<Single> {
    match rule
    case OnlyValid => l.valid
    case ValidThenInvalid => if l.valid.Some? then l.valid else l.any
    case AnyAnswer => l.any
  }

  predicate Nonzero(p: Option<real>) {
    p.Some? && p.value != 0.0
  }

  /** The sum of the nonzero annotations of an answer, none if there are none. */
  function VelpSum(annotations: seq<Annotation>, answerId: int): Option<real> {
    if annotations == [] then None
    else
      var before := VelpSum(annotations[..|annotations| - 1], answerId);
      var a := annotations[|annotations| - 1];
      if a.answerId == answerId && Nonzero(a.points) then Some(OrZero(before) + a.points.value) else before
  }

  /** The final record of a kept pair. */
  function Tallied(rows: seq<Row>, annotations: seq<Annotation>, k: Key, s: Single, withTime: bool): Info {
    var velp := VelpSum(annotations, s.answerId);
    Collected(rows, k, withTime).(answerId := s.answerId, points := s.points, velpPoints := velp, velped := velp.Some?)
  }

  // ----- what "latest" means -----

  /** The newest row of the pair, among the valid ones only or among all. */
  predicate IsNewest(rows: seq<Row>, k: Key, validOnly: bool, s: Option<Single>) {
    if s.None? then forall i :: 0 <= i < |rows| && KeyOf(rows[i]) == k ==> validOnly && !rows[i].valid
    else
      && (exists i :: 0 <= i < |rows| && KeyOf(rows[i]) == k && (validOnly ==> rows[i].valid) &&
            rows[i].answerId == s.value.answerId && rows[i].points == s.value.points)
      && forall i :: 0 <= i < |rows| && KeyOf(rows[i]) == k && (validOnly ==> rows[i].valid) ==>
           rows[i].answerId <= s.value.answerId
  }

  lemma {:induction false} NewestStep(rows: seq<Row>, k: Key, validOnly: bool, s: Option<Single>)
    requires rows != [] && IsNewest(rows[..|rows| - 1], k, validOnly, s)
    ensures var r := rows[|rows| - 1];
            IsNewest(rows, k, validOnly, if KeyOf(r) == k && (validOnly ==> r.valid) then Newer(s, r) else s)
  {
    var n := |rows| - 1;
    assert forall i :: 0 <= i < n ==> rows[..n][i] == rows[i];
    if s.Some? {
      var i :| 0 <= i < n && KeyOf(rows[..n][i]) == k && (validOnly ==> rows[..n][i].valid) &&
              rows[..n][i].answerId == s.value.answerId && rows[..n][i].points == s.value.points;
      assert rows[i].answerId == s.value.answerId && rows[i].points == s.value.points;
    }
  }

  /** The pass finds the answer with the largest id and the valid answer with the largest id. */
  lemma {:induction false} LatestIsNewest(rows: seq<Row>, k: Key)
    ensures IsNewest(rows, k, false, LatestIn(rows, k).any)
    ensures IsNewest(rows, k, true, LatestIn(rows, k).valid)
  {
    if rows != [] {
      var n := |rows| - 1;
      LatestIsNewest(rows[..n], k);
      NewestStep(rows, k, false, LatestIn(rows[..n], k).any);
      NewestStep(rows, k, true, LatestIn(rows[..n], k).valid);
    }
  }

  /** Rows of one answer agree on everything but the user, as rows of a join do. */
  predicate Joined(rows: seq<Row>) {
    forall i, j :: 0 <= i < |rows| && 0 <= j < |rows| && rows[i].answerId == rows[j].answerId ==>
      rows[i].(userId := 0) == rows[j].(userId := 0)
  }

  predicate SameRows(rows: seq<Row>, other: seq<Row>) {
    (forall i :: 0 <= i < |rows| ==> rows[i] in other) && forall i :: 0 <= i < |other| ==> other[i] in rows
  }

  lemma {:induction false} NewestUnique(rows: seq<Row>, other: seq<Row>, k: Key, validOnly: bool, s: Option<Single>,
                                        t: Option<Single>)
    requires Joined(rows) && SameRows(rows, other)
    requires IsNewest(rows, k, validOnly, s) && IsNewest(other, k, validOnly, t)
    ensures s == t
  {
    if s.Some? {
      var i :| 0 <= i < |rows| && KeyOf(rows[i]) == k && (validOnly ==> rows[i].valid) &&
              rows[i].answerId == s.value.answerId && rows[i].points == s.value.points;
      assert rows[i] in other;
      var j' :| 0 <= j' < |other| && other[j'] == rows[i];
      var j :| 0 <= j < |other| && KeyOf(other[j]) == k && (validOnly ==> other[j].valid) &&
              other[j].answerId == t.value.answerId && other[j].points == t.value.points;
      assert other[j] in rows;
      var i' :| 0 <= i' < |rows| && rows[i'] == other[j];
      assert rows[i].answerId <= t.value.answerId && rows[i'].answerId <= s.value.answerId;
      assert rows[i].(userId := 0) == rows[i'].(userId := 0);
      assert rows[i].(userId := 0).points == rows[i].points && rows[i'].(userId := 0).points == rows[i'].points;
    } else {
      forall i | 0 <= i < |other| && KeyOf(other[i]) == k
        ensures validOnly && !other[i].valid
      {
        assert other[i] in rows;
      }
    }
  }

  /** The earliest and the latest time of the rows of a pair. */
  predicate AreTimes(rows: seq<Row>, k: Key, times: (Option<int>, Option<int>)) {
    && (times.0.Some? <==> HasRow(rows, k)) && (times.1.Some? <==> HasRow(rows, k))
    && (HasRow(rows, k) ==>
          && (exists i :: 0 <= i < |rows| && KeyOf(rows[i]) == k && rows[i].answeredOn == times.0.value)
          && (exists i :: 0 <= i < |rows| && KeyOf(rows[i]) == k && rows[i].answeredOn == times.1.value)
          && forall i :: 0 <= i < |rows| && KeyOf(rows[i]) == k ==>
               times.0.value <= rows[i].answeredOn <= times.1.value)
  }

  lemma {:induction false} TimesAreExtremes(rows: seq<Row>, k: Key)
    ensures AreTimes(rows, k, TimesIn(rows, k))
  {
    if rows != [] {
      var n := |rows| - 1;
      TimesAreExtremes(rows[..n], k);
      assert forall i :: 0 <= i < n ==> rows[..n][i] == rows[i];
      RowStep(rows, n);
      assert rows[..n + 1] == rows;
      if HasRow(rows[..n], k) {
        var i :| 0 <= i < n && KeyOf(rows[..n][i]) == k && rows[..n][i].answeredOn == TimesIn(rows[..n], k).0.value;
        var j :| 0 <= j < n && KeyOf(rows[..n][j]) == k && rows[..n][j].answeredOn == TimesIn(rows[..n], k).1.value;
        assert KeyOf(rows[i]) == k && KeyOf(rows[j]) == k;
      }
    }
  }

  lemma {:induction false} TimesUnique(rows: seq<Row>, other: seq<Row>, k: Key)
    requires SameRows(rows, other)
    ensures TimesIn(rows, k) == TimesIn(other, k)
  {
    TimesAreExtremes(rows, k);
    TimesAreExtremes(other, k);
    if HasRow(rows, k) {
      var i :| 0 <= i < |rows| && KeyOf(rows[i]) == k;
      assert rows[i] in other;
      assert HasRow(other, k);
      OneSided(rows, other, k);
      OneSided(other, rows, k);
    } else {
      forall i | 0 <= i < |other|
        ensures KeyOf(other[i]) != k
      {
        assert other[i] in rows;
      }
    }
  }

  lemma OneSided(rows: seq<Row>, other: seq<Row>, k: Key)
    requires forall i :: 0 <= i < |rows| ==> rows[i] in other
    requires HasRow(rows, k) && HasRow(other, k)
    requires AreTimes(rows, k, TimesIn(rows, k)) && AreTimes(other, k, TimesIn(other, k))
    ensures TimesIn(other, k).0.value <= TimesIn(rows, k).0.value
    ensures TimesIn(rows, k).1.value <= TimesIn(other, k).1.value
  {
    var i :| 0 <= i < |rows| && KeyOf(rows[i]) == k && rows[i].answeredOn == TimesIn(rows, k).0.value;
    var j :| 0 <= j < |rows| && KeyOf(rows[j]) == k && rows[j].answeredOn == TimesIn(rows, k).1.value;
    assert rows[i] in other && rows[j] in other;
  }

  /** The order of the rows makes no difference to what is selected or to the times. */
  lemma {:induction false} RowOrderIrrelevant(rows: seq<Row>, other: seq<Row>, k: Key)
    requires Joined(rows) && SameRows(rows, other)
    ensures LatestIn(rows, k) == LatestIn(other, k) && TimesIn(rows, k) == TimesIn(other, k)
  {
    LatestIsNewest(rows, k);
    LatestIsNewest(other, k);
    NewestUnique(rows, other, k, false, LatestIn(rows, k).any, LatestIn(other, k).any);
    NewestUnique(rows, other, k, true, LatestIn(rows, k).valid, LatestIn(other, k).valid);
    TimesUnique(rows, other, k);
  }

  // ----- what a count rule selects -----

  /** The answer of the pair with the largest id, among its valid rows only or among all of its rows. */
  predicate IsLargest(rows: seq<Row>, user: int, task: string, validOnly: bool, answerId: int, points: Option<real>) {
    && (exists i :: 0 <= i < |rows| && rows[i].userId == user && rows[i].taskId == task &&
          (validOnly ==> rows[i].valid) && rows[i].answerId == answerId && rows[i].points == points)
    && forall i :: 0 <= i < |rows| && rows[i].userId == user && rows[i].taskId == task && (validOnly ==> rows[i].valid)
         ==> rows[i].answerId <= answerId
  }

  predicate HasValidRow(rows: seq<Row>, user: int, task: string) {
    exists i :: 0 <= i < |rows| && rows[i].userId == user && rows[i].taskId == task && rows[i].valid
  }

  predicate HasAnyRow(rows: seq<Row>, user: int, task: string) {
    exists i :: 0 <= i < |rows| && rows[i].userId == user && rows[i].taskId == task
  }

  lemma {:induction false} NewestIsLargest(rows: seq<Row>, k: Key, validOnly: bool, s: Option<Single>)
    requires IsNewest(rows, k, validOnly, s)
    ensures s.Some? <==> if validOnly then HasValidRow(rows, k.user, k.task) else HasAnyRow(rows, k.user, k.task)
    ensures s.Some? ==> IsLargest(rows, k.user, k.task, validOnly, s.value.answerId, s.value.points)
  {
    assert forall i :: 0 <= i < |rows| ==>
             (KeyOf(rows[i]) == k <==> rows[i].userId == k.user && rows[i].taskId == k.task);
    if s.Some? {
      var i :| 0 <= i < |rows| && KeyOf(rows[i]) == k && (validOnly ==> rows[i].valid) &&
              rows[i].answerId == s.value.answerId && rows[i].points == s.value.points;
      assert rows[i].userId == k.user && rows[i].taskId == k.task;
    }
  }

  /** Whether a pair has a selected answer, and which one: in terms of its rows alone. */
  predicate SelectsByRule(rows: seq<Row>, user: int, task: string, rule: CountRule, s: Option<Single>) {
    var hasValid, hasAny := HasValidRow(rows, user, task), HasAnyRow(rows, user, task);
    match rule
    case OnlyValid =>
      && (s.Some? <==> hasValid)
      && (s.Some? ==> IsLargest(rows, user, task, true, s.value.answerId, s.value.points))
    case AnyAnswer =>
      && (s.Some? <==> hasAny)
      && (s.Some? ==> IsLargest(rows, user, task, false, s.value.answerId, s.value.points))
    case ValidThenInvalid =>
      && (s.Some? <==> hasAny)
      && (s.Some? ==> IsLargest(rows, user, task, hasValid, s.value.answerId, s.value.points))
  }

  /** A rule selects the valid answer or any answer with the largest id, as its name says. */
  lemma {:induction false} RuleSelects(rows: seq<Row>, k: Key, rule: CountRule)
    ensures SelectsByRule(rows, k.user, k.task, rule, SelectedIn(rows, k, rule))
  {
    LatestIsNewest(rows, k);
    NewestIsLargest(rows, k, false, LatestIn(rows, k).any);
    NewestIsLargest(rows, k, true, LatestIn(rows, k).valid);
    if i :| 0 <= i < |rows| && rows[i].userId == k.user && rows[i].taskId == k.task && rows[i].valid {
      assert HasAnyRow(rows, k.user, k.task);
    }
  }

  // ----- the order of the annotations -----

  function WithVelp(v: Option<real>, a: Annotation, id: int): Option<real> {
    if a.answerId == id && Nonzero(a.points) then Some(OrZero(v) + a.points.value) else v
  }

  lemma {:induction false} VelpTakenOut(xs: seq<Annotation>, i: nat, id: int)
    requires i < |xs|
    ensures VelpSum(xs, id) == WithVelp(VelpSum(xs[..i] + xs[i + 1..], id), xs[i], id)
    decreases |xs|
  {
    var n := |xs| - 1;
    if i == n {
      assert xs[..i] + xs[i + 1..] == xs[..n];
    } else {
      var ys := xs[..n];
      VelpTakenOut(ys, i, id);
      var zs := xs[..i] + xs[i + 1..];
      assert zs[..|zs| - 1] == ys[..i] + ys[i + 1..] && zs[|zs| - 1] == xs[n];
    }
  }

  lemma BagOut(xs: seq<Annotation>, i: nat)
    requires i < |xs|
    ensures multiset(xs[..i] + xs[i + 1..]) == multiset(xs) - multiset{xs[i]}
  {
    assert xs == xs[..i] + [xs[i]] + xs[i + 1..];
  }

  lemma FindAnnotation(xs: seq<Annotation>, ys: seq<Annotation>) returns (i: nat)
    requires multiset(xs) == multiset(ys) && xs != []
    ensures |xs| == |ys| && i < |ys| && ys[i] == xs[|xs| - 1]
  {
    assert |multiset(xs)| == |multiset(ys)|;
    var a := xs[|xs| - 1];
    assert a in multiset(xs);
    assert a in multiset(ys);
    i :| 0 <= i < |ys| && ys[i] == a;
  }

  lemma BagsAfter(xs: seq<Annotation>, ys: seq<Annotation>, n: nat, i: nat)
    requires |xs| == n + 1 && i < |ys| && ys[i] == xs[n] && multiset(xs) == multiset(ys)
    ensures multiset(xs[..n]) == multiset(ys[..i] + ys[i + 1..])
  {
    BagOut(ys, i);
    BagOut(xs, n);
    assert xs[..n] + xs[n + 1..] == xs[..n];
  }

  /** Review points do not depend on the order of the annotations. */
  lemma {:induction false} AnnotationOrderIrrelevant(xs: seq<Annotation>, ys: seq<Annotation>, id: int)
    requires multiset(xs) == multiset(ys)
    ensures VelpSum(xs, id) == VelpSum(ys, id)
    decreases |xs|
  {
    if xs == [] {
      assert |multiset(ys)| == 0;
    } else {
      var n := |xs| - 1;
      var i := FindAnnotation(xs, ys);
      VelpTakenOut(ys, i, id);
      BagsAfter(xs, ys, n, i);
      AnnotationOrderIrrelevant(xs[..n], ys[..i] + ys[i + 1..], id);
    }
  }

  /** The nonzero points that annotations give an answer. */
  predicate Gives(a: Annotation, id: int) {
    a.answerId == id && a.points.Some? && a.points.value != 0.0
  }

  /** Review points: none without annotations that give some; every annotation adds the points it gives. */
  lemma {:induction false} VelpSumMeans(xs: seq<Annotation>, i: nat, id: int)
    ensures VelpSum(xs, id).Some? <==> exists j :: 0 <= j < |xs| && Gives(xs[j], id)
    ensures i < |xs| ==>
              OrZero(VelpSum(xs, id)) ==
              OrZero(VelpSum(xs[..i] + xs[i + 1..], id)) + if Gives(xs[i], id) then xs[i].points.value else 0.0
  {
    GivesSome(xs, id);
    if i < |xs| {
      VelpTakenOut(xs, i, id);
    }
  }

  lemma {:induction false} GivesSome(xs: seq<Annotation>, id: int)
    ensures VelpSum(xs, id).Some? <==> exists j :: 0 <= j < |xs| && Gives(xs[j], id)
  {
    if xs != [] {
      var n := |xs| - 1;
      GivesSome(xs[..n], id);
      assert forall j :: 0 <= j < n ==> xs[..n][j] == xs[j];
      if j :| 0 <= j < n && Gives(xs[..n][j], id) {
        assert Gives(xs[j], id);
      }
      if Gives(xs[n], id) {
        assert VelpSum(xs, id).Some?;
      }
    }
  }

  // ----- the passes over mutable records -----

  predicate InTally(m: map<int, map<string, UserAnswerInfo>>, k: Key) {
    k.user in m && k.task in m[k.user]
  }

  /** Distinct pairs have distinct records, and no user is left without tasks. */
  ghost predicate Separate(m: map<int, map<string, UserAnswerInfo>>) {
    && (forall k, l :: InTally(m, k) && InTally(m, l) && m[k.user][k.task] == m[l.user][l.task] ==> k == l)
    && (forall u :: u in m ==> m[u] != map[])
  }

  function TasksOf(m: map<int, map<string, UserAnswerInfo>>, user: int): map<string, UserAnswerInfo> {
    if user in m then m[user] else map[]
  }

  function Put(m: map<int, map<string, UserAnswerInfo>>, k: Key, info: UserAnswerInfo): map<int, map<string,
               UserAnswerInfo>> {
    m[k.user := TasksOf(m, k.user)[k.task := info]]
  }

  /** The record of a pair, made when it is first asked for. */
  method Record(infos: map<int, map<string, UserAnswerInfo>>, k: Key) returns (m: map<int, map<string, UserAnswerInfo>>)
    requires Separate(infos)
    ensures Separate(m)
    ensures forall l :: InTally(m, l) <==> InTally(infos, l) || l == k
    ensures forall l :: InTally(infos, l) ==> m[l.user][l.task] == infos[l.user][l.task]
    ensures fresh(Records(m) - Records(infos))
    ensures !InTally(infos, k) ==>
              fresh(m[k.user][k.task]) &&
              m[k.user][k.task].View() == Info(None, None, -1, None, None, false)
  {
    m := infos;
    if !InTally(infos, k) {
      var info := new UserAnswerInfo();
      m := Put(infos, k, info);
      assert k.task in m[k.user];
      forall o | o in Records(m)
        ensures o == info || o in Records(infos)
      {
        var u, t :| u in m && t in m[u] && m[u][t] == o;
        assert Key(u, t) == k || InTally(infos, Key(u, t));
      }
    }
  }

  /** The latest answers of a pair with one more row. */
  function LatestStep(l: Latest, r: Row): Latest {
    Latest(Newer(l.any, r), if r.valid then Newer(l.valid, r) else l.valid)
  }

  method UpdateLatest(latest: map<Key, Latest>, r: Row) returns (m: map<Key, Latest>)
    ensures m == Extended(latest, r)
  {
    var l := if KeyOf(r) in latest then latest[KeyOf(r)] else Latest(None, None);
    var any, valid := l.any, l.valid;
    if any.None? || r.answerId > any.value.answerId {
      any := Some(Single(r.answerId, r.points));
    }
    if r.valid && (valid.None? || r.answerId > valid.value.answerId) {
      valid := Some(Single(r.answerId, r.points));
    }
    m := latest[KeyOf(r) := Latest(any, valid)];
  }

  ghost function Records(m: map<int, map<string, UserAnswerInfo>>): set<UserAnswerInfo> {
    set u, t | u in m && t in m[u] :: m[u][t]
  }

  /** One record for every pair with a row, holding what the rows say. */
  ghost predicate RecordsAre(infos: map<int, map<string, UserAnswerInfo>>, rows: seq<Row>, withTime: bool)
    reads Records(infos)
  {
    && (forall k :: InTally(infos, k) <==> HasRow(rows, k))
    && forall k :: InTally(infos, k) ==> infos[k.user][k.task].View() == Collected(rows, k, withTime)
  }

  ghost predicate LatestAre(latest: map<Key, Latest>, rows: seq<Row>) {
    (forall k :: k in latest <==> HasRow(rows, k)) && forall k :: k in latest ==> latest[k] == LatestIn(rows, k)
  }

  lemma RecordIn(m: map<int, map<string, UserAnswerInfo>>, k: Key)
    requires InTally(m, k)
    ensures m[k.user][k.task] in Records(m)
  {
  }

  /** What one more row does to the record of its pair and to the others. */
  lemma CollectedStep(rows: seq<Row>, n: nat, withTime: bool)
    requires n < |rows|
    ensures forall k :: k != KeyOf(rows[n]) ==> Collected(rows[..n + 1], k, withTime) == Collected(rows[..n], k,
      withTime)
    ensures var k := KeyOf(rows[n]); var before := Collected(rows[..n], k, withTime);
            Collected(rows[..n + 1], k, withTime) ==
            if withTime then before.(answeredOnMin := Earliest(before.answeredOnMin, rows[n].answeredOn),
                                     answeredOnMax := Newest(before.answeredOnMax, rows[n].answeredOn))
            else before
  {
    assert rows[..n + 1][..n] == rows[..n] && rows[..n + 1][n] == rows[n];
  }

  method CollectRow(infos: map<int, map<string, UserAnswerInfo>>, rows: seq<Row>, n: nat, withTime: bool)
    returns (m: map<int, map<string, UserAnswerInfo>>)
    requires n < |rows| && Separate(infos) && RecordsAre(infos, rows[..n], withTime)
    modifies Records(infos)
    ensures Separate(m) && RecordsAre(m, rows[..n + 1], withTime)
    ensures fresh(Records(m) - Records(infos))
  {
    var k := KeyOf(rows[n]);
    RowStep(rows, n);
    NoRowNothing(rows[..n], k);
    CollectedStep(rows, n, withTime);
    m := Record(infos, k);
    var info := m[k.user][k.task];
    if InTally(infos, k) {
      RecordIn(infos, k);
    }
    if withTime {
      info.NoteTime(rows[n].answeredOn);
    }
  }

  function Extended(latest: map<Key, Latest>, r: Row): map<Key, Latest> {
    latest[KeyOf(r) := LatestStep(if KeyOf(r) in latest then latest[KeyOf(r)] else Latest(None, None), r)]
  }

  lemma LatestAfter(latest: map<Key, Latest>, rows: seq<Row>, n: nat)
    requires n < |rows| && LatestAre(latest, rows[..n])
    ensures LatestAre(Extended(latest, rows[n]), rows[..n + 1])
  {
    RowStep(rows, n);
    NoRowNothing(rows[..n], KeyOf(rows[n]));
    var m := Extended(latest, rows[n]);
    forall k | k in m
      ensures m[k] == LatestIn(rows[..n + 1], k)
    {
      assert rows[..n + 1][..n] == rows[..n];
    }
  }

  /** Steps 1 and 2: a record for every pair with a row, and the latest answers of each pair. */
  method CollectRows(rows: seq<Row>, withTime: bool)
    returns (infos: map<int, map<string, UserAnswerInfo>>, latest: map<Key, Latest>)
    ensures Separate(infos) && fresh(Records(infos))
    ensures RecordsAre(infos, rows, withTime) && LatestAre(latest, rows)
  {
    infos, latest := map[], map[];
    for n := 0 to |rows|
      invariant Separate(infos) && fresh(Records(infos))
      invariant RecordsAre(infos, rows[..n], withTime)
      invariant LatestAre(latest, rows[..n])
    {
      infos := CollectRow(infos, rows, n, withTime);
      ghost var before := latest;
      latest := UpdateLatest(latest, rows[n]);
      LatestAfter(before, rows, n);
    }
    assert rows[..|rows|] == rows;
  }

  lemma RowStep(rows: seq<Row>, n: nat)
    requires n < |rows|
    ensures rows[..n + 1][..n] == rows[..n] && rows[..n + 1][n] == rows[n]
    ensures forall k :: HasRow(rows[..n + 1], k) <==> HasRow(rows[..n], k) || k == KeyOf(rows[n])
  {
    assert rows[..n + 1][..n] == rows[..n];
    forall k
      ensures HasRow(rows[..n + 1], k) <==> HasRow(rows[..n], k) || k == KeyOf(rows[n])
    {
      if HasRow(rows[..n], k) {
        var i :| 0 <= i < n && KeyOf(rows[..n][i]) == k;
        assert KeyOf(rows[..n + 1][i]) == k;
      }
      if k == KeyOf(rows[n]) {
        assert KeyOf(rows[..n + 1][n]) == k;
      }
      if HasRow(rows[..n + 1], k) && k != KeyOf(rows[n]) {
        var i :| 0 <= i < n + 1 && KeyOf(rows[..n + 1][i]) == k;
        assert KeyOf(rows[..n][i]) == k;
      }
    }
  }

  lemma {:induction false} NoRowNothing(rows: seq<Row>, k: Key)
    ensures !HasRow(rows, k) ==> LatestIn(rows, k) == Latest(None, None) && TimesIn(rows, k) == (None, None)
  {
    if rows != [] {
      RowStep(rows, |rows| - 1);
      assert rows[..|rows|] == rows;
      NoRowNothing(rows[..|rows| - 1], k);
    }
  }

  // ----- selecting an answer for every pair -----

  predicate NoDuplicates(os: seq<UserAnswerInfo>) {
    forall i, j :: 0 <= i < j < |os| ==> os[i] != os[j]
  }

  /** The answer selected for a pair. */
  function ChosenFor(latest: map<Key, Latest>, k: Key, rule: CountRule): Option<Single> {
    if k in latest then Chosen(latest[k], rule) else None
  }

  /** The pair is done and its answer `a` was selected. */
  predicate Files(infos: map<int, map<string, UserAnswerInfo>>, latest: map<Key, Latest>, rule: CountRule,
                  done: set<Key>, k: Key, a: int) {
    var c := ChosenFor(latest, k, rule);
    k in done && c.Some? && c.value.answerId == a && InTally(infos, k)
  }

  /** The record of some finished pair with that answer. */
  ghost predicate HeldBy(infos: map<int, map<string, UserAnswerInfo>>, latest: map<Key, Latest>, rule: CountRule,
                         done: set<Key>, a: int, o: UserAnswerInfo) {
    exists k :: Files(infos, latest, rule, done, k, a) && infos[k.user][k.task] == o
  }

  /** The records by selected answer: each record of a finished pair once, under its answer. */
  ghost predicate IndexIs(byAnswer: map<int, seq<UserAnswerInfo>>, infos: map<int, map<string, UserAnswerInfo>>,
                          latest: map<Key, Latest>, rule: CountRule, done: set<Key>) {
    && (forall a :: a in byAnswer ==> NoDuplicates(byAnswer[a]))
    && (forall a, i :: a in byAnswer && 0 <= i < |byAnswer[a]| ==>
          HeldBy(infos, latest, rule, done, a, byAnswer[a][i]))
    && (forall k, a :: Files(infos, latest, rule, done, k, a) ==> a in byAnswer && infos[k.user][k.task] in byAnswer[a])
  }

  function Filed(byAnswer: map<int, seq<UserAnswerInfo>>, a: int): seq<UserAnswerInfo> {
    if a in byAnswer then byAnswer[a] else []
  }

  lemma FileNone(byAnswer: map<int, seq<UserAnswerInfo>>, infos: map<int, map<string, UserAnswerInfo>>,
                 latest: map<Key, Latest>, rule: CountRule, done: set<Key>, k: Key)
    requires IndexIs(byAnswer, infos, latest, rule, done) && ChosenFor(latest, k, rule).None?
    ensures IndexIs(byAnswer, infos, latest, rule, done + {k})
  {
    forall a, i | a in byAnswer && 0 <= i < |byAnswer[a]|
      ensures HeldBy(infos, latest, rule, done + {k}, a, byAnswer[a][i])
    {
      assert HeldBy(infos, latest, rule, done, a, byAnswer[a][i]);
      var l :| Files(infos, latest, rule, done, l, a) && infos[l.user][l.task] == byAnswer[a][i];
      assert Files(infos, latest, rule, done + {k}, l, a);
    }
    assert forall l, a :: Files(infos, latest, rule, done + {k}, l, a) ==> Files(infos, latest, rule, done, l, a);
  }

  lemma FileOne(byAnswer: map<int, seq<UserAnswerInfo>>, infos: map<int, map<string, UserAnswerInfo>>,
                latest: map<Key, Latest>, rule: CountRule, done: set<Key>, k: Key)
    requires Separate(infos) && IndexIs(byAnswer, infos, latest, rule, done)
    requires k !in done && InTally(infos, k) && ChosenFor(latest, k, rule).Some?
    ensures var a := ChosenFor(latest, k, rule).value.answerId;
            IndexIs(byAnswer[a := Filed(byAnswer, a) + [infos[k.user][k.task]]], infos, latest, rule, done + {k})
  {
    var a, o := ChosenFor(latest, k, rule).value.answerId, infos[k.user][k.task];
    var m := byAnswer[a := Filed(byAnswer, a) + [o]];
    assert Files(infos, latest, rule, done + {k}, k, a);
    forall i | 0 <= i < |Filed(byAnswer, a)|
      ensures Filed(byAnswer, a)[i] != o
    {
      assert HeldBy(infos, latest, rule, done, a, byAnswer[a][i]);
      var l :| Files(infos, latest, rule, done, l, a) && infos[l.user][l.task] == byAnswer[a][i];
    }
    assert NoDuplicates(m[a]);
    forall b, i | b in m && 0 <= i < |m[b]|
      ensures HeldBy(infos, latest, rule, done + {k}, b, m[b][i])
    {
      if b != a || i < |Filed(byAnswer, a)| {
        assert HeldBy(infos, latest, rule, done, b, byAnswer[b][i]);
        var l :| Files(infos, latest, rule, done, l, b) && infos[l.user][l.task] == byAnswer[b][i];
        assert Files(infos, latest, rule, done + {k}, l, b);
      }
    }
    forall l, b | Files(infos, latest, rule, done + {k}, l, b)
      ensures b in m && infos[l.user][l.task] in m[b]
    {
      if l == k {
        assert m[b][|m[b]| - 1] == o;
      } else {
        assert Files(infos, latest, rule, done, l, b);
      }
    }
  }

  /** A pair is removed, and its user with it when no other task is left. */
  function Dropped(m: map<int, map<string, UserAnswerInfo>>, k: Key): map<int, map<string, UserAnswerInfo>>
    requires InTally(m, k)
  {
    var tasks := m[k.user] - {k.task};
    if |tasks| == 0 then m - {k.user} else m[k.user := tasks]
  }

  lemma DroppedPairs(m: map<int, map<string, UserAnswerInfo>>, k: Key)
    requires Separate(m) && InTally(m, k)
    ensures Separate(Dropped(m, k))
    ensures forall l :: InTally(Dropped(m, k), l) <==> InTally(m, l) && l != k
    ensures forall l :: InTally(Dropped(m, k), l) ==> Dropped(m, k)[l.user][l.task] == m[l.user][l.task]
  {
    var tasks := m[k.user] - {k.task};
    assert |tasks| == 0 ==> tasks == map[];
    forall l
      ensures InTally(Dropped(m, k), l) <==> InTally(m, l) && l != k
    {
      if l.user == k.user {
        assert l.task in tasks <==> l.task in m[k.user] && l.task != k.task;
      }
    }
  }

  function Selected(i: Info, s: Single): Info {
    i.(answerId := s.answerId, points := s.points)
  }

  /** The contents of all records. */
  ghost function Views(infos: map<int, map<string, UserAnswerInfo>>, keys: set<Key>): map<Key, Info>
    reads Records(infos)
  {
    map k | k in keys && InTally(infos, k) :: infos[k.user][k.task].View()
  }

  /** The pairs in `todo` are untouched; of the others those with a selected answer are kept, with it. */
  ghost predicate SelectedBut(todo: set<Key>, kept: map<int, map<string, UserAnswerInfo>>,
                              infos: map<int, map<string, UserAnswerInfo>>, was: map<Key, Info>,
                              latest: map<Key, Latest>, rule: CountRule)
    reads Records(kept)
  {
    && (forall k :: InTally(kept, k) <==> k in latest && (k in todo || ChosenFor(latest, k, rule).Some?))
    && (forall k :: InTally(kept, k) ==> InTally(infos, k) && kept[k.user][k.task] == infos[k.user][k.task])
    && (forall k :: InTally(kept, k) ==>
          k in was && kept[k.user][k.task].View() ==
                      if k in todo then was[k] else Selected(was[k], ChosenFor(latest, k, rule).value))
  }

  method SelectOne(k: Key, kept: map<int, map<string, UserAnswerInfo>>, latest: map<Key, Latest>, rule: CountRule,
                   ghost todo: set<Key>, ghost infos: map<int, map<string, UserAnswerInfo>>, ghost was: map<Key, Info>)
    returns (m: map<int, map<string, UserAnswerInfo>>, chosen: Option<Single>)
    requires Separate(kept) && todo <= latest.Keys && k in todo
    requires SelectedBut(todo, kept, infos, was, latest, rule)
    modifies Records(kept)
    ensures chosen == ChosenFor(latest, k, rule)
    ensures Separate(m) && Records(m) <= Records(kept)
    ensures SelectedBut(todo - {k}, m, infos, was, latest, rule)
  {
    match rule {
      case OnlyValid => chosen := latest[k].valid;
      case ValidThenInvalid => chosen := if latest[k].valid.Some? then latest[k].valid else latest[k].any;
      case AnyAnswer => chosen := latest[k].any;
    }
    m := kept;
    if chosen.Some? {
      RecordIn(kept, k);
      kept[k.user][k.task].Select(chosen.value);
    } else {
      DroppedPairs(kept, k);
      m := Dropped(kept, k);
      forall o | o in Records(m)
        ensures o in Records(kept)
      {
        var u, t :| u in m && t in m[u] && m[u][t] == o;
        assert InTally(m, Key(u, t));
      }
    }
  }

  /** Files the record of a pair under the answer selected for it. */
  method FileAnswer(byAnswer: map<int, seq<UserAnswerInfo>>, info: UserAnswerInfo, chosen: Option<Single>, k: Key,
                    ghost infos: map<int, map<string, UserAnswerInfo>>, ghost latest: map<Key, Latest>,
                      ghost rule: CountRule,
                    ghost done: set<Key>)
    returns (filed: map<int, seq<UserAnswerInfo>>)
    requires Separate(infos) && IndexIs(byAnswer, infos, latest, rule, done)
    requires k !in done && InTally(infos, k) && info == infos[k.user][k.task] && chosen == ChosenFor(latest, k, rule)
    ensures IndexIs(filed, infos, latest, rule, done + {k})
  {
    filed := byAnswer;
    if chosen.Some? {
      FileOne(byAnswer, infos, latest, rule, done, k);
      filed := byAnswer[chosen.value.answerId := Filed(byAnswer, chosen.value.answerId) + [info]];
    } else {
      FileNone(byAnswer, infos, latest, rule, done, k);
    }
  }

  lemma DoneMore<T>(all: set<T>, todo: set<T>, k: T)
    requires todo <= all && k in todo
    ensures all - (todo - {k}) == (all - todo) + {k}
  {
  }

  /** Step 3: the selected answer is noted in the record of its pair, and pairs without one are dropped. */
  method SelectAnswers(infos: map<int, map<string, UserAnswerInfo>>, latest: map<Key, Latest>, rule: CountRule)
    returns (kept: map<int, map<string, UserAnswerInfo>>, byAnswer: map<int, seq<UserAnswerInfo>>)
    requires Separate(infos) && forall k :: InTally(infos, k) <==> k in latest
    modifies Records(infos)
    ensures Separate(kept) && Records(kept) <= Records(infos)
    ensures SelectedBut({}, kept, infos, old(Views(infos, latest.Keys)), latest, rule)
    ensures IndexIs(byAnswer, infos, latest, rule, latest.Keys)
  {
    kept, byAnswer := infos, map[];
    ghost var was := Views(infos, latest.Keys);
    var todo := latest.Keys;
    while todo != {}
      invariant todo <= latest.Keys && Separate(kept) && Records(kept) <= Records(infos)
      invariant SelectedBut(todo, kept, infos, was, latest, rule)
      invariant IndexIs(byAnswer, infos, latest, rule, latest.Keys - todo)
      decreases todo
    {
      var k :| k in todo;
      ghost var done := latest.Keys - todo;
      assert InTally(infos, k);
      var chosen;
      var info := kept[k.user][k.task];
      kept, chosen := SelectOne(k, kept, latest, rule, todo, infos, was);
      byAnswer := FileAnswer(byAnswer, info, chosen, k, infos, latest, rule, done);
      DoneMore(latest.Keys, todo, k);
      todo := todo - {k};
    }
    assert latest.Keys - todo == latest.Keys;
  }

  /** Adds review points to every record of a shared answer. */
  method AddVelps(infos: seq<UserAnswerInfo>, p: real)
    requires NoDuplicates(infos)
    modifies infos
    ensures forall i :: 0 <= i < |infos| ==>
              infos[i].View() == old(infos[i].View()).(velpPoints := Some(OrZero(old(infos[i].velpPoints)) + p),
                velped := true)
  {
    for n := 0 to |infos|
      invariant forall i :: 0 <= i < n ==>
                  infos[i].View() == old(infos[i].View()).(velpPoints := Some(OrZero(old(infos[i].velpPoints)) + p),
                    velped := true)
      invariant forall i :: n <= i < |infos| ==> infos[i].View() == old(infos[i].View())
    {
      infos[n].AddVelp(p);
    }
  }

  function Reviewed(i: Info, velp: Option<real>): Info {
    i.(velpPoints := velp, velped := velp.Some?)
  }

  /** The records of the selected answers have the annotations so far; the rest of them is as before. */
  ghost predicate ReviewedAre(kept: map<int, map<string, UserAnswerInfo>>, was: map<Key, Info>,
                              annotations: seq<Annotation>)
    reads Records(kept)
  {
    forall k :: InTally(kept, k) ==>
      k in was && kept[k.user][k.task].View() == Reviewed(was[k], VelpSum(annotations, was[k].answerId))
  }

  /** A kept record that selected the answer. */
  ghost predicate Holder(kept: map<int, map<string, UserAnswerInfo>>, was: map<Key, Info>, a: int, o: UserAnswerInfo) {
    exists k :: InTally(kept, k) && k in was && kept[k.user][k.task] == o && was[k].answerId == a
  }

  lemma {:induction false} VelpStep(annotations: seq<Annotation>, n: nat)
    requires n < |annotations|
    ensures forall id :: VelpSum(annotations[..n + 1], id) ==
              var before := VelpSum(annotations[..n], id); var a := annotations[n];
              if a.answerId == id && Nonzero(a.points) then Some(OrZero(before) + a.points.value) else before
  {
    assert annotations[..n + 1][..n] == annotations[..n];
  }

  /** Every kept record is filed once, under the answer it selected. */
  ghost predicate IndexFor(byAnswer: map<int, seq<UserAnswerInfo>>, kept: map<int, map<string, UserAnswerInfo>>,
                           was: map<Key, Info>) {
    && (forall a :: a in byAnswer ==> NoDuplicates(byAnswer[a]))
    && (forall k :: InTally(kept, k) ==>
          k in was && was[k].answerId in byAnswer && kept[k.user][k.task] in byAnswer[was[k].answerId])
    && (forall a, i :: a in byAnswer && 0 <= i < |byAnswer[a]| ==> Holder(kept, was, a, byAnswer[a][i]))
  }

  method ApplyAnnotation(kept: map<int, map<string, UserAnswerInfo>>, byAnswer: map<int, seq<UserAnswerInfo>>,
                         annotations: seq<Annotation>, n: nat, ghost was: map<Key, Info>)
    requires n < |annotations|
    requires Separate(kept) && IndexFor(byAnswer, kept, was)
    requires ReviewedAre(kept, was, annotations[..n])
    modifies Records(kept)
    ensures ReviewedAre(kept, was, annotations[..n + 1])
  {
    var a := annotations[n];
    VelpStep(annotations, n);
    if Nonzero(a.points) && a.answerId in byAnswer {
      var shared := byAnswer[a.answerId];
      forall i | 0 <= i < |shared|
        ensures shared[i] in Records(kept)
      {
        assert Holder(kept, was, a.answerId, byAnswer[a.answerId][i]);
      }
      AddVelps(shared, a.points.value);
      forall k | InTally(kept, k)
        ensures kept[k.user][k.task] in shared <==> was[k].answerId == a.answerId
      {
        var o := kept[k.user][k.task];
        if o in shared {
          var i :| 0 <= i < |shared| && shared[i] == o;
          assert Holder(kept, was, a.answerId, byAnswer[a.answerId][i]);
        }
      }
    }
  }

  /** Step 4: the annotations of the selected answers, shared answers included, are added up. */
  method AddAnnotations(kept: map<int, map<string, UserAnswerInfo>>, byAnswer: map<int, seq<UserAnswerInfo>>,
                        annotations: seq<Annotation>, ghost was: map<Key, Info>)
    requires Separate(kept) && IndexFor(byAnswer, kept, was)
    requires ReviewedAre(kept, was, [])
    modifies Records(kept)
    ensures ReviewedAre(kept, was, annotations)
  {
    for n := 0 to |annotations|
      invariant ReviewedAre(kept, was, annotations[..n])
    {
      ApplyAnnotation(kept, byAnswer, annotations, n, was);
    }
    assert annotations[..|annotations|] == annotations;
  }

  /** The index serves the kept records. */
  lemma IndexServes(byAnswer: map<int, seq<UserAnswerInfo>>, infos: map<int, map<string, UserAnswerInfo>>,
                    kept: map<int, map<string, UserAnswerInfo>>, latest: map<Key, Latest>, rule: CountRule,
                      was: map<Key, Info>)
    requires IndexIs(byAnswer, infos, latest, rule, latest.Keys)
    requires forall k :: InTally(kept, k) <==> ChosenFor(latest, k, rule).Some?
    requires forall k :: InTally(kept, k) ==> InTally(infos, k) && kept[k.user][k.task] == infos[k.user][k.task]
    requires forall k :: InTally(kept, k) ==> k in was && was[k].answerId == ChosenFor(latest, k, rule).value.answerId
    ensures IndexFor(byAnswer, kept, was)
  {
    forall k | InTally(kept, k)
      ensures was[k].answerId in byAnswer && kept[k.user][k.task] in byAnswer[was[k].answerId]
    {
      assert Files(infos, latest, rule, latest.Keys, k, was[k].answerId);
    }
    forall a, i | a in byAnswer && 0 <= i < |byAnswer[a]|
      ensures Holder(kept, was, a, byAnswer[a][i])
    {
      assert HeldBy(infos, latest, rule, latest.Keys, a, byAnswer[a][i]);
      var k :| Files(infos, latest, rule, latest.Keys, k, a) && infos[k.user][k.task] == byAnswer[a][i];
      assert InTally(kept, k);
    }
  }

  /** The answer selected for a pair from the rows. */
  function SelectedIn(rows: seq<Row>, k: Key, rule: CountRule): Option<Single> {
    Chosen(LatestIn(rows, k), rule)
  }

  /** What the records of a tally hold. */
  ghost predicate TallyIs(kept: map<int, map<string, UserAnswerInfo>>, rows: seq<Row>, annotations: seq<Annotation>,
                          withTime: bool, rule: CountRule)
    reads Records(kept)
  {
    && (forall k :: InTally(kept, k) <==> SelectedIn(rows, k, rule).Some?)
    && forall k :: InTally(kept, k) ==>
         kept[k.user][k.task].View() == Tallied(rows, annotations, k, SelectedIn(rows, k, rule).value, withTime)
  }

  /** What was noted for a pair by the selection. */
  function Noted(rows: seq<Row>, k: Key, withTime: bool, rule: CountRule): Info
    requires SelectedIn(rows, k, rule).Some?
  {
    Selected(Collected(rows, k, withTime), SelectedIn(rows, k, rule).value)
  }

  ghost predicate NotedAre(was: map<Key, Info>, kept: map<int, map<string, UserAnswerInfo>>, rows: seq<Row>,
                           withTime: bool, rule: CountRule) {
    && (forall k :: InTally(kept, k) <==> SelectedIn(rows, k, rule).Some?)
    && forall k :: InTally(kept, k) ==> k in was && was[k] == Noted(rows, k, withTime, rule)
  }

  lemma ChosenIsSelected(latest: map<Key, Latest>, rows: seq<Row>, rule: CountRule)
    requires LatestAre(latest, rows)
    ensures forall k :: ChosenFor(latest, k, rule) == SelectedIn(rows, k, rule)
  {
    NoRowNothings(rows);
  }

  /** Steps 1 to 3. */
  method CollectAndSelect(rows: seq<Row>, withTime: bool, rule: CountRule)
    returns (kept: map<int, map<string, UserAnswerInfo>>, byAnswer: map<int, seq<UserAnswerInfo>>,
      ghost was: map<Key, Info>)
    ensures Separate(kept) && fresh(Records(kept))
    ensures NotedAre(was, kept, rows, withTime, rule)
    ensures IndexFor(byAnswer, kept, was)
    ensures ReviewedAre(kept, was, [])
  {
    var infos, latest := CollectRows(rows, withTime);
    ghost var before := Views(infos, latest.Keys);
    kept, byAnswer := SelectAnswers(infos, latest, rule);
    ChosenIsSelected(latest, rows, rule);
    was := map k | k in latest.Keys && SelectedIn(rows, k, rule).Some? :: Noted(rows, k, withTime, rule);
    IndexServes(byAnswer, infos, kept, latest, rule, was);
  }

  /**
   The whole selection: exactly the pairs with a selected answer are kept, no user is left without
   tasks, and every record holds the selected answer, its times and its review points.
   */
  method TallyAnswers(rows: seq<Row>, annotations: seq<Annotation>, withTime: bool, rule: CountRule)
    returns (kept: map<int, map<string, UserAnswerInfo>>)
    ensures Separate(kept) && fresh(Records(kept))
    ensures TallyIs(kept, rows, annotations, withTime, rule)
    ensures RecordsFollowRule(kept, rows, withTime, rule)
  {
    var byAnswer;
    ghost var was;
    kept, byAnswer, was := CollectAndSelect(rows, withTime, rule);
    AddAnnotations(kept, byAnswer, annotations, was);
    TallyFollowsRule(kept, rows, annotations, withTime, rule);
  }

  /** The records hold what the rule selects from the rows, and the extreme times of their rows if asked for. */
  ghost predicate RecordsFollowRule(kept: map<int, map<string, UserAnswerInfo>>, rows: seq<Row>, withTime: bool,
                                    rule: CountRule)
    reads Records(kept)
  {
    forall user, task :: FollowsRule(kept, rows, withTime, rule, user, task)
  }

  ghost predicate FollowsRule(kept: map<int, map<string, UserAnswerInfo>>, rows: seq<Row>, withTime: bool,
                              rule: CountRule, user: int, task: string)
    reads Records(kept)
  {
    if user in kept && task in kept[user] then
      var info := kept[user][task];
      && SelectsByRule(rows, user, task, rule, Some(Single(info.answerId, info.points)))
      && TimesHeld(info, rows, Key(user, task), withTime)
    else SelectsByRule(rows, user, task, rule, None)
  }

  ghost predicate TimesHeld(info: UserAnswerInfo, rows: seq<Row>, k: Key, withTime: bool)
    reads info
  {
    if withTime then AreTimes(rows, k, (info.answeredOnMin, info.answeredOnMax))
    else info.answeredOnMin.None? && info.answeredOnMax.None?
  }

  lemma TallyFollowsRule(kept: map<int, map<string, UserAnswerInfo>>, rows: seq<Row>, annotations: seq<Annotation>,
                         withTime: bool, rule: CountRule)
    requires TallyIs(kept, rows, annotations, withTime, rule)
    ensures RecordsFollowRule(kept, rows, withTime, rule)
  {
    forall user, task
      ensures FollowsRule(kept, rows, withTime, rule, user, task)
    {
      var k := Key(user, task);
      RuleSelects(rows, k, rule);
      TimesAreExtremes(rows, k);
      assert InTally(kept, k) <==> user in kept && task in kept[user];
      if InTally(kept, k) {
        assert kept[user][task].View() == Tallied(rows, annotations, k, SelectedIn(rows, k, rule).value, withTime);
      }
    }
  }

  lemma NoRowNothings(rows: seq<Row>)
    ensures forall k :: !HasRow(rows, k) ==> LatestIn(rows, k) == Latest(None, None)
  {
    forall k
      ensures !HasRow(rows, k) ==> LatestIn(rows, k) == Latest(None, None)
    {
      NoRowNothing(rows, k);
    }
  }
}
