/** Saving answers to one task: the answers of all users are one table, and each call sees some of them. */
module SavedAnswers {
  import opened Text
  import opened Rounding

  /** A row of the table; later rows have larger ids. No user is listed twice for an answer. */
  datatype Answer = Answer(
    content: string, points: Option<real>, valid: bool, lastPointsModifier: Option<int>, answeredOn: int,
    users: set<int>)

  /** The arguments of one call of `save_answer`; `maxLength` 0 stands for no limit. */
  datatype Save = Save(
    users: seq<int>, content: string, points: Option<real>, valid: bool, pointsGivenBy: Option<int>, force: bool,
    overwrite: bool, now: int, maxLength: nat)

  type IsBlankChoice = string -> bool

  // ----- which answers a call finds -----

  /** The users of the answer among those asked for: the rows that the join leaves for it. */
  function JoinedUsers(a: Answer, users: seq<int>): set<int> {
    set u | u in users && u in a.users
  }

  /**
   The answer is found: the task is global, or the join leaves rows for the answer and their users,
   sorted, are the users asked for, sorted.
   */
  predicate Found(a: Answer, users: seq<int>, isGlobal: bool) {
    isGlobal || (JoinedUsers(a, users) != {} && multiset(JoinedUsers(a, users)) == multiset(users))
  }

  predicate Distinct(users: seq<int>) {
    forall i, j :: 0 <= i < j < |users| ==> users[i] != users[j]
  }

  /** The users for whom a call finds the answers that it saved. */
  predicate Visible(users: seq<int>, isGlobal: bool) {
    isGlobal || (users != [] && Distinct(users))
  }

  function SetOf(users: seq<int>): set<int> {
    set u | u in users
  }

  lemma {:induction false} DistinctBag(users: seq<int>)
    ensures Distinct(users) <==> multiset(SetOf(users)) == multiset(users)
  {
    if users != [] {
      var n := |users| - 1;
      var init, last := users[..n], users[n];
      DistinctBag(init);
      assert users == init + [last];
      assert SetOf(users) == SetOf(init) + {last};
      if Distinct(users) {
        assert last !in init;
      } else {
        RepeatedUser(users);
      }
    }
  }

  lemma RepeatedUser(users: seq<int>)
    requires !Distinct(users)
    ensures exists u :: u in users && multiset(users)[u] >= 2
  {
    var i, j :| 0 <= i < j < |users| && users[i] == users[j];
    assert users == users[..j] + [users[j]] + users[j + 1..];
    var u := users[j];
    assert users[..j][i] == u;
    assert u in multiset(users[..j]);
    assert multiset(users) == multiset(users[..j]) + multiset{u} + multiset(users[j + 1..]);
    assert multiset(users)[u] >= 2;
  }

  /** A call finds the answers of groups that include all of its users, if these are distinct. */
  lemma {:induction false} FoundMeans(a: Answer, users: seq<int>, isGlobal: bool)
    ensures Found(a, users, isGlobal) <==>
            isGlobal || (users != [] && Distinct(users) && SetOf(users) <= a.users)
  {
    var joined := JoinedUsers(a, users);
    DistinctBag(users);
    if multiset(joined) == multiset(users) {
      forall u | u in SetOf(users)
        ensures u in joined
      {
        assert u in multiset(users);
      }
      assert joined == SetOf(users);
    }
    if SetOf(users) <= a.users {
      assert joined == SetOf(users);
    }
    if users != [] {
      assert users[0] in SetOf(users);
    }
  }

  /** The answers a call finds, oldest first. */
  function View(answers: seq<Answer>, users: seq<int>, isGlobal: bool): seq<Answer> {
    if answers == [] then []
    else
      var last := answers[|answers| - 1];
      View(answers[..|answers| - 1], users, isGlobal) + (if Found(last, users, isGlobal) then [last] else [])
  }

  /** The latest answer found, or -1. */
  function Latest(answers: seq<Answer>, users: seq<int>, isGlobal: bool): (i: int)
    ensures -1 <= i < |answers|
    ensures i >= 0 ==> Found(answers[i], users, isGlobal)
    ensures forall k :: i < k < |answers| ==> !Found(answers[k], users, isGlobal)
  {
    if answers == [] then -1
    else if Found(answers[|answers| - 1], users, isGlobal) then |answers| - 1
    else Latest(answers[..|answers| - 1], users, isGlobal)
  }

  // ----- what a call does -----

  predicate TooLarge(s: Save) {
    s.maxLength != 0 && |s.content| > s.maxLength
  }

  predicate SameAnswer(a: Answer, content: string, valid: bool) {
    a.content == content && a.valid == valid
  }

  /** `is_redundant_answer`; `blank` says which contents are an unchosen radio button. */
  predicate IsRedundant(existing: seq<Answer>, s: Save, blank: IsBlankChoice) {
    (existing != [] && SameAnswer(existing[|existing| - 1], s.content, s.valid)) ||
    (existing == [] && blank(s.content))
  }

  function Fresh(s: Save): Answer {
    Answer(s.content, RoundFloatError(s.points), s.valid, s.pointsGivenBy, s.now, SetOf(s.users))
  }

  function Regraded(a: Answer, s: Save): Answer {
    a.(points := RoundFloatError(s.points), lastPointsModifier := s.pointsGivenBy)
  }

  function Overwritten(a: Answer, s: Save): Answer {
    Fresh(s).(users := a.users)
  }

  /** The call saves nothing new: the latest answer says the same, or nothing was chosen. */
  predicate Skipped(answers: seq<Answer>, s: Save, isGlobal: bool, blank: IsBlankChoice) {
    IsRedundant(View(answers, s.users, isGlobal), s, blank) && !s.force
  }

  /** The call adds an answer, if the table accepts it. */
  predicate Adds(answers: seq<Answer>, s: Save, isGlobal: bool, blank: IsBlankChoice) {
    !Skipped(answers, s, isGlobal, blank) && !(s.overwrite && Latest(answers, s.users, isGlobal) >= 0)
  }

  /** The call raises: its content is too large, or it would list a user twice for one answer. */
  predicate Rejected(answers: seq<Answer>, s: Save, isGlobal: bool, blank: IsBlankChoice) {
    TooLarge(s) || (Adds(answers, s, isGlobal, blank) && !Distinct(s.users))
  }

  /** The table after a call; a call that raises leaves it as it was. */
  function AfterSave(answers: seq<Answer>, s: Save, isGlobal: bool, blank: IsBlankChoice): seq<Answer> {
    var i := Latest(answers, s.users, isGlobal);
    if Rejected(answers, s, isGlobal, blank) then answers
    else if Skipped(answers, s, isGlobal, blank) then
      if i < 0 then answers else answers[i := Regraded(answers[i], s)]
    else if s.overwrite && i >= 0 then answers[i := Overwritten(answers[i], s)]
    else answers + [Fresh(s)]
  }

  function AfterSaves(answers: seq<Answer>, saves: seq<Save>, isGlobal: bool, blank: IsBlankChoice): seq<Answer> {
    if saves == [] then answers
    else
      AfterSave(AfterSaves(answers, saves[..|saves| - 1], isGlobal, blank), saves[|saves| - 1], isGlobal, blank)
  }

  /** The places of the answers a query finds. */
  function FoundAt(answers: seq<Answer>, users: seq<int>, isGlobal: bool): set<int> {
    set i | 0 <= i < |answers| && Found(answers[i], users, isGlobal)
  }

  lemma FoundAtStep(answers: seq<Answer>, users: seq<int>, isGlobal: bool, n: nat)
    requires n < |answers|
    ensures |FoundAt(answers[..n + 1], users, isGlobal)| ==
            |FoundAt(answers[..n], users, isGlobal)| + (if Found(answers[n], users, isGlobal) then 1 else 0)
  {
    var x := FoundAt(answers[..n], users, isGlobal);
    assert FoundAt(answers[..n + 1], users, isGlobal) == if Found(answers[n], users, isGlobal) then x + {n} else x;
  }

  class AnswerTable {
    var answers: seq<Answer>
    const isGlobal: bool

    constructor (isGlobal: bool)
      ensures answers == [] && this.isGlobal == isGlobal
    {
      answers := [];
      this.isGlobal := isGlobal;
    }

    /** `get_existing_answers_info`: where the latest answer of the query is, and how many it finds. */
    method GetExistingAnswersInfo(users: seq<int>) returns (latest: int, count: nat)
      ensures count == |FoundAt(answers, users, isGlobal)|
      ensures -1 <= latest < |answers| && (latest >= 0 <==> count > 0)
      ensures latest >= 0 ==> Found(answers[latest], users, isGlobal)
      ensures forall k :: latest < k < |answers| ==> !Found(answers[k], users, isGlobal)
    {
      latest, count := -1, 0;
      for n := 0 to |answers|
        invariant count == |FoundAt(answers[..n], users, isGlobal)|
        invariant -1 <= latest < n && (latest >= 0 <==> count > 0)
        invariant latest >= 0 ==> Found(answers[latest], users, isGlobal)
        invariant forall k :: latest < k < n ==> !Found(answers[k], users, isGlobal)
      {
        FoundAtStep(answers, users, isGlobal, n);
        if Found(answers[n], users, isGlobal) {
          latest, count := n, count + 1;
        }
      }
      assert answers[..|answers|] == answers;
    }

    method SaveAnswer(s: Save, blank: IsBlankChoice) returns (res: Result<bool>)
      modifies this
      ensures answers == AfterSave(old(answers), s, isGlobal, blank)
      ensures res.Raised? <==> Rejected(old(answers), s, isGlobal, blank)
      ensures res.Raised? ==> res.error == if TooLarge(s) then TooLargeAnswer else IntegrityError
      ensures res.Ok? ==> (res.value <==> |answers| == |old(answers)| + 1)
    {
      var points := RoundFloatError(s.points);
      if s.maxLength != 0 && |s.content| > s.maxLength {
        return Raised(TooLargeAnswer);
      }
      var latest, count := GetExistingAnswersInfo(s.users);
      SkippedIs(answers, s, isGlobal, blank, latest);
      var redundant :=
        if latest >= 0 then answers[latest].content == s.content && answers[latest].valid == s.valid
        else count == 0 && blank(s.content);
      if redundant && !s.force {
        if latest >= 0 {
          answers := answers[latest := answers[latest].(points := points, lastPointsModifier := s.pointsGivenBy)];
        }
        return Ok(false);
      }
      if s.overwrite && latest >= 0 {
        var a := answers[latest].(content := s.content, points := points, valid := s.valid,
                                  lastPointsModifier := s.pointsGivenBy, answeredOn := s.now);
        answers := answers[latest := a];
        return Ok(false);
      }
      if !Distinct(s.users) {
        return Raised(IntegrityError);
      }
      answers := answers + [Answer(s.content, points, s.valid, s.pointsGivenBy, s.now, SetOf(s.users))];
      res := Ok(true);
    }
  }

  /** The latest answer found is the last one of the view. */
  lemma {:induction false} LatestIs(answers: seq<Answer>, users: seq<int>, isGlobal: bool, i: int)
    requires -1 <= i < |answers| && (i >= 0 ==> Found(answers[i], users, isGlobal))
    requires forall k :: i < k < |answers| ==> !Found(answers[k], users, isGlobal)
    ensures Latest(answers, users, isGlobal) == i
    ensures var view := View(answers, users, isGlobal);
            if i < 0 then view == [] else view != [] && view[|view| - 1] == answers[i]
  {
    if answers != [] && i < |answers| - 1 {
      LatestIs(answers[..|answers| - 1], users, isGlobal, i);
    }
  }

  /** Whether a call is skipped depends on the latest answer found only. */
  lemma SkippedIs(answers: seq<Answer>, s: Save, isGlobal: bool, blank: IsBlankChoice, i: int)
    requires -1 <= i < |answers| && (i >= 0 ==> Found(answers[i], s.users, isGlobal))
    requires forall k :: i < k < |answers| ==> !Found(answers[k], s.users, isGlobal)
    ensures Latest(answers, s.users, isGlobal) == i
    ensures Skipped(answers, s, isGlobal, blank) <==>
            !s.force && if i < 0 then blank(s.content) else SameAnswer(answers[i], s.content, s.valid)
  {
    LatestIs(answers, s.users, isGlobal, i);
  }

  // ----- what a call does to the answers it finds -----

  /** The found answers after a call for the same users. */
  function Seen(existing: seq<Answer>, s: Save, blank: IsBlankChoice): seq<Answer> {
    var last := |existing| - 1;
    if TooLarge(s) then existing
    else if IsRedundant(existing, s, blank) && !s.force then
      if existing == [] then existing else existing[last := Regraded(existing[last], s)]
    else if s.overwrite && existing != [] then existing[last := Overwritten(existing[last], s)]
    else if !Distinct(s.users) then existing
    else existing + [Fresh(s)]
  }

  lemma ViewMore(answers: seq<Answer>, a: Answer, users: seq<int>, isGlobal: bool)
    ensures View(answers + [a], users, isGlobal) ==
            View(answers, users, isGlobal) + (if Found(a, users, isGlobal) then [a] else [])
  {
    assert (answers + [a])[..|answers|] == answers;
  }

  /** Changing the latest answer changes the last one of the view. */
  lemma {:induction false} ViewChanged(answers: seq<Answer>, users: seq<int>, isGlobal: bool, a: Answer)
    requires Latest(answers, users, isGlobal) >= 0
    requires a.users == answers[Latest(answers, users, isGlobal)].users
    ensures var i := Latest(answers, users, isGlobal); var view := View(answers, users, isGlobal);
            view != [] && View(answers[i := a], users, isGlobal) == view[|view| - 1 := a]
  {
    var i, n := Latest(answers, users, isGlobal), |answers| - 1;
    var changed := answers[i := a];
    FoundMeans(a, users, isGlobal);
    FoundMeans(answers[i], users, isGlobal);
    if i == n {
      assert changed[..n] == answers[..n];
    } else {
      ViewChanged(answers[..n], users, isGlobal, a);
      assert changed[..n] == answers[..n][i := a];
    }
  }

  /** What the call finds: its latest answer is the last one of the view. */
  lemma LatestSeen(answers: seq<Answer>, users: seq<int>, isGlobal: bool)
    ensures Latest(answers, users, isGlobal) >= 0 <==> View(answers, users, isGlobal) != []
  {
    LatestIs(answers, users, isGlobal, Latest(answers, users, isGlobal));
  }

  lemma SkippedSeen(answers: seq<Answer>, s: Save, isGlobal: bool, blank: IsBlankChoice)
    requires !TooLarge(s) && Skipped(answers, s, isGlobal, blank)
    ensures View(AfterSave(answers, s, isGlobal, blank), s.users, isGlobal) ==
            Seen(View(answers, s.users, isGlobal), s, blank)
  {
    LatestSeen(answers, s.users, isGlobal);
    if Latest(answers, s.users, isGlobal) >= 0 {
      RegradedSeen(answers, s, isGlobal);
    }
  }

  lemma OverwritingSeen(answers: seq<Answer>, s: Save, isGlobal: bool, blank: IsBlankChoice)
    requires !TooLarge(s) && !Skipped(answers, s, isGlobal, blank)
    requires s.overwrite && Latest(answers, s.users, isGlobal) >= 0
    ensures View(AfterSave(answers, s, isGlobal, blank), s.users, isGlobal) ==
            Seen(View(answers, s.users, isGlobal), s, blank)
  {
    LatestSeen(answers, s.users, isGlobal);
    OverwrittenSeen(answers, s, isGlobal);
  }

  lemma AddedSeen(answers: seq<Answer>, s: Save, isGlobal: bool, blank: IsBlankChoice)
    requires !TooLarge(s) && Adds(answers, s, isGlobal, blank) && Visible(s.users, isGlobal)
    ensures View(AfterSave(answers, s, isGlobal, blank), s.users, isGlobal) ==
            Seen(View(answers, s.users, isGlobal), s, blank)
  {
    LatestSeen(answers, s.users, isGlobal);
    if Distinct(s.users) {
      FreshSeen(answers, s, isGlobal);
    }
  }

  /** A call sees what calls for the same users saved, and does to it what it would do to a list of its own. */
  lemma {:induction false} SaveIsSeen(answers: seq<Answer>, s: Save, isGlobal: bool, blank: IsBlankChoice)
    requires Visible(s.users, isGlobal)
    ensures View(AfterSave(answers, s, isGlobal, blank), s.users, isGlobal) ==
            Seen(View(answers, s.users, isGlobal), s, blank)
  {
    if TooLarge(s) {
    } else if Skipped(answers, s, isGlobal, blank) {
      SkippedSeen(answers, s, isGlobal, blank);
    } else if s.overwrite && Latest(answers, s.users, isGlobal) >= 0 {
      OverwritingSeen(answers, s, isGlobal, blank);
    } else {
      AddedSeen(answers, s, isGlobal, blank);
    }
  }

  lemma FreshSeen(answers: seq<Answer>, s: Save, isGlobal: bool)
    requires Visible(s.users, isGlobal)
    ensures View(answers + [Fresh(s)], s.users, isGlobal) == View(answers, s.users, isGlobal) + [Fresh(s)]
  {
    FoundMeans(Fresh(s), s.users, isGlobal);
    ViewMore(answers, Fresh(s), s.users, isGlobal);
  }

  lemma RegradedSeen(answers: seq<Answer>, s: Save, isGlobal: bool)
    requires Latest(answers, s.users, isGlobal) >= 0
    ensures var i := Latest(answers, s.users, isGlobal); var view := View(answers, s.users, isGlobal);
            var last := |view| - 1;
            view != [] && View(answers[i := Regraded(answers[i], s)], s.users, isGlobal) ==
                          view[last := Regraded(view[last], s)]
  {
    var i := Latest(answers, s.users, isGlobal);
    LatestIs(answers, s.users, isGlobal, i);
    ViewChanged(answers, s.users, isGlobal, Regraded(answers[i], s));
  }

  lemma OverwrittenSeen(answers: seq<Answer>, s: Save, isGlobal: bool)
    requires Latest(answers, s.users, isGlobal) >= 0
    ensures var i := Latest(answers, s.users, isGlobal); var view := View(answers, s.users, isGlobal);
            var last := |view| - 1;
            view != [] && View(answers[i := Overwritten(answers[i], s)], s.users, isGlobal) ==
                          view[last := Overwritten(view[last], s)]
  {
    var i := Latest(answers, s.users, isGlobal);
    LatestIs(answers, s.users, isGlobal, i);
    ViewChanged(answers, s.users, isGlobal, Overwritten(answers[i], s));
  }

  // ----- no two consecutive answers are alike -----

  predicate NoRepeats(answers: seq<Answer>) {
    forall i :: 0 < i < |answers| ==> !SameAnswer(answers[i - 1], answers[i].content, answers[i].valid)
  }

  /** The answer saved by the call can be at this place of the list. */
  predicate Fits(view: seq<Answer>, at: nat, s: Save) {
    && (0 < at <= |view| ==> !SameAnswer(view[at - 1], s.content, s.valid))
    && (at + 1 < |view| ==> !SameAnswer(view[at + 1], s.content, s.valid))
  }

  /**
   When a call keeps the answers that some users see apart. A caller can decide it beforehand: the call
   says nothing new, or what it writes is not seen by these users, or differs from its neighbours.
   */
  predicate KeepsApart(answers: seq<Answer>, s: Save, users: seq<int>, isGlobal: bool, blank: IsBlankChoice) {
    var view, i := View(answers, users, isGlobal), Latest(answers, s.users, isGlobal);
    if Rejected(answers, s, isGlobal, blank) || Skipped(answers, s, isGlobal, blank) then true
    else if s.overwrite && i >= 0 then
      Found(answers[i], users, isGlobal) ==> Fits(view, |View(answers[..i], users, isGlobal)|, s)
    else Found(Fresh(s), users, isGlobal) ==> Fits(view, |view|, s)
  }

  predicate Plain(s: Save) {
    !s.force && !s.overwrite
  }

  predicate SameContents(x: seq<Answer>, y: seq<Answer>) {
    |x| == |y| && forall i :: 0 <= i < |x| ==> SameAnswer(x[i], y[i].content, y[i].valid)
  }

  lemma {:induction false} ViewContents(x: seq<Answer>, y: seq<Answer>, users: seq<int>, isGlobal: bool)
    requires SameContents(x, y) && forall i :: 0 <= i < |x| ==> x[i].users == y[i].users
    ensures SameContents(View(x, users, isGlobal), View(y, users, isGlobal))
  {
    if x != [] {
      var n := |x| - 1;
      var u, v := x[..n], y[..n];
      assert forall i :: 0 <= i < n ==> u[i] == x[i] && v[i] == y[i];
      ViewContents(u, v, users, isGlobal);
      FoundMeans(x[n], users, isGlobal);
      FoundMeans(y[n], users, isGlobal);
    }
  }

  lemma RepeatsByContent(x: seq<Answer>, y: seq<Answer>)
    requires SameContents(x, y)
    ensures NoRepeats(x) <==> NoRepeats(y)
  {
  }

  /** Changing one row changes one answer of the view, or none. */
  lemma {:induction false} ViewAt(answers: seq<Answer>, i: nat, a: Answer, users: seq<int>, isGlobal: bool)
    requires i < |answers| && a.users == answers[i].users
    ensures var view, at := View(answers, users, isGlobal), |View(answers[..i], users, isGlobal)|;
            var after := View(answers[i := a], users, isGlobal);
            if Found(answers[i], users, isGlobal) then at < |view| && after == view[at := a] else after == view
  {
    var n := |answers| - 1;
    var changed := answers[i := a];
    FoundMeans(a, users, isGlobal);
    FoundMeans(answers[i], users, isGlobal);
    if i == n {
      assert changed[..n] == answers[..n];
    } else {
      ViewAt(answers[..n], i, a, users, isGlobal);
      assert changed[..n] == answers[..n][i := a];
      assert answers[..n][..i] == answers[..i];
    }
  }

  lemma OneChanged(view: seq<Answer>, at: nat, a: Answer, s: Save)
    requires NoRepeats(view) && at < |view| && SameAnswer(a, s.content, s.valid)
    ensures NoRepeats(view[at := a]) <==> Fits(view, at, s)
  {
    var after := view[at := a];
    if !Fits(view, at, s) {
      if 0 < at && SameAnswer(view[at - 1], s.content, s.valid) {
        assert SameAnswer(after[at - 1], after[at].content, after[at].valid);
      } else {
        assert SameAnswer(after[at], after[at + 1].content, after[at + 1].valid);
      }
    }
  }

  lemma OneAdded(view: seq<Answer>, a: Answer, s: Save)
    requires NoRepeats(view) && SameAnswer(a, s.content, s.valid)
    ensures NoRepeats(view + [a]) <==> Fits(view, |view|, s)
  {
    var after, n := view + [a], |view|;
    if !Fits(view, n, s) {
      assert SameAnswer(after[n - 1], after[n].content, after[n].valid);
    }
  }

  /** A call that says nothing new changes no content that anyone sees. */
  lemma {:induction false} SkippedKeeps(answers: seq<Answer>, s: Save, users: seq<int>, isGlobal: bool,
                                        blank: IsBlankChoice)
    requires Skipped(answers, s, isGlobal, blank)
    ensures SameContents(View(AfterSave(answers, s, isGlobal, blank), users, isGlobal),
                         View(answers, users, isGlobal))
  {
    ViewContents(AfterSave(answers, s, isGlobal, blank), answers, users, isGlobal);
  }

  /**
   Any call, forced, overwriting or plain and whoever makes it, keeps the consecutive answers that any users
   see different if and only if its arguments and the table before it say so.
   */
  lemma {:induction false} SaveKeepsApart(answers: seq<Answer>, s: Save, users: seq<int>, isGlobal: bool,
                                          blank: IsBlankChoice)
    requires NoRepeats(View(answers, users, isGlobal))
    ensures NoRepeats(View(AfterSave(answers, s, isGlobal, blank), users, isGlobal)) <==>
            KeepsApart(answers, s, users, isGlobal, blank)
  {
    var view, i := View(answers, users, isGlobal), Latest(answers, s.users, isGlobal);
    if Rejected(answers, s, isGlobal, blank) {
    } else if Skipped(answers, s, isGlobal, blank) {
      SkippedKeeps(answers, s, users, isGlobal, blank);
      RepeatsByContent(View(AfterSave(answers, s, isGlobal, blank), users, isGlobal), view);
    } else if s.overwrite && i >= 0 {
      var a := Overwritten(answers[i], s);
      ViewAt(answers, i, a, users, isGlobal);
      if Found(answers[i], users, isGlobal) {
        OneChanged(view, |View(answers[..i], users, isGlobal)|, a, s);
      }
    } else {
      ViewMore(answers, Fresh(s), users, isGlobal);
      OneAdded(view, Fresh(s), s);
    }
  }

  /** The task is global, or the call is for the given users, or not for all of them. */
  predicate Unmixed(s: Save, users: seq<int>, isGlobal: bool) {
    isGlobal || s.users == users || !(SetOf(users) <= SetOf(s.users))
  }

  lemma {:induction false} GlobalSeesAll(answers: seq<Answer>, users: seq<int>)
    ensures View(answers, users, true) == answers
  {
    if answers != [] {
      GlobalSeesAll(answers[..|answers| - 1], users);
    }
  }

  /** A plain call that is no larger group's adds nothing like the latest answer. */
  lemma PlainKeepsApart(answers: seq<Answer>, s: Save, users: seq<int>, isGlobal: bool, blank: IsBlankChoice)
    requires Plain(s) && Unmixed(s, users, isGlobal)
    ensures KeepsApart(answers, s, users, isGlobal, blank)
  {
    if isGlobal {
      GlobalSeesAll(answers, users);
      GlobalSeesAll(answers, s.users);
    } else if s.users != users {
      FoundMeans(Fresh(s), users, isGlobal);
    }
  }

  /**
   Any run of unforced calls without overwriting leaves no two consecutive answers of the users alike,
   whoever else saves in between, unless the task is not global and a call is for a larger group that
   includes them all.
   */
  lemma {:induction false} RunsNeverRepeat(answers: seq<Answer>, saves: seq<Save>, users: seq<int>, isGlobal: bool,
                                           blank: IsBlankChoice)
    requires NoRepeats(View(answers, users, isGlobal))
    requires forall i :: 0 <= i < |saves| ==> Plain(saves[i]) && Unmixed(saves[i], users, isGlobal)
    ensures NoRepeats(View(AfterSaves(answers, saves, isGlobal, blank), users, isGlobal))
    decreases |saves|
  {
    if saves != [] {
      var n := |saves| - 1;
      RunsNeverRepeat(answers, saves[..n], users, isGlobal, blank);
      var before := AfterSaves(answers, saves[..n], isGlobal, blank);
      PlainKeepsApart(before, saves[n], users, isGlobal, blank);
      SaveKeepsApart(before, saves[n], users, isGlobal, blank);
    }
  }

  /** The answers to a global task: no run of plain calls, by whatever users, leaves two of them alike in a row. */
  lemma GlobalNeverRepeats(answers: seq<Answer>, saves: seq<Save>, blank: IsBlankChoice)
    requires NoRepeats(answers) && forall i :: 0 <= i < |saves| ==> Plain(saves[i])
    ensures NoRepeats(AfterSaves(answers, saves, true, blank))
  {
    GlobalSeesAll(answers, []);
    RunsNeverRepeat(answers, saves, [], true, blank);
    GlobalSeesAll(AfterSaves(answers, saves, true, blank), []);
  }

  /**
   Saving the same content twice stores it once, for users who are distinct and see what they save; not at
   all if a user is listed twice; and twice if there are no users and the task is not global.
   */
  lemma {:induction false} SavedOnce(s: Save, isGlobal: bool, blank: IsBlankChoice)
    requires Plain(s) && !TooLarge(s) && !blank(s.content)
    ensures var after := AfterSaves([], [s, s], isGlobal, blank);
            && |after| == (if !Distinct(s.users) then 0 else if isGlobal || s.users != [] then 1 else 2)
            && (NoRepeats(after) <==> isGlobal || s.users != [])
  {
    TwoSaves(s, s, isGlobal, blank);
    if Distinct(s.users) {
      var once := [Fresh(s)];
      assert AfterSave([], s, isGlobal, blank) == once;
      FoundMeans(Fresh(s), s.users, isGlobal);
      LatestIs(once, s.users, isGlobal, if Found(Fresh(s), s.users, isGlobal) then 0 else -1);
      if !isGlobal && s.users == [] {
        var after := AfterSave(once, s, isGlobal, blank);
        assert after == [Fresh(s), Fresh(s)];
        assert SameAnswer(after[0], after[1].content, after[1].valid);
      }
    }
  }

  lemma TwoSaves(a: Save, b: Save, isGlobal: bool, blank: IsBlankChoice)
    ensures AfterSaves([], [a, b], isGlobal, blank) == AfterSave(AfterSave([], a, isGlobal, blank), b, isGlobal, blank)
  {
    assert [a, b][..1] == [a] && [a][..0] == [];
    assert AfterSaves([], [a], isGlobal, blank) == AfterSave([], a, isGlobal, blank);
  }

  lemma ThreeSaves(a: Save, b: Save, c: Save, isGlobal: bool, blank: IsBlankChoice)
    ensures AfterSaves([], [a, b, c], isGlobal, blank) ==
            AfterSave(AfterSave(AfterSave([], a, isGlobal, blank), b, isGlobal, blank), c, isGlobal, blank)
  {
    assert [a, b, c][..2] == [a, b];
    TwoSaves(a, b, isGlobal, blank);
  }

  /** The failing input: no users and a task that is not global. */
  lemma NoUsersRepeat(s: Save, blank: IsBlankChoice)
    requires s.users == [] && Plain(s) && !TooLarge(s) && !blank(s.content)
    ensures !NoRepeats(AfterSaves([], [s, s], false, blank))
  {
    SavedOnce(s, false, blank);
  }

  function Simple(users: seq<int>, content: string): Save {
    Save(users, content, None, true, None, false, false, 0, 0)
  }

  /** A call for a larger group can repeat an answer of its members, whatever the contents. */
  lemma {:induction false} LargerGroupRepeats(u: int, v: int, first: string, second: string, blank: IsBlankChoice)
    requires u != v && first != second && !blank(first) && !blank(second)
    ensures var saves := [Simple([u, v], first), Simple([u], second), Simple([u, v], second)];
            !NoRepeats(View(AfterSaves([], saves, false, blank), [u], false))
  {
    var a, b, c := Simple([u, v], first), Simple([u], second), Simple([u, v], second);
    var x, y, z := Fresh(a), Fresh(b), Fresh(c);
    ThreeSaves(a, b, c, false, blank);
    OneOfTwo(x, u, v);
    OneOfTwo(y, u, v);
    OneOfTwo(z, u, v);
    ThreeSaved(a, b, c, blank);
    ViewOfThree(x, y, z, [u]);
    RepeatAt([x, y, z], 2);
  }

  lemma ThreeSaved(a: Save, b: Save, c: Save, blank: IsBlankChoice)
    requires Plain(a) && Plain(b) && Plain(c) && !TooLarge(a) && !TooLarge(b) && !TooLarge(c) && !blank(a.content)
    requires Distinct(a.users) && Distinct(b.users) && Distinct(c.users)
    requires a.content != b.content && a.content != c.content
    requires Found(Fresh(a), b.users, false) && Found(Fresh(a), c.users, false) && !Found(Fresh(b), c.users, false)
    ensures AfterSave(AfterSave(AfterSave([], a, false, blank), b, false, blank), c, false, blank) ==
            [Fresh(a), Fresh(b), Fresh(c)]
  {
    var x, y := Fresh(a), Fresh(b);
    assert AfterSave([], a, false, blank) == [x];
    Differs([x], 0, b, false, blank);
    assert [x] + [y] == [x, y];
    Differs([x, y], 0, c, false, blank);
  }

  lemma SetOfTwo(u: int, v: int)
    ensures SetOf([u, v]) == {u, v} && SetOf([u]) == {u}
  {
  }

  lemma OneOfTwo(a: Answer, u: int, v: int)
    requires u != v && (a.users == SetOf([u]) || a.users == SetOf([u, v]))
    ensures Found(a, [u], false) && (Found(a, [u, v], false) <==> a.users == SetOf([u, v]))
    ensures SetOf([u]) != SetOf([u, v]) && Distinct([u]) && Distinct([u, v])
  {
    SetOfTwo(u, v);
    assert v in SetOf([u, v]) && v !in SetOf([u]);
    FoundMeans(a, [u], false);
    FoundMeans(a, [u, v], false);
  }

  /** A call whose content differs from the latest answer found overwrites that or adds an answer. */
  lemma Differs(answers: seq<Answer>, i: nat, s: Save, isGlobal: bool, blank: IsBlankChoice)
    requires i < |answers| && Found(answers[i], s.users, isGlobal) && !SameAnswer(answers[i], s.content, s.valid)
    requires forall k :: i < k < |answers| ==> !Found(answers[k], s.users, isGlobal)
    requires !TooLarge(s) && Distinct(s.users)
    ensures AfterSave(answers, s, isGlobal, blank) ==
            if s.overwrite then answers[i := Overwritten(answers[i], s)] else answers + [Fresh(s)]
  {
    SkippedIs(answers, s, isGlobal, blank, i);
  }

  lemma RepeatAt(view: seq<Answer>, i: nat)
    requires 0 < i < |view| && SameAnswer(view[i - 1], view[i].content, view[i].valid)
    ensures !NoRepeats(view)
  {
  }

  lemma ViewOfThree(x: Answer, y: Answer, z: Answer, users: seq<int>)
    requires Found(x, users, false) && Found(y, users, false) && Found(z, users, false)
    ensures View([x, y, z], users, false) == [x, y, z]
  {
    assert [x] == [] + [x] && [x, y] == [x] + [y] && [x, y, z] == [x, y] + [z];
    ViewMore([], x, users, false);
    ViewMore([x], y, users, false);
    ViewMore([x, y], z, users, false);
  }

  /** Overwriting can bring two equal answers together. */
  lemma {:induction false} OverwritingRepeats(blank: IsBlankChoice)
    requires !blank("a")
    ensures !NoRepeats(AfterSaves([], [Simple([1], "a"), Simple([1], "b"), Simple([1], "a").(overwrite := true)],
                                  true, blank))
  {
    var a, b, c := Simple([1], "a"), Simple([1], "b"), Simple([1], "a").(overwrite := true);
    ThreeSaves(a, b, c, true, blank);
    var x, y := Fresh(a), Fresh(b);
    assert AfterSave([], a, true, blank) == [x];
    Differs([x], 0, b, true, blank);
    assert [x] + [y] == [x, y];
    Differs([x, y], 1, c, true, blank);
    var after := [x, y][1 := Overwritten(y, c)];
    RepeatAt(after, 1);
  }

  /** Runs without overwriting, for any users, never lose an answer or change what it says. */
  lemma {:induction false} RunsKeepContents(answers: seq<Answer>, saves: seq<Save>, isGlobal: bool,
                                            blank: IsBlankChoice)
    requires forall i :: 0 <= i < |saves| ==> !saves[i].overwrite
    ensures var after := AfterSaves(answers, saves, isGlobal, blank);
            |after| >= |answers| && forall i :: 0 <= i < |answers| ==>
              SameAnswer(after[i], answers[i].content, answers[i].valid) &&
              after[i].answeredOn == answers[i].answeredOn && after[i].users == answers[i].users
    decreases |saves|
  {
    if saves != [] {
      RunsKeepContents(answers, saves[..|saves| - 1], isGlobal, blank);
    }
  }

  lemma OverwritingStep(before: seq<Answer>, s: Save, users: seq<int>, isGlobal: bool, blank: IsBlankChoice)
    requires Visible(users, isGlobal) && s.overwrite && (isGlobal || s.users == users)
    requires |before| <= 1 && forall i :: 0 <= i < |before| ==> Found(before[i], users, isGlobal)
    ensures var after := AfterSave(before, s, isGlobal, blank);
            |after| <= 1 && forall i :: 0 <= i < |after| ==> Found(after[i], users, isGlobal)
  {
    LatestIs(before, s.users, isGlobal, |before| - 1);
    FoundMeans(Fresh(s), users, isGlobal);
    if before != [] {
      FoundMeans(before[0], users, isGlobal);
      FoundMeans(Regraded(before[0], s), users, isGlobal);
      FoundMeans(Overwritten(before[0], s), users, isGlobal);
    }
  }

  /** Runs that always overwrite, of one list of users or of anyone on a global task, keep at most one answer. */
  lemma {:induction false} OverwritingKeepsOne(saves: seq<Save>, users: seq<int>, isGlobal: bool, blank: IsBlankChoice)
    requires Visible(users, isGlobal)
    requires forall i :: 0 <= i < |saves| ==> saves[i].overwrite && (isGlobal || saves[i].users == users)
    ensures var after := AfterSaves([], saves, isGlobal, blank);
            |after| <= 1 && forall i :: 0 <= i < |after| ==> Found(after[i], users, isGlobal)
    decreases |saves|
  {
    if saves != [] {
      var n := |saves| - 1;
      OverwritingKeepsOne(saves[..n], users, isGlobal, blank);
      OverwritingStep(AfterSaves([], saves[..n], isGlobal, blank), saves[n], users, isGlobal, blank);
    }
  }

  /** The latest answer found says the same. */
  predicate SaysNothingNew(before: seq<Answer>, s: Save) {
    && before != [] && !s.force
    && before[|before| - 1].content == s.content && before[|before| - 1].valid == s.valid
  }

  /** An unchosen radio button before the first answer. */
  predicate NothingChosen(before: seq<Answer>, s: Save, blank: IsBlankChoice) {
    before == [] && blank(s.content) && !s.force
  }

  /**
   The latest answer says what was saved and carries its points without round-off. One that says nothing new
   leaves the time and the users of the answer as they were; overwriting gives it the time of the call and keeps
   its users; otherwise there is one more answer, of the users and the time of the call.
   */
  predicate TakesEffect(before: seq<Answer>, after: seq<Answer>, s: Save) {
    && after != []
    && var last, n := after[|after| - 1], |before|;
       && last.content == s.content && last.valid == s.valid
       && last.points == RoundFloatError(s.points) && last.lastPointsModifier == s.pointsGivenBy
       && if SaysNothingNew(before, s) then
            |after| == n && after[..n - 1] == before[..n - 1] &&
            last.answeredOn == before[n - 1].answeredOn && last.users == before[n - 1].users
          else if s.overwrite && before != [] then
            |after| == n && after[..n - 1] == before[..n - 1] &&
            last.answeredOn == s.now && last.users == before[n - 1].users
          else
            |after| == n + 1 && after[..n] == before &&
            last.answeredOn == s.now && last.users == set u | u in s.users
  }

  lemma SeenTakesEffect(existing: seq<Answer>, s: Save, blank: IsBlankChoice)
    requires !TooLarge(s)
    requires Distinct(s.users) || SaysNothingNew(existing, s) || NothingChosen(existing, s, blank) ||
             (s.overwrite && existing != [])
    ensures var after := Seen(existing, s, blank);
            if NothingChosen(existing, s, blank) then after == [] else TakesEffect(existing, after, s)
  {
  }

  /** The content is longer than allowed. */
  predicate TooLong(s: Save) {
    s.maxLength > 0 && |s.content| > s.maxLength
  }

  /**
   A call raises exactly when its content is too long, or when it would add an answer for a user that it lists
   twice.
   */
  lemma RejectedWhen(answers: seq<Answer>, s: Save, isGlobal: bool, blank: IsBlankChoice)
    ensures var before := View(answers, s.users, isGlobal);
            Rejected(answers, s, isGlobal, blank) <==>
            TooLong(s) || (!Distinct(s.users) && !SaysNothingNew(before, s) && !NothingChosen(before, s, blank) &&
                           !(s.overwrite && before != []))
  {
    LatestIs(answers, s.users, isGlobal, Latest(answers, s.users, isGlobal));
  }

  /**
   After any call that does not raise the latest answer that its users see is the saved one; the one exception
   is an unchosen radio button before the first answer.
   */
  lemma SaveTakesEffect(answers: seq<Answer>, s: Save, isGlobal: bool, blank: IsBlankChoice)
    requires !Rejected(answers, s, isGlobal, blank) && Visible(s.users, isGlobal)
    ensures var before := View(answers, s.users, isGlobal);
            var after := View(AfterSave(answers, s, isGlobal, blank), s.users, isGlobal);
            if NothingChosen(before, s, blank) then after == [] else TakesEffect(before, after, s)
  {
    RejectedWhen(answers, s, isGlobal, blank);
    SaveIsSeen(answers, s, isGlobal, blank);
    SeenTakesEffect(View(answers, s.users, isGlobal), s, blank);
  }
}
