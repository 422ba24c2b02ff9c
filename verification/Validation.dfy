/** Structure validation: one pass with sets and a stack, and the global nesting it stands for. */
module Validation {
  import opened Text
  import opened AttributeList
  import opened DocumentFormat
  import opened DocumentParsing

  /** What the validator looks at in a block; an absent attribute is an empty text. */
  datatype Para = Para(
    isCode: bool, md: string, id: Option<string>, taskId: string, area: string, areaEnd: string, hasClasses: bool)

  datatype Issue =
    | AttributesAtEndOfCodeBlock(id: Option<string>)
    | DuplicateParagraphId(parId: string)
    | InvalidParagraphId(parId: string)
    | IllegalId(name: string)
    | DuplicateTaskId(task: string)
    | MultipleAreasWithSameName(area: string)
    | ZeroLengthArea(id: Option<string>, area: string)
    | OverlappingClassedArea(id: Option<string>, open: string, ended: string)
    | AreaEndWithoutStart(id: Option<string>, area: string)
    | DuplicateAreaEnd(area: string)
    | AreaWithoutEnd(area: string)

  function TextOf(v: Option<AttrVal>): string {
    match v
    case Some(Str(text)) => text
    case _ => ""
  }

  function HasClasses(t: Tokens): bool {
    IsSet(t, "classes")
  }

  function View(b: Block): Para {
    Para(b.kind == Code, b.md, if b.id.Some? then Some(TextOf(b.id)) else None,
         TextOf(Get(b.attrs, "taskId")), TextOf(Get(b.attrs, "area")), TextOf(Get(b.attrs, "area_end")),
         HasClasses(b.attrs))
  }

  // ----- what each paragraph must satisfy with respect to the earlier ones -----

  predicate EndOk(p: Para) {
    p.isCode ==> EndIsClean(p.md) != Ok(false)
  }

  /** Looking at the last line of the code block raises something that is not caught. */
  predicate EndRaises(p: Para) {
    p.isCode && EndIsClean(p.md).Raised? && EndIsClean(p.md).error != ValueError
  }

  predicate IdOk(ps: seq<Para>, j: nat, validId: string -> bool)
    requires j < |ps|
  {
    ps[j].id.Some? ==> validId(ps[j].id.value) && forall i :: 0 <= i < j ==> ps[i].id != ps[j].id
  }

  predicate TaskOk(ps: seq<Para>, j: nat, validName: string -> bool)
    requires j < |ps|
  {
    ps[j].taskId != "" ==> validName(ps[j].taskId) && forall i :: 0 <= i < j ==> ps[i].taskId != ps[j].taskId
  }

  predicate AreaOk(ps: seq<Para>, j: nat, validName: string -> bool)
    requires j < |ps|
  {
    ps[j].area != "" ==> validName(ps[j].area) && forall i :: 0 <= i < j ==> ps[i].area != ps[j].area
  }

  predicate ClassedStart(p: Para) {
    p.area != "" && p.hasClasses
  }

  /** A classed area that starts at `i` and has not ended before `n`. */
  predicate IsOpen(ps: seq<Para>, i: nat, n: nat)
    requires n <= |ps| && i < |ps|
  {
    ClassedStart(ps[i]) && forall e :: i <= e < n ==> ps[e].areaEnd != ps[i].area
  }

  /** An end belongs to an area that started in an earlier block and has not ended yet. */
  predicate EndMatches(ps: seq<Para>, j: nat)
    requires j < |ps|
  {
    ps[j].areaEnd != "" ==>
      && (exists i :: 0 <= i < j && ps[i].area == ps[j].areaEnd)
      && ps[j].area != ps[j].areaEnd
      && forall e :: 0 <= e < j ==> ps[e].areaEnd != ps[j].areaEnd
  }

  /** No classed area that started after the ending classed one is still open. */
  predicate EndNests(ps: seq<Para>, j: nat)
    requires j < |ps|
  {
    forall i, k :: 0 <= i < k <= j && IsOpen(ps, i, j) && ps[i].area == ps[j].areaEnd ==> !IsOpen(ps, k, j)
  }

  predicate StepOk(ps: seq<Para>, j: nat, validId: string -> bool, validName: string -> bool)
    requires j < |ps|
  {
    && EndOk(ps[j]) && IdOk(ps, j, validId) && TaskOk(ps, j, validName) && AreaOk(ps, j, validName)
    && EndMatches(ps, j) && EndNests(ps, j)
  }

  predicate PrefixOk(ps: seq<Para>, n: nat, validId: string -> bool, validName: string -> bool)
    requires n <= |ps|
  {
    forall j :: 0 <= j < n ==> StepOk(ps, j, validId, validName)
  }

  predicate AllEnded(ps: seq<Para>) {
    forall i :: 0 <= i < |ps| && ps[i].area != "" ==> exists e :: 0 <= e < |ps| && ps[e].areaEnd == ps[i].area
  }

  // ----- the declarative meaning -----

  /** Area `i` ends at `e`. */
  predicate Spans(ps: seq<Para>, i: nat, e: nat) {
    i < |ps| && e < |ps| && ps[i].area != "" && ps[e].areaEnd == ps[i].area
  }

  /** Ids, task ids and area names occur once each and are valid. */
  predicate Distinct(ps: seq<Para>, validId: string -> bool, validName: string -> bool) {
    && (forall i :: 0 <= i < |ps| && ps[i].id.Some? ==> validId(ps[i].id.value))
    && (forall i, j :: 0 <= i < j < |ps| && ps[j].id.Some? ==> ps[i].id != ps[j].id)
    && (forall i :: 0 <= i < |ps| && ps[i].taskId != "" ==> validName(ps[i].taskId))
    && (forall i, j :: 0 <= i < j < |ps| && ps[j].taskId != "" ==> ps[i].taskId != ps[j].taskId)
    && (forall i :: 0 <= i < |ps| && ps[i].area != "" ==> validName(ps[i].area))
    && (forall i, j :: 0 <= i < j < |ps| && ps[j].area != "" ==> ps[i].area != ps[j].area)
  }

  /** Every area that starts ends exactly once, in a later block, and nothing else ends. */
  ghost predicate Bracketed(ps: seq<Para>) {
    && (forall i :: 0 <= i < |ps| && ps[i].area != "" ==> exists e :: i < e < |ps| && Spans(ps, i, e))
    && (forall e :: 0 <= e < |ps| && ps[e].areaEnd != "" ==> exists i :: 0 <= i < e && Spans(ps, i, e))
    && (forall i: nat, e: nat, f: nat :: Spans(ps, i, e) && Spans(ps, i, f) ==> e == f)
  }

  /** Any two classed areas are disjoint or nested. */
  ghost predicate Laminar(ps: seq<Para>) {
    forall i: nat, k: nat, e: nat, f: nat |
      i < k && Spans(ps, i, e) && Spans(ps, k, f) && ClassedStart(ps[i]) && ClassedStart(ps[k]) ::
      e < k || f < e
  }

  ghost predicate WellStructured(ps: seq<Para>, validId: string -> bool, validName: string -> bool) {
    && (forall i :: 0 <= i < |ps| ==> EndOk(ps[i]))
    && Distinct(ps, validId, validName) && Bracketed(ps) && Laminar(ps)
  }

  /** Under the local checks an end closes exactly the area of its name. */
  lemma EndHasStart(ps: seq<Para>, i: nat, e: nat, validId: string -> bool, validName: string -> bool)
    requires PrefixOk(ps, |ps|, validId, validName)
    requires Spans(ps, i, e)
    ensures i < e
  {
    assert StepOk(ps, e, validId, validName) && StepOk(ps, i, validId, validName);
    var i' :| 0 <= i' < e && ps[i'].area == ps[e].areaEnd;
    assert StepOk(ps, i', validId, validName);
    assert i == i';
  }

  lemma StepsGiveStarts(ps: seq<Para>, validId: string -> bool, validName: string -> bool)
    requires PrefixOk(ps, |ps|, validId, validName)
    ensures forall e :: 0 <= e < |ps| && ps[e].areaEnd != "" ==> exists i :: 0 <= i < e && Spans(ps, i, e)
  {
    forall e | 0 <= e < |ps| && ps[e].areaEnd != ""
      ensures exists i :: 0 <= i < e && Spans(ps, i, e)
    {
      StartsEarlier(ps, e, validId, validName);
    }
  }

  lemma StepsGiveEnds(ps: seq<Para>, validId: string -> bool, validName: string -> bool)
    requires PrefixOk(ps, |ps|, validId, validName) && AllEnded(ps)
    ensures forall i :: 0 <= i < |ps| && ps[i].area != "" ==> exists e :: i < e < |ps| && Spans(ps, i, e)
  {
    forall i | 0 <= i < |ps| && ps[i].area != ""
      ensures exists e :: i < e < |ps| && Spans(ps, i, e)
    {
      EndsLater(ps, i, validId, validName);
    }
  }

  lemma {:induction false} StepsGiveBrackets(ps: seq<Para>, validId: string -> bool, validName: string -> bool)
    requires PrefixOk(ps, |ps|, validId, validName) && AllEnded(ps)
    ensures Bracketed(ps)
  {
    StepsGiveStarts(ps, validId, validName);
    StepsGiveEnds(ps, validId, validName);
    EndsOnce(ps, validId, validName);
  }

  lemma StartsEarlier(ps: seq<Para>, e: nat, validId: string -> bool, validName: string -> bool)
    requires PrefixOk(ps, |ps|, validId, validName)
    requires e < |ps| && ps[e].areaEnd != ""
    ensures exists i :: 0 <= i < e && Spans(ps, i, e)
  {
    assert StepOk(ps, e, validId, validName);
    var i :| 0 <= i < e && ps[i].area == ps[e].areaEnd;
    assert Spans(ps, i, e);
  }

  lemma EndsOnce(ps: seq<Para>, validId: string -> bool, validName: string -> bool)
    requires PrefixOk(ps, |ps|, validId, validName)
    ensures forall i: nat, e: nat, f: nat :: Spans(ps, i, e) && Spans(ps, i, f) ==> e == f
  {
    forall i: nat, e: nat, f: nat | Spans(ps, i, e) && Spans(ps, i, f)
      ensures e == f
    {
      assert StepOk(ps, e, validId, validName) && StepOk(ps, f, validId, validName);
    }
  }

  lemma EndsLater(ps: seq<Para>, i: nat, validId: string -> bool, validName: string -> bool)
    requires PrefixOk(ps, |ps|, validId, validName) && AllEnded(ps)
    requires i < |ps| && ps[i].area != ""
    ensures exists e :: i < e < |ps| && Spans(ps, i, e)
  {
    var e :| 0 <= e < |ps| && ps[e].areaEnd == ps[i].area;
    assert Spans(ps, i, e);
    EndHasStart(ps, i, e, validId, validName);
  }

  lemma {:induction false} StepsGiveLaminar(ps: seq<Para>, validId: string -> bool, validName: string -> bool)
    requires PrefixOk(ps, |ps|, validId, validName) && Bracketed(ps)
    ensures Laminar(ps)
  {
    forall i: nat, k: nat, e: nat, f: nat |
      i < k && Spans(ps, i, e) && Spans(ps, k, f) && ClassedStart(ps[i]) && ClassedStart(ps[k])
      ensures e < k || f < e
    {
      assert StepOk(ps, e, validId, validName) && StepOk(ps, k, validId, validName);
      if k <= e {
        OpenBefore(ps, i, e);
        assert EndNests(ps, e) && !IsOpen(ps, k, e);
        var d: nat :| k <= d < e && ps[d].areaEnd == ps[k].area;
        assert Spans(ps, k, d);
      }
    }
  }

  lemma OneEnd(ps: seq<Para>, i: nat, e: nat, d: nat)
    requires Bracketed(ps) && Spans(ps, i, e) && d < |ps| && d != e
    ensures ps[d].areaEnd != ps[i].area
  {
    assert Spans(ps, i, d) ==> d == e;
  }

  /** Until its end a classed area is open. */
  lemma OpenBefore(ps: seq<Para>, i: nat, e: nat)
    requires Bracketed(ps) && Spans(ps, i, e) && ClassedStart(ps[i])
    ensures IsOpen(ps, i, e)
  {
    forall d | i <= d < e
      ensures ps[d].areaEnd != ps[i].area
    {
      OneEnd(ps, i, e, d);
    }
  }

  lemma {:induction false} StructureMatches(ps: seq<Para>, j: nat, validId: string -> bool, validName: string -> bool)
    requires WellStructured(ps, validId, validName) && j < |ps|
    ensures EndMatches(ps, j)
  {
    if ps[j].areaEnd != "" {
      var i :| 0 <= i < j && Spans(ps, i, j);
      forall e | 0 <= e < j
        ensures ps[e].areaEnd != ps[j].areaEnd
      {
        OneEnd(ps, i, j, e);
      }
    }
  }

  lemma {:induction false} StructureNests(ps: seq<Para>, j: nat, validId: string -> bool, validName: string -> bool)
    requires WellStructured(ps, validId, validName) && j < |ps|
    ensures EndNests(ps, j)
  {
    forall i, k | 0 <= i < k <= j && IsOpen(ps, i, j) && ps[i].area == ps[j].areaEnd
      ensures !IsOpen(ps, k, j)
    {
      if ClassedStart(ps[k]) {
        assert Spans(ps, i, j);
        var f :| k < f < |ps| && Spans(ps, k, f);
        assert f < j;
      }
    }
  }

  lemma {:induction false} StructureGivesStep(ps: seq<Para>, j: nat, validId: string -> bool, validName: string -> bool)
    requires WellStructured(ps, validId, validName) && j < |ps|
    ensures StepOk(ps, j, validId, validName)
  {
    StructureMatches(ps, j, validId, validName);
    StructureNests(ps, j, validId, validName);
  }

  lemma {:induction false} StructureEnds(ps: seq<Para>)
    requires Bracketed(ps)
    ensures AllEnded(ps)
  {
    forall i | 0 <= i < |ps| && ps[i].area != ""
      ensures exists e :: 0 <= e < |ps| && ps[e].areaEnd == ps[i].area
    {
      var e :| i < e < |ps| && Spans(ps, i, e);
    }
  }

  lemma StepsGiveRest(ps: seq<Para>, validId: string -> bool, validName: string -> bool)
    requires PrefixOk(ps, |ps|, validId, validName)
    ensures Distinct(ps, validId, validName) && forall i :: 0 <= i < |ps| ==> EndOk(ps[i])
  {
    forall j | 0 <= j < |ps|
      ensures EndOk(ps[j]) && IdOk(ps, j, validId) && TaskOk(ps, j, validName) && AreaOk(ps, j, validName)
    {
      assert StepOk(ps, j, validId, validName);
    }
    assert forall j :: 0 <= j < |ps| && ps[j].id.Some? ==> IdOk(ps, j, validId);
  }

  /** The local checks hold everywhere if and only if the document is well structured. */
  lemma {:induction false} StepsMeanStructure(ps: seq<Para>, validId: string -> bool, validName: string -> bool)
    ensures PrefixOk(ps, |ps|, validId, validName) && AllEnded(ps) <==> WellStructured(ps, validId, validName)
  {
    if PrefixOk(ps, |ps|, validId, validName) && AllEnded(ps) {
      StepsGiveRest(ps, validId, validName);
      StepsGiveBrackets(ps, validId, validName);
      StepsGiveLaminar(ps, validId, validName);
    }
    if WellStructured(ps, validId, validName) {
      forall j | 0 <= j < |ps|
        ensures StepOk(ps, j, validId, validName)
      {
        StructureGivesStep(ps, j, validId, validName);
      }
      StructureEnds(ps);
    }
  }

  // ----- the pass over the blocks -----

  function Ids(ps: seq<Para>, n: nat): set<string>
    requires n <= |ps|
  {
    set i | 0 <= i < n && ps[i].id.Some? :: ps[i].id.value
  }

  function Tasks(ps: seq<Para>, n: nat): set<string>
    requires n <= |ps|
  {
    set i | 0 <= i < n && ps[i].taskId != "" :: ps[i].taskId
  }

  function Areas(ps: seq<Para>, n: nat): set<string>
    requires n <= |ps|
  {
    set i | 0 <= i < n && ps[i].area != "" :: ps[i].area
  }

  function Ends(ps: seq<Para>, n: nat): set<string>
    requires n <= |ps|
  {
    set i | 0 <= i < n && ps[i].areaEnd != "" :: ps[i].areaEnd
  }

  /**
   The stack holds, in the order they started, the classed areas that start before `m` and have not
   ended before `n`; `starts` says where.
   */
  ghost predicate StackIs(ps: seq<Para>, m: nat, n: nat, stack: seq<string>, starts: seq<nat>)
    requires m <= |ps| && n <= |ps|
  {
    && |stack| == |starts|
    && (forall a :: 0 <= a < |starts| ==> starts[a] < m && IsOpen(ps, starts[a], n) && stack[a] == ps[starts[a]].area)
    && (forall a, b :: 0 <= a < b < |starts| ==> starts[a] < starts[b])
    && (forall i :: 0 <= i < m && IsOpen(ps, i, n) ==> i in starts)
  }

  predicate AreasDiffer(ps: seq<Para>, n: nat)
    requires n <= |ps|
  {
    forall i, j :: 0 <= i < j < n && ps[j].area != "" ==> ps[i].area != ps[j].area
  }

  // ----- which issues are reported -----

  predicate EndReports(p: Para, x: Issue) {
    x == AttributesAtEndOfCodeBlock(p.id) && !EndOk(p)
  }

  /** An id or a task id that occurred before, or that is not valid. */
  predicate IdReports(ps: seq<Para>, n: nat, x: Issue, validId: string -> bool, validName: string -> bool)
    requires n < |ps|
  {
    match x
    case DuplicateParagraphId(id) => ps[n].id == Some(id) && id in Ids(ps, n)
    case InvalidParagraphId(id) => ps[n].id == Some(id) && !validId(id)
    case IllegalId(name) => name != "" && ps[n].taskId == name && !validName(name)
    case DuplicateTaskId(task) => task != "" && ps[n].taskId == task && task in Tasks(ps, n)
    case _ => false
  }

  predicate StartReports(ps: seq<Para>, n: nat, x: Issue, validName: string -> bool)
    requires n < |ps|
  {
    match x
    case IllegalId(name) => name != "" && ps[n].area == name && !validName(name)
    case MultipleAreasWithSameName(area) => area != "" && ps[n].area == area && area in Areas(ps, n)
    case _ => false
  }

  /** The end of an area that starts here, that is not known or ended before, or, if it is on the stack, not on top. */
  predicate AreaEndReports(ps: seq<Para>, n: nat, stack: seq<string>, x: Issue)
    requires n < |ps|
  {
    var p := ps[n];
    p.areaEnd != "" &&
    match x
    case ZeroLengthArea(id, area) => id == p.id && area == p.areaEnd == p.area
    case OverlappingClassedArea(id, open, ended) =>
      id == p.id && ended == p.areaEnd && ended in stack && open == stack[|stack| - 1] && open != ended
    case AreaEndWithoutStart(id, area) => id == p.id && area == p.areaEnd && area !in Areas(ps, n + 1)
    case DuplicateAreaEnd(area) => area == p.areaEnd && area in Ends(ps, n)
    case _ => false
  }

  function Pushed(p: Para, stack: seq<string>): seq<string> {
    if ClassedStart(p) then stack + [p.area] else stack
  }

  /** The stack of classed areas before block `n`, whatever issues there were. */
  function StackBefore(ps: seq<Para>, n: nat): seq<string>
    requires n <= |ps|
  {
    if n == 0 then [] else Popped(ps[n - 1], Pushed(ps[n - 1], StackBefore(ps, n - 1)))
  }

  predicate ParReports(ps: seq<Para>, n: nat, stack: seq<string>, x: Issue, validId: string -> bool,
                       validName: string -> bool)
    requires n < |ps|
  {
    || EndReports(ps[n], x) || IdReports(ps, n, x, validId, validName) || StartReports(ps, n, x, validName)
    || AreaEndReports(ps, n, Pushed(ps[n], stack), x)
  }

  predicate HasIssue(ps: seq<Para>, j: nat, x: Issue, validId: string -> bool, validName: string -> bool)
    requires j < |ps|
  {
    ParReports(ps, j, StackBefore(ps, j), x, validId, validName)
  }

  /** Some block before `n` has the issue. */
  predicate Reported(ps: seq<Para>, n: nat, x: Issue, validId: string -> bool, validName: string -> bool)
    requires n <= |ps|
  {
    exists j :: 0 <= j < n && HasIssue(ps, j, x, validId, validName)
  }

  /** An area that starts somewhere and ends nowhere. */
  predicate Endless(ps: seq<Para>, x: Issue) {
    x.AreaWithoutEnd? && x.area in Areas(ps, |ps|) && x.area !in Ends(ps, |ps|)
  }

  /** The last line of a code block; a missing newline is not an issue, other exceptions escape. */
  method CheckCodeEnd(p: Para) returns (issues: seq<Issue>, raised: Option<Error>)
    ensures raised.Some? <==> EndRaises(p)
    ensures raised.None? ==> forall x :: x in issues <==> EndReports(p, x)
  {
    issues, raised := [], None;
    if p.isCode {
      var clean := ValidateEndOfCodeBlock(p.md);
      match clean {
        case Raised(e) =>
          if e != ValueError {
            raised := Some(e);
          }
        case Ok(ok) =>
          if !ok {
            issues := [AttributesAtEndOfCodeBlock(p.id)];
          }
      }
    }
  }

  /** One issue for every area that has not ended. */
  method ReportUnended(areas: set<string>) returns (issues: seq<Issue>)
    ensures forall x :: x in issues <==> x.AreaWithoutEnd? && x.area in areas
    ensures issues == [] <==> areas == {}
  {
    var unended := areas;
    issues := [];
    while unended != {}
      invariant unended <= areas && |issues| + |unended| == |areas|
      invariant forall x :: x in issues <==> x.AreaWithoutEnd? && x.area in areas - unended
      decreases unended
    {
      var a :| a in unended;
      issues := issues + [AreaWithoutEnd(a)];
      unended := unended - {a};
    }
    assert |areas| == 0 ==> areas == {};
  }

  /** Issues of the identifiers of one paragraph. */
  method CheckIds(ps: seq<Para>, n: nat, foundIds: set<string>, foundTasks: set<string>,
                  validId: string -> bool, validName: string -> bool)
    returns (issues: seq<Issue>, ids: set<string>, tasks: set<string>)
    requires n < |ps| && foundIds == Ids(ps, n) && foundTasks == Tasks(ps, n)
    ensures forall x :: x in issues <==> IdReports(ps, n, x, validId, validName)
    ensures ids == Ids(ps, n + 1) && tasks == Tasks(ps, n + 1)
  {
    var p := ps[n];
    issues, ids, tasks := [], foundIds, foundTasks;
    NextSets(ps, n);
    if p.id.Some? {
      if p.id.value in foundIds {
        issues := issues + [DuplicateParagraphId(p.id.value)];
      }
      if !validId(p.id.value) {
        issues := issues + [InvalidParagraphId(p.id.value)];
      }
      ids := ids + {p.id.value};
    }
    if p.taskId != "" {
      if !validName(p.taskId) {
        issues := issues + [IllegalId(p.taskId)];
      }
      if p.taskId in foundTasks {
        issues := issues + [DuplicateTaskId(p.taskId)];
      }
      tasks := tasks + {p.taskId};
    }
  }

  /** Issues of the area a paragraph starts. */
  method CheckAreaStart(ps: seq<Para>, n: nat, foundAreas: set<string>, validName: string -> bool)
    returns (issues: seq<Issue>)
    requires n < |ps| && foundAreas == Areas(ps, n)
    ensures forall x :: x in issues <==> StartReports(ps, n, x, validName)
  {
    var p := ps[n];
    issues := [];
    if p.area != "" {
      if !validName(p.area) {
        issues := issues + [IllegalId(p.area)];
      }
      if p.area in foundAreas {
        issues := issues + [MultipleAreasWithSameName(p.area)];
      }
    }
  }

  /** What is asked of the end of an area: that it is known, not ended before and, if classed, the innermost one. */
  predicate EndStepOk(ps: seq<Para>, n: nat, stack: seq<string>)
    requires n < |ps|
  {
    var e := ps[n].areaEnd;
    e != "" ==> e != ps[n].area && e in Areas(ps, n + 1) && e !in Ends(ps, n) &&
                (e in stack ==> e == stack[|stack| - 1])
  }

  function Popped(p: Para, stack: seq<string>): seq<string> {
    if p.areaEnd != "" && p.areaEnd in stack then stack[..|stack| - 1] else stack
  }

  /** Issues of the area a paragraph ends, and the stack after it. */
  method CheckAreaEnd(ps: seq<Para>, n: nat, foundAreas: set<string>, foundEnds: set<string>, stack: seq<string>)
    returns (issues: seq<Issue>, rest: seq<string>)
    requires n < |ps| && foundAreas == Areas(ps, n + 1) && foundEnds == Ends(ps, n)
    ensures forall x :: x in issues <==> AreaEndReports(ps, n, stack, x)
    ensures rest == Popped(ps[n], stack)
  {
    var p := ps[n];
    issues, rest := [], stack;
    if p.areaEnd != "" {
      if p.areaEnd == p.area {
        issues := issues + [ZeroLengthArea(p.id, p.area)];
      }
      if p.areaEnd in stack {
        if p.areaEnd != stack[|stack| - 1] {
          issues := issues + [OverlappingClassedArea(p.id, stack[|stack| - 1], p.areaEnd)];
        }
        rest := stack[..|stack| - 1];
      }
      if p.areaEnd !in foundAreas {
        issues := issues + [AreaEndWithoutStart(p.id, p.areaEnd)];
      }
      if p.areaEnd in foundEnds {
        issues := issues + [DuplicateAreaEnd(p.areaEnd)];
      }
    }
  }

  lemma {:induction false} PushStack(ps: seq<Para>, n: nat, stack: seq<string>, starts: seq<nat>)
    requires n < |ps| && StackIs(ps, n, n, stack, starts)
    ensures ClassedStart(ps[n]) ==> StackIs(ps, n + 1, n, stack + [ps[n].area], starts + [n])
    ensures !ClassedStart(ps[n]) ==> StackIs(ps, n + 1, n, stack, starts)
  {
  }

  /** In a clean document the check of the stack top is exactly the nesting condition. */
  lemma {:induction false} TopMeansNests(ps: seq<Para>, n: nat, stack: seq<string>, starts: seq<nat>)
    requires n < |ps| && ps[n].areaEnd != ps[n].area
    requires StackIs(ps, n + 1, n, stack, starts) && AreasDiffer(ps, n + 1)
    ensures var e := ps[n].areaEnd;
            (e != "" && e in stack ==> e == stack[|stack| - 1]) <==> EndNests(ps, n)
  {
    var e := ps[n].areaEnd;
    if e in stack && e == stack[|stack| - 1] {
      var top := starts[|starts| - 1];
      forall i, k | 0 <= i < k <= n && IsOpen(ps, i, n) && ps[i].area == e
        ensures !IsOpen(ps, k, n)
      {
        assert i == top;
        assert k !in starts;
      }
    }
    if e in stack && e != stack[|stack| - 1] {
      var a :| 0 <= a < |stack| && stack[a] == e;
      var i, k := starts[a], starts[|starts| - 1];
      assert i < k && IsOpen(ps, i, n) && IsOpen(ps, k, n);
    }
  }

  lemma {:induction false} PopNone(ps: seq<Para>, n: nat, stack: seq<string>, starts: seq<nat>)
    requires n < |ps| && StackIs(ps, n + 1, n, stack, starts)
    requires ps[n].areaEnd == "" || ps[n].areaEnd !in stack
    ensures StackIs(ps, n + 1, n + 1, stack, starts)
  {
    var e := ps[n].areaEnd;
    assert forall i :: 0 <= i <= n ==> (IsOpen(ps, i, n + 1) <==> IsOpen(ps, i, n) && ps[i].area != e);
  }

  lemma {:induction false} PopTop(ps: seq<Para>, n: nat, stack: seq<string>, starts: seq<nat>)
    requires n < |ps| && StackIs(ps, n + 1, n, stack, starts) && AreasDiffer(ps, n + 1)
    requires var e := ps[n].areaEnd; e != "" && e in stack && e == stack[|stack| - 1]
    ensures var k := |stack| - 1; StackIs(ps, n + 1, n + 1, stack[..k], starts[..k])
  {
    var e := ps[n].areaEnd;
    assert forall i :: 0 <= i <= n ==> (IsOpen(ps, i, n + 1) <==> IsOpen(ps, i, n) && ps[i].area != e);
    var k := |stack| - 1;
    forall a | 0 <= a < k
      ensures stack[a] != e
    {
      assert starts[a] < starts[k];
    }
    forall i | 0 <= i < n + 1 && IsOpen(ps, i, n + 1)
      ensures i in starts[..k]
    {
      var a :| 0 <= a < |starts| && starts[a] == i;
      assert a != k;
    }
  }

  /** Ending the innermost classed area, or none, leaves the stack of what is still open. */
  lemma PopStack(ps: seq<Para>, n: nat, stack: seq<string>, starts: seq<nat>)
    requires n < |ps| && StackIs(ps, n + 1, n, stack, starts) && AreasDiffer(ps, n + 1)
    requires var e := ps[n].areaEnd; e != "" && e in stack ==> e == stack[|stack| - 1]
    ensures var e := ps[n].areaEnd; var k := |stack| - 1;
            if e != "" && e in stack then StackIs(ps, n + 1, n + 1, stack[..k], starts[..k])
            else StackIs(ps, n + 1, n + 1, stack, starts)
  {
    if ps[n].areaEnd != "" && ps[n].areaEnd in stack {
      PopTop(ps, n, stack, starts);
    } else {
      PopNone(ps, n, stack, starts);
    }
  }

  lemma {:induction false} NextSets(ps: seq<Para>, n: nat)
    requires n < |ps|
    ensures Ids(ps, n + 1) == Ids(ps, n) + (if ps[n].id.Some? then {ps[n].id.value} else {})
    ensures Tasks(ps, n + 1) == Tasks(ps, n) + (if ps[n].taskId != "" then {ps[n].taskId} else {})
    ensures Areas(ps, n + 1) == Areas(ps, n) + (if ps[n].area != "" then {ps[n].area} else {})
    ensures Ends(ps, n + 1) == Ends(ps, n) + (if ps[n].areaEnd != "" then {ps[n].areaEnd} else {})
  {
  }

  /** The code of one step decides its local conditions. */
  lemma {:induction false} StepDecided(ps: seq<Para>, n: nat, stack: seq<string>, starts: seq<nat>,
                                       validId: string -> bool, validName: string -> bool)
    requires n < |ps| && StackIs(ps, n + 1, n, stack, starts)
    requires PrefixOk(ps, n, validId, validName)
    requires AreaOk(ps, n, validName)
    ensures var e := ps[n].areaEnd;
            EndStepOk(ps, n, stack) <==> EndMatches(ps, n) && EndNests(ps, n)
    ensures AreasDiffer(ps, n + 1)
  {
    forall i, j | 0 <= i < j < n + 1 && ps[j].area != ""
      ensures ps[i].area != ps[j].area
    {
      if j < n { assert StepOk(ps, j, validId, validName); }
    }
    var e := ps[n].areaEnd;
    if e == "" {
      assert EndNests(ps, n) by {
        assert forall i :: 0 <= i <= n && IsOpen(ps, i, n) ==> ps[i].area != "";
      }
    } else if e != ps[n].area {
      TopMeansNests(ps, n, stack, starts);
    }
  }

  lemma {:induction false} EndedSets(ps: seq<Para>)
    ensures Areas(ps, |ps|) - Ends(ps, |ps|) == {} <==> AllEnded(ps)
  {
    if Areas(ps, |ps|) - Ends(ps, |ps|) == {} {
      forall i | 0 <= i < |ps| && ps[i].area != ""
        ensures exists e :: 0 <= e < |ps| && ps[e].areaEnd == ps[i].area
      {
        assert ps[i].area in Areas(ps, |ps|);
        assert ps[i].area in Areas(ps, |ps|) - Ends(ps, |ps|) || ps[i].area in Ends(ps, |ps|);
      }
    }
  }

  lemma ClosedAtEnd(ps: seq<Para>, i: nat)
    requires Bracketed(ps) && i < |ps|
    ensures !IsOpen(ps, i, |ps|)
  {
    if ClassedStart(ps[i]) {
      var e :| i < e < |ps| && Spans(ps, i, e);
    }
  }

  /** When every area has ended, nothing is left on the stack. */
  lemma {:induction false} StackEmpties(ps: seq<Para>, stack: seq<string>, starts: seq<nat>,
                                        validId: string -> bool, validName: string -> bool)
    requires StackIs(ps, |ps|, |ps|, stack, starts)
    requires PrefixOk(ps, |ps|, validId, validName) && AllEnded(ps)
    ensures stack == []
  {
    StepsGiveBrackets(ps, validId, validName);
    if stack != [] {
      ClosedAtEnd(ps, starts[0]);
    }
  }

  /** The area a paragraph starts and the one it ends, with the stack between. */
  method CheckAreas(ps: seq<Para>, n: nat, foundAreas: set<string>, foundEnds: set<string>, stack: seq<string>,
                    validName: string -> bool)
    returns (issues: seq<Issue>, areas: set<string>, ends: set<string>, rest: seq<string>)
    requires n < |ps| && foundAreas == Areas(ps, n) && foundEnds == Ends(ps, n)
    ensures areas == Areas(ps, n + 1) && ends == Ends(ps, n + 1) && rest == Popped(ps[n], Pushed(ps[n], stack))
    ensures forall x :: x in issues <==>
              StartReports(ps, n, x, validName) || AreaEndReports(ps, n, Pushed(ps[n], stack), x)
  {
    var p := ps[n];
    NextSets(ps, n);
    var startIssues := CheckAreaStart(ps, n, foundAreas, validName);
    areas, rest := foundAreas, stack;
    if p.area != "" {
      if p.hasClasses {
        rest := rest + [p.area];
      }
      areas := areas + {p.area};
    }
    var endIssues;
    endIssues, rest := CheckAreaEnd(ps, n, areas, foundEnds, rest);
    issues := startIssues + endIssues;
    ends := foundEnds + if p.areaEnd != "" then {p.areaEnd} else {};
  }

  /** All checks of one paragraph. */
  method CheckPar(ps: seq<Para>, n: nat, foundIds: set<string>, foundTasks: set<string>, foundAreas: set<string>,
                  foundEnds: set<string>, stack: seq<string>, validId: string -> bool, validName: string -> bool)
    returns (issues: seq<Issue>, raised: Option<Error>, ids: set<string>, tasks: set<string>, areas: set<string>,
             ends: set<string>, rest: seq<string>)
    requires n < |ps| && SetsAre(ps, n, foundIds, foundTasks, foundAreas, foundEnds)
    ensures SetsAre(ps, n + 1, ids, tasks, areas, ends) && rest == Popped(ps[n], Pushed(ps[n], stack))
    ensures raised.Some? <==> EndRaises(ps[n])
    ensures raised.None? ==> forall x :: x in issues <==> ParReports(ps, n, stack, x, validId, validName)
  {
    var codeIssues, idIssues, areaIssues;
    codeIssues, raised := CheckCodeEnd(ps[n]);
    idIssues, ids, tasks := CheckIds(ps, n, foundIds, foundTasks, validId, validName);
    areaIssues, areas, ends, rest := CheckAreas(ps, n, foundAreas, foundEnds, stack, validName);
    issues := codeIssues + idIssues + areaIssues;
  }

  predicate SetsAre(ps: seq<Para>, n: nat, ids: set<string>, tasks: set<string>, areas: set<string>, ends: set<string>)
    requires n <= |ps|
  {
    ids == Ids(ps, n) && tasks == Tasks(ps, n) && areas == Areas(ps, n) && ends == Ends(ps, n)
  }

  predicate NoneRaises(ps: seq<Para>, n: nat)
    requires n <= |ps|
  {
    n == 0 || (!EndRaises(ps[n - 1]) && NoneRaises(ps, n - 1))
  }

  lemma {:induction false} NoneRaisesStep(ps: seq<Para>, n: nat)
    requires n < |ps|
    ensures NoneRaises(ps, n + 1) <==> NoneRaises(ps, n) && !EndRaises(ps[n])
  {
  }

  /** One exception among the paragraphs is enough. */
  lemma {:induction false} OneRaises(ps: seq<Para>, i: nat, n: nat)
    requires i < n <= |ps| && EndRaises(ps[i])
    ensures !NoneRaises(ps, n)
  {
    if i < n - 1 {
      OneRaises(ps, i, n - 1);
    }
  }

  /** The issues are those of the blocks before `n`. */
  ghost predicate AreReported(ps: seq<Para>, n: nat, issues: seq<Issue>, validId: string -> bool,
                              validName: string -> bool)
    requires n <= |ps|
  {
    forall x :: x in issues <==> Reported(ps, n, x, validId, validName)
  }

  /** The issues of one more block. */
  lemma MoreReported(ps: seq<Para>, n: nat, issues: seq<Issue>, found: seq<Issue>,
                     validId: string -> bool, validName: string -> bool)
    requires n < |ps| && AreReported(ps, n, issues, validId, validName)
    requires forall x :: x in found <==> HasIssue(ps, n, x, validId, validName)
    ensures AreReported(ps, n + 1, issues + found, validId, validName)
  {
  }

  /** The issues of all blocks, and the sets and the stack after the last one. */
  method CheckAll(ps: seq<Para>, validId: string -> bool, validName: string -> bool)
    returns (issues: seq<Issue>, raised: Option<Error>, areas: set<string>, ends: set<string>, stack: seq<string>)
    ensures raised.Some? <==> !NoneRaises(ps, |ps|)
    ensures raised.None? ==>
              && areas == Areas(ps, |ps|) && ends == Ends(ps, |ps|) && stack == StackBefore(ps, |ps|)
              && AreReported(ps, |ps|, issues, validId, validName)
  {
    var ids, tasks: set<string> := {}, {};
    issues, raised, areas, ends, stack := [], None, {}, {}, [];
    var n := 0;
    while n < |ps|
      invariant n <= |ps| && raised == None && NoneRaises(ps, n)
      invariant SetsAre(ps, n, ids, tasks, areas, ends) && stack == StackBefore(ps, n)
      invariant AreReported(ps, n, issues, validId, validName)
    {
      var found;
      found, raised, ids, tasks, areas, ends, stack :=
        CheckPar(ps, n, ids, tasks, areas, ends, stack, validId, validName);
      if raised.Some? {
        OneRaises(ps, n, |ps|);
        return;
      }
      NoneRaisesStep(ps, n);
      MoreReported(ps, n, issues, found, validId, validName);
      issues := issues + found;
      n := n + 1;
    }
  }

  // ----- no issue means structure -----

  predicate NoneInPar(ps: seq<Para>, n: nat, stack: seq<string>, validId: string -> bool, validName: string -> bool)
    requires n < |ps|
  {
    EndOk(ps[n]) && IdOk(ps, n, validId) && TaskOk(ps, n, validName) && AreaOk(ps, n, validName) &&
    EndStepOk(ps, n, Pushed(ps[n], stack))
  }

  lemma NoId(ps: seq<Para>, n: nat, validId: string -> bool, validName: string -> bool)
    requires n < |ps|
    ensures (forall x :: !IdReports(ps, n, x, validId, validName)) <==> IdOk(ps, n, validId) && TaskOk(ps, n, validName)
  {
    var p := ps[n];
    if !IdOk(ps, n, validId) {
      var id := p.id.value;
      var x := if validId(id) then DuplicateParagraphId(id) else InvalidParagraphId(id);
      assert IdReports(ps, n, x, validId, validName);
    }
    if !TaskOk(ps, n, validName) {
      var t := p.taskId;
      assert IdReports(ps, n, if validName(t) then DuplicateTaskId(t) else IllegalId(t), validId, validName);
    }
  }

  lemma NoStart(ps: seq<Para>, n: nat, validName: string -> bool)
    requires n < |ps|
    ensures (forall x :: !StartReports(ps, n, x, validName)) <==> AreaOk(ps, n, validName)
  {
    if !AreaOk(ps, n, validName) {
      var a := ps[n].area;
      assert StartReports(ps, n, if validName(a) then MultipleAreasWithSameName(a) else IllegalId(a), validName);
    }
  }

  lemma NoEnd(ps: seq<Para>, n: nat, stack: seq<string>)
    requires n < |ps|
    ensures (forall x :: !AreaEndReports(ps, n, stack, x)) <==> EndStepOk(ps, n, stack)
  {
    if !EndStepOk(ps, n, stack) {
      var p := ps[n];
      var e := p.areaEnd;
      var x :=
        if e == p.area then ZeroLengthArea(p.id, e)
        else if e !in Areas(ps, n + 1) then AreaEndWithoutStart(p.id, e)
        else if e in Ends(ps, n) then DuplicateAreaEnd(e)
        else OverlappingClassedArea(p.id, stack[|stack| - 1], e);
      assert AreaEndReports(ps, n, stack, x);
    }
  }

  lemma NoParIssue(ps: seq<Para>, n: nat, stack: seq<string>, validId: string -> bool, validName: string -> bool)
    requires n < |ps|
    ensures (forall x :: !ParReports(ps, n, stack, x, validId, validName)) <==>
            NoneInPar(ps, n, stack, validId, validName)
  {
    NoId(ps, n, validId, validName);
    NoStart(ps, n, validName);
    NoEnd(ps, n, Pushed(ps[n], stack));
    if forall x :: !ParReports(ps, n, stack, x, validId, validName) {
      forall x
        ensures !EndReports(ps[n], x) && !IdReports(ps, n, x, validId, validName)
        ensures !StartReports(ps, n, x, validName) && !AreaEndReports(ps, n, Pushed(ps[n], stack), x)
      {
        assert !ParReports(ps, n, stack, x, validId, validName);
      }
      assert !EndReports(ps[n], AttributesAtEndOfCodeBlock(ps[n].id));
    }
  }

  /** What the two checks of a paragraph's areas find in a document that was clean so far. */
  lemma {:induction false} AreasDecided(ps: seq<Para>, n: nat, stack: seq<string>, starts: seq<nat>,
                                        validId: string -> bool, validName: string -> bool)
    returns (rest: seq<nat>)
    requires n < |ps| && PrefixOk(ps, n, validId, validName) && StackIs(ps, n, n, stack, starts)
    requires AreaOk(ps, n, validName)
    ensures var pushed := Pushed(ps[n], stack);
            && (EndStepOk(ps, n, pushed) <==> EndMatches(ps, n) && EndNests(ps, n))
            && (EndStepOk(ps, n, pushed) ==> StackIs(ps, n + 1, n + 1, Popped(ps[n], pushed), rest))
  {
    var pushed := Pushed(ps[n], stack);
    var more := if ClassedStart(ps[n]) then starts + [n] else starts;
    PushStack(ps, n, stack, starts);
    StepDecided(ps, n, pushed, more, validId, validName);
    rest := more;
    if EndStepOk(ps, n, pushed) {
      PopStack(ps, n, pushed, more);
      rest := if Popped(ps[n], pushed) == pushed then more else more[..|more| - 1];
    }
  }

  predicate IssueFree(ps: seq<Para>, j: nat, validId: string -> bool, validName: string -> bool)
    requires j < |ps|
  {
    NoneInPar(ps, j, StackBefore(ps, j), validId, validName)
  }

  /** No block before `n` has an issue. */
  predicate NoIssue(ps: seq<Para>, n: nat, validId: string -> bool, validName: string -> bool)
    requires n <= |ps|
  {
    forall j :: 0 <= j < n ==> IssueFree(ps, j, validId, validName)
  }

  /** Without issues the conditions of all blocks hold, and the stack holds the classed areas that are open. */
  lemma {:induction false} NoIssueMeans(ps: seq<Para>, n: nat, validId: string -> bool, validName: string -> bool)
    returns (starts: seq<nat>)
    requires n <= |ps|
    ensures NoIssue(ps, n, validId, validName) <==> PrefixOk(ps, n, validId, validName)
    ensures PrefixOk(ps, n, validId, validName) ==> StackIs(ps, n, n, StackBefore(ps, n), starts)
  {
    starts := [];
    if n > 0 {
      var m := n - 1;
      assert m + 1 == n;
      var before := NoIssueMeans(ps, m, validId, validName);
      OneMore(ps, n, validId, validName);
      PrefixStep(ps, n, validId, validName);
      if PrefixOk(ps, m, validId, validName) {
        starts := IssueFreeMeans(ps, m, before, validId, validName);
      }
    }
  }

  lemma IssueFreeMeans(ps: seq<Para>, n: nat, starts: seq<nat>, validId: string -> bool, validName: string -> bool)
    returns (rest: seq<nat>)
    requires n < |ps| && PrefixOk(ps, n, validId, validName) && StackIs(ps, n, n, StackBefore(ps, n), starts)
    ensures IssueFree(ps, n, validId, validName) <==> StepOk(ps, n, validId, validName)
    ensures StepOk(ps, n, validId, validName) ==> StackIs(ps, n + 1, n + 1, StackBefore(ps, n + 1), rest)
  {
    rest := [];
    if AreaOk(ps, n, validName) {
      rest := AreasDecided(ps, n, StackBefore(ps, n), starts, validId, validName);
    }
  }

  lemma OneMore(ps: seq<Para>, n: nat, validId: string -> bool, validName: string -> bool)
    requires 0 < n <= |ps|
    ensures NoIssue(ps, n, validId, validName) <==>
            NoIssue(ps, n - 1, validId, validName) && IssueFree(ps, n - 1, validId, validName)
  {
  }

  lemma PrefixStep(ps: seq<Para>, n: nat, validId: string -> bool, validName: string -> bool)
    requires 0 < n <= |ps|
    ensures PrefixOk(ps, n, validId, validName) <==>
            PrefixOk(ps, n - 1, validId, validName) && StepOk(ps, n - 1, validId, validName)
  {
  }

  lemma FreeOfIssues(ps: seq<Para>, j: nat, validId: string -> bool, validName: string -> bool)
    requires j < |ps|
    ensures (forall x :: !HasIssue(ps, j, x, validId, validName)) <==> IssueFree(ps, j, validId, validName)
  {
    NoParIssue(ps, j, StackBefore(ps, j), validId, validName);
    assert forall x :: HasIssue(ps, j, x, validId, validName) <==>
                       ParReports(ps, j, StackBefore(ps, j), x, validId, validName);
  }

  lemma NothingReported(ps: seq<Para>, validId: string -> bool, validName: string -> bool)
    ensures (forall x :: !Reported(ps, |ps|, x, validId, validName)) <==> NoIssue(ps, |ps|, validId, validName)
  {
    if forall x :: !Reported(ps, |ps|, x, validId, validName) {
      forall j | 0 <= j < |ps|
        ensures IssueFree(ps, j, validId, validName)
      {
        forall x
          ensures !HasIssue(ps, j, x, validId, validName)
        {
          assert !Reported(ps, |ps|, x, validId, validName);
        }
        FreeOfIssues(ps, j, validId, validName);
      }
    }
    if NoIssue(ps, |ps|, validId, validName) {
      forall j, x | 0 <= j < |ps|
        ensures !HasIssue(ps, j, x, validId, validName)
      {
        FreeOfIssues(ps, j, validId, validName);
      }
    }
  }

  lemma NothingEndless(ps: seq<Para>)
    ensures (forall x :: !Endless(ps, x)) <==> AllEnded(ps)
  {
    EndedSets(ps);
    if a :| a in Areas(ps, |ps|) - Ends(ps, |ps|) {
      assert Endless(ps, AreaWithoutEnd(a));
    }
  }

  /** A document has no issue and no area without an end if and only if it is well structured. */
  lemma {:induction false} NoIssueIsStructure(ps: seq<Para>, validId: string -> bool, validName: string -> bool)
    ensures (forall x :: !Reported(ps, |ps|, x, validId, validName) && !Endless(ps, x)) <==>
            WellStructured(ps, validId, validName)
    ensures WellStructured(ps, validId, validName) ==> StackBefore(ps, |ps|) == []
  {
    NothingReported(ps, validId, validName);
    NothingEndless(ps);
    var starts := NoIssueMeans(ps, |ps|, validId, validName);
    StepsMeanStructure(ps, validId, validName);
    if WellStructured(ps, validId, validName) {
      StackEmpties(ps, StackBefore(ps, |ps|), starts, validId, validName);
    }
  }

  /**
   One pass over the blocks. It reports exactly the issues of the blocks and the areas without an end,
   and nothing if and only if the document is well structured: ids, task ids and area names occur once,
   every area ends once in a later block, and any two classed areas are disjoint or nested.
   */
  method DoValidateStructure(ps: seq<Para>, validId: string -> bool, validName: string -> bool)
    returns (res: Result<seq<Issue>>)
    ensures res.Raised? <==> !NoneRaises(ps, |ps|)
    ensures res.Ok? ==>
              forall x :: x in res.value <==> Reported(ps, |ps|, x, validId, validName) || Endless(ps, x)
    ensures res.Ok? ==> (res.value == [] <==> WellStructured(ps, validId, validName))
  {
    var issues, raised, areas, ends, stack := CheckAll(ps, validId, validName);
    if raised.Some? {
      return Raised(raised.value);
    }
    var endless := ReportUnended(areas - ends);
    NoIssueIsStructure(ps, validId, validName);
    EmptyMeans(issues + endless);
    res := Ok(issues + endless);
  }

  lemma EmptyMeans<T>(s: seq<T>)
    ensures s == [] <==> forall x :: x !in s
  {
    if s != [] {
      assert s[0] in s;
    }
  }
}
