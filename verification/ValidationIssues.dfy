/** When each issue is reported, in terms of the blocks of the document. */
module ValidationIssues {
  import opened Text
  import opened AttributeList
  import opened DocumentFormat
  import opened DocumentParsing
  import opened Validation

  // ----- issues that do not depend on the nesting of areas -----

  predicate IdTwice(ps: seq<Para>, id: string) {
    exists i, j :: 0 <= i < j < |ps| && ps[i].id == Some(id) && ps[j].id == Some(id)
  }

  predicate TaskTwice(ps: seq<Para>, task: string) {
    exists i, j :: 0 <= i < j < |ps| && ps[i].taskId == task && ps[j].taskId == task
  }

  predicate AreaTwice(ps: seq<Para>, area: string) {
    exists i, j :: 0 <= i < j < |ps| && ps[i].area == area && ps[j].area == area
  }

  predicate EndTwice(ps: seq<Para>, area: string) {
    exists i, j :: 0 <= i < j < |ps| && ps[i].areaEnd == area && ps[j].areaEnd == area
  }

  /** The end in block `j` has no start up to that block. */
  predicate EndAlone(ps: seq<Para>, j: nat, area: string)
    requires j < |ps|
  {
    ps[j].areaEnd == area && forall i :: 0 <= i <= j ==> ps[i].area != area
  }

  predicate CodeEndsInList(p: Para) {
    p.isCode && EndIsClean(p.md) == Ok(false)
  }

  /** What an issue says about the document, or that the issue depends on nesting or on the end of the document. */
  predicate Says(ps: seq<Para>, x: Issue, validId: string -> bool, validName: string -> bool) {
    match x
    case AttributesAtEndOfCodeBlock(id) => exists j :: 0 <= j < |ps| && CodeEndsInList(ps[j]) && ps[j].id == id
    case DuplicateParagraphId(id) => IdTwice(ps, id)
    case InvalidParagraphId(id) => !validId(id) && exists j :: 0 <= j < |ps| && ps[j].id == Some(id)
    case IllegalId(name) =>
      name != "" && !validName(name) && exists j :: 0 <= j < |ps| && (ps[j].taskId == name || ps[j].area == name)
    case DuplicateTaskId(task) => task != "" && TaskTwice(ps, task)
    case MultipleAreasWithSameName(area) => area != "" && AreaTwice(ps, area)
    case ZeroLengthArea(id, area) =>
      area != "" && exists j :: 0 <= j < |ps| && ps[j].id == id && ps[j].area == area && ps[j].areaEnd == area
    case AreaEndWithoutStart(id, area) =>
      area != "" && exists j :: 0 <= j < |ps| && ps[j].id == id && EndAlone(ps, j, area)
    case DuplicateAreaEnd(area) => area != "" && EndTwice(ps, area)
    case OverlappingClassedArea(_, _, _) => false
    case AreaWithoutEnd(_) => false
  }

  /** What the issue says about one block and the earlier ones. */
  predicate SaysAt(ps: seq<Para>, j: nat, x: Issue, validId: string -> bool, validName: string -> bool)
    requires j < |ps|
  {
    match x
    case AttributesAtEndOfCodeBlock(id) => CodeEndsInList(ps[j]) && ps[j].id == id
    case DuplicateParagraphId(id) => ps[j].id == Some(id) && exists i :: 0 <= i < j && ps[i].id == Some(id)
    case InvalidParagraphId(id) => !validId(id) && ps[j].id == Some(id)
    case IllegalId(name) => name != "" && !validName(name) && (ps[j].taskId == name || ps[j].area == name)
    case DuplicateTaskId(task) => task != "" && ps[j].taskId == task && exists i :: 0 <= i < j && ps[i].taskId == task
    case MultipleAreasWithSameName(area) =>
      area != "" && ps[j].area == area && exists i :: 0 <= i < j && ps[i].area == area
    case ZeroLengthArea(id, area) => area != "" && ps[j].id == id && ps[j].area == area && ps[j].areaEnd == area
    case AreaEndWithoutStart(id, area) => area != "" && ps[j].id == id && EndAlone(ps, j, area)
    case DuplicateAreaEnd(area) =>
      area != "" && ps[j].areaEnd == area && exists i :: 0 <= i < j && ps[i].areaEnd == area
    case OverlappingClassedArea(_, _, _) => false
    case AreaWithoutEnd(_) => false
  }

  lemma SetsMean(ps: seq<Para>, n: nat, s: string)
    requires n <= |ps|
    ensures s in Ids(ps, n) <==> exists i :: 0 <= i < n && ps[i].id == Some(s)
    ensures s != "" ==> (s in Tasks(ps, n) <==> exists i :: 0 <= i < n && ps[i].taskId == s)
    ensures s != "" ==> (s in Areas(ps, n) <==> exists i :: 0 <= i < n && ps[i].area == s)
    ensures s != "" ==> (s in Ends(ps, n) <==> exists i :: 0 <= i < n && ps[i].areaEnd == s)
  {
    if s in Ids(ps, n) {
      var i :| 0 <= i < n && ps[i].id.Some? && ps[i].id.value == s;
      assert ps[i].id == Some(s);
    }
  }

  /** The text that an issue is about; empty for one that has none. */
  function Subject(x: Issue): string {
    match x
    case AttributesAtEndOfCodeBlock(_) => ""
    case DuplicateParagraphId(id) => id
    case InvalidParagraphId(id) => id
    case IllegalId(name) => name
    case DuplicateTaskId(task) => task
    case MultipleAreasWithSameName(area) => area
    case ZeroLengthArea(_, area) => area
    case OverlappingClassedArea(_, _, ended) => ended
    case AreaEndWithoutStart(_, area) => area
    case DuplicateAreaEnd(area) => area
    case AreaWithoutEnd(area) => area
  }

  lemma IdIssueAt(ps: seq<Para>, j: nat, x: Issue, validId: string -> bool, validName: string -> bool)
    requires j < |ps| && (x.DuplicateParagraphId? || x.InvalidParagraphId? || x.DuplicateTaskId? || x.IllegalId?)
    ensures IdReports(ps, j, x, validId, validName) || StartReports(ps, j, x, validName) <==>
            SaysAt(ps, j, x, validId, validName)
  {
    SetsMean(ps, j, Subject(x));
  }

  lemma AreaIssueAt(ps: seq<Para>, j: nat, stack: seq<string>, x: Issue, validId: string -> bool,
                    validName: string -> bool)
    requires j < |ps|
    requires x.MultipleAreasWithSameName? || x.ZeroLengthArea? || x.AreaEndWithoutStart? || x.DuplicateAreaEnd?
    ensures StartReports(ps, j, x, validName) || AreaEndReports(ps, j, stack, x) <==>
            SaysAt(ps, j, x, validId, validName)
  {
    SetsMean(ps, j, Subject(x));
    SetsMean(ps, j + 1, Subject(x));
  }

  lemma IssueAt(ps: seq<Para>, j: nat, x: Issue, validId: string -> bool, validName: string -> bool)
    requires j < |ps| && !x.OverlappingClassedArea?
    ensures HasIssue(ps, j, x, validId, validName) <==> SaysAt(ps, j, x, validId, validName)
  {
    if x.DuplicateParagraphId? || x.InvalidParagraphId? || x.DuplicateTaskId? || x.IllegalId? {
      IdIssueAt(ps, j, x, validId, validName);
    } else if !x.AttributesAtEndOfCodeBlock? && !x.AreaWithoutEnd? {
      AreaIssueAt(ps, j, Pushed(ps[j], StackBefore(ps, j)), x, validId, validName);
    }
  }

  /** Some block says it exactly when the document does. */
  lemma SomewhereSays(ps: seq<Para>, x: Issue, validId: string -> bool, validName: string -> bool)
    ensures Says(ps, x, validId, validName) <==>
            exists j :: 0 <= j < |ps| && SaysAt(ps, j, x, validId, validName)
  {
    if j :| 0 <= j < |ps| && SaysAt(ps, j, x, validId, validName) {
      SaysThere(ps, j, x, validId, validName);
    }
    if Says(ps, x, validId, validName) {
      var j := WhereSaid(ps, x, validId, validName);
    }
  }

  lemma SaysThere(ps: seq<Para>, j: nat, x: Issue, validId: string -> bool, validName: string -> bool)
    requires j < |ps| && SaysAt(ps, j, x, validId, validName)
    ensures Says(ps, x, validId, validName)
  {
    match x {
      case DuplicateParagraphId(id) => var i :| 0 <= i < j && ps[i].id == Some(id);
      case DuplicateTaskId(task) => var i :| 0 <= i < j && ps[i].taskId == task;
      case MultipleAreasWithSameName(area) => var i :| 0 <= i < j && ps[i].area == area;
      case DuplicateAreaEnd(area) => var i :| 0 <= i < j && ps[i].areaEnd == area;
      case _ =>
    }
  }

  lemma WhereSaid(ps: seq<Para>, x: Issue, validId: string -> bool, validName: string -> bool) returns (j: nat)
    requires Says(ps, x, validId, validName)
    ensures j < |ps| && SaysAt(ps, j, x, validId, validName)
  {
    match x {
      case AttributesAtEndOfCodeBlock(id) => j :| 0 <= j < |ps| && CodeEndsInList(ps[j]) && ps[j].id == id;
      case DuplicateParagraphId(id) =>
        var i, k :| 0 <= i < k < |ps| && ps[i].id == Some(id) && ps[k].id == Some(id);
        j := k;
      case InvalidParagraphId(id) => j :| 0 <= j < |ps| && ps[j].id == Some(id);
      case IllegalId(name) => j :| 0 <= j < |ps| && (ps[j].taskId == name || ps[j].area == name);
      case DuplicateTaskId(task) =>
        var i, k :| 0 <= i < k < |ps| && ps[i].taskId == task && ps[k].taskId == task;
        j := k;
      case MultipleAreasWithSameName(area) =>
        var i, k :| 0 <= i < k < |ps| && ps[i].area == area && ps[k].area == area;
        j := k;
      case ZeroLengthArea(id, area) =>
        j :| 0 <= j < |ps| && ps[j].id == id && ps[j].area == area && ps[j].areaEnd == area;
      case AreaEndWithoutStart(id, area) => j :| 0 <= j < |ps| && ps[j].id == id && EndAlone(ps, j, area);
      case DuplicateAreaEnd(area) =>
        var i, k :| 0 <= i < k < |ps| && ps[i].areaEnd == area && ps[k].areaEnd == area;
        j := k;
    }
  }

  /**
   Every issue but that of overlapping areas is reported exactly when the document has what it says: an id, a
   task, an area or an end twice, a name that is not valid, an area that ends in its own block, an end without a
   start before it, or a code block that ends in a list.
   */
  lemma {:induction false} ReportedWhen(ps: seq<Para>, x: Issue, validId: string -> bool, validName: string -> bool)
    requires !x.OverlappingClassedArea?
    ensures Reported(ps, |ps|, x, validId, validName) <==> Says(ps, x, validId, validName)
  {
    SomewhereSays(ps, x, validId, validName);
    forall j | 0 <= j < |ps|
      ensures HasIssue(ps, j, x, validId, validName) <==> SaysAt(ps, j, x, validId, validName)
    {
      IssueAt(ps, j, x, validId, validName);
    }
  }

  /** An area without an end is reported exactly when some block starts it and none ends it. */
  lemma EndlessWhen(ps: seq<Para>, area: string)
    requires area != ""
    ensures Endless(ps, AreaWithoutEnd(area)) <==>
            (exists i :: 0 <= i < |ps| && ps[i].area == area) && forall e :: 0 <= e < |ps| ==> ps[e].areaEnd != area
  {
    SetsMean(ps, |ps|, area);
  }

  // ----- overlapping areas -----

  /** The classed area that started last of those that are open in block `j`, its own start included. */
  predicate Innermost(ps: seq<Para>, k: nat, j: nat)
    requires j < |ps|
  {
    k <= j && IsOpen(ps, k, j) && forall i :: k < i <= j ==> !IsOpen(ps, i, j)
  }

  /** Block `j` ends an open classed area while another one, which started later, is the innermost. */
  predicate EndsOuter(ps: seq<Para>, j: nat, open: string, ended: string)
    requires j < |ps|
  {
    ended != "" && ps[j].areaEnd == ended &&
    exists i, k :: 0 <= i < k <= j && IsOpen(ps, i, j) && Innermost(ps, k, j) && ps[i].area == ended &&
                   ps[k].area == open
  }

  lemma TopIsInnermost(ps: seq<Para>, j: nat, stack: seq<string>, starts: seq<nat>)
    requires j < |ps| && StackIs(ps, j + 1, j, stack, starts) && stack != []
    ensures Innermost(ps, starts[|starts| - 1], j) && ps[starts[|starts| - 1]].area == stack[|stack| - 1]
  {
    var top := starts[|starts| - 1];
    forall i | top < i <= j
      ensures !IsOpen(ps, i, j)
    {
      assert i !in starts;
    }
  }

  lemma OneInnermost(ps: seq<Para>, k: nat, l: nat, j: nat)
    requires j < |ps| && Innermost(ps, k, j) && Innermost(ps, l, j)
    ensures k == l
  {
  }

  lemma OverlapIs(ps: seq<Para>, j: nat, stack: seq<string>, starts: seq<nat>, open: string, ended: string)
    requires j < |ps| && StackIs(ps, j + 1, j, stack, starts) && AreasDiffer(ps, j + 1)
    requires ended == ps[j].areaEnd
    ensures ended != "" && ended in stack && open == stack[|stack| - 1] && open != ended <==>
            EndsOuter(ps, j, open, ended)
  {
    if ended != "" && ended in stack && open == stack[|stack| - 1] && open != ended {
      var a :| 0 <= a < |stack| && stack[a] == ended;
      TopIsInnermost(ps, j, stack, starts);
      assert starts[a] < starts[|starts| - 1];
    }
    if EndsOuter(ps, j, open, ended) {
      var i, k :| 0 <= i < k <= j && IsOpen(ps, i, j) && Innermost(ps, k, j) && ps[i].area == ended &&
                  ps[k].area == open;
      var a :| 0 <= a < |starts| && starts[a] == i;
      TopIsInnermost(ps, j, stack, starts);
      OneInnermost(ps, k, starts[|starts| - 1], j);
      assert stack[a] == ended;
    }
  }

  lemma OverlapReads(ps: seq<Para>, j: nat, id: Option<string>, open: string, ended: string,
                     validId: string -> bool, validName: string -> bool)
    requires j < |ps|
    ensures var stack := Pushed(ps[j], StackBefore(ps, j));
            HasIssue(ps, j, OverlappingClassedArea(id, open, ended), validId, validName) <==>
            id == ps[j].id && ended == ps[j].areaEnd &&
            ended != "" && ended in stack && open == stack[|stack| - 1] && open != ended
  {
  }

  lemma AreasApart(ps: seq<Para>, j: nat, validId: string -> bool, validName: string -> bool)
    requires j < |ps| && PrefixOk(ps, j, validId, validName) && AreaOk(ps, j, validName)
    ensures AreasDiffer(ps, j + 1)
  {
    forall i, k | 0 <= i < k < j + 1 && ps[k].area != ""
      ensures ps[i].area != ps[k].area
    {
      if k < j {
        assert StepOk(ps, k, validId, validName);
      }
    }
  }

  /** The stack when the end of block `j` is looked at. */
  lemma StackAt(ps: seq<Para>, j: nat, validId: string -> bool, validName: string -> bool) returns (starts: seq<nat>)
    requires j < |ps| && PrefixOk(ps, j, validId, validName)
    ensures StackIs(ps, j + 1, j, Pushed(ps[j], StackBefore(ps, j)), starts)
  {
    var before := NoIssueMeans(ps, j, validId, validName);
    PushStack(ps, j, StackBefore(ps, j), before);
    starts := if ClassedStart(ps[j]) then before + [j] else before;
  }

  /**
   The first overlap of a document that is in order before it: a block ends a classed area while another one that
   started later is still open, and of those the one that started last is named.
   */
  lemma {:induction false} OverlapWhen(ps: seq<Para>, j: nat, id: Option<string>, open: string, ended: string,
                                       validId: string -> bool, validName: string -> bool)
    requires j < |ps| && PrefixOk(ps, j, validId, validName) && AreaOk(ps, j, validName)
    ensures HasIssue(ps, j, OverlappingClassedArea(id, open, ended), validId, validName) <==>
            id == ps[j].id && EndsOuter(ps, j, open, ended)
  {
    var starts := StackAt(ps, j, validId, validName);
    AreasApart(ps, j, validId, validName);
    OverlapReads(ps, j, id, open, ended, validId, validName);
    if ended == ps[j].areaEnd {
      OverlapIs(ps, j, Pushed(ps[j], StackBefore(ps, j)), starts, open, ended);
    }
  }
}
