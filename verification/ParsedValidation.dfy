/** Validating the structure of a parsed document. */
module ParsedValidation {
  import opened Text
  import opened AttributeList
  import opened DocumentFormat
  import opened DocumentParsing
  import opened Composition
  import opened ParsedAttributes
  import opened Validation

  function Views(bs: seq<Block>): (ps: seq<Para>)
    ensures |ps| == |bs| && forall i :: 0 <= i < |bs| ==> ps[i] == View(bs[i])
  {
    seq(|bs|, i requires 0 <= i < |bs| => View(bs[i]))
  }

  predicate KeepsBlocks(o: Options) {
    o.breakOnCodeBlock && o.breakOnHeader && o.breakOnNormal
  }

  lemma {:induction false} ParsedNeverRaises(text: string, o: Options)
    requires KeepsBlocks(o) && ParseText(text, o).Ok?
    ensures var ps := Views(ParseText(text, o).value); NoneRaises(ps, |ps|)
  {
    var lines := SplitLines(text);
    var bs := SplitBlocks(lines, o.breakOnEmptyLine).value;
    NothingMerged([], bs, o);
    assert [] + bs == bs;
    var ps := Views(bs);
    forall i | 0 <= i < |ps|
      ensures !EndRaises(ps[i])
    {
      TextSolid(text, o.breakOnEmptyLine, i);
    }
    NoneOfAll(ps, |ps|);
  }

  lemma {:induction false} NoneOfAll(ps: seq<Para>, n: nat)
    requires n <= |ps| && forall i :: 0 <= i < n ==> !EndRaises(ps[i])
    ensures NoneRaises(ps, n)
  {
    if n > 0 {
      NoneOfAll(ps, n - 1);
    }
  }

  /**
   `validate_structure`: when the text parses, exactly the issues of its blocks are reported, and none if
   and only if the parsed document is well structured. With every break flag on, as by default, a text
   that parses is always validated; otherwise the last line of a merged block may raise.
   */
  method ValidateStructure(text: string, o: Options, validId: string -> bool, validName: string -> bool)
    returns (res: Result<seq<Issue>>)
    ensures ParseText(text, o).Raised? ==> res.Raised?
    ensures ParseText(text, o).Ok? ==>
              var ps := Views(ParseText(text, o).value);
              && (res.Raised? <==> !NoneRaises(ps, |ps|)) && (KeepsBlocks(o) ==> res.Ok?)
              && (res.Ok? ==>
                    && (res.value == [] <==> WellStructured(ps, validId, validName))
                    && forall x :: x in res.value <==> Reported(ps, |ps|, x, validId, validName) || Endless(ps, x))
  {
    var parser := new DocumentParser(text, o);
    var blocks := parser.GetBlocks();
    if blocks.Raised? {
      return Raised(blocks.error);
    }
    if KeepsBlocks(o) {
      ParsedNeverRaises(text, o);
    }
    res := DoValidateStructure(Views(blocks.value), validId, validName);
  }

  // ----- what the validator sees of a block -----

  /** The attributes that the validator looks at are those of the block. */
  lemma ViewIsFaithful(b: Block)
    requires SolidBlock(b)
    ensures var p := View(b);
            && (p.id.Some? <==> b.id.Some?) && (b.id.Some? ==> b.id == Some(Str(p.id.value)))
            && (p.taskId != "" <==> IsSet(b.attrs, "taskId")) && (p.taskId != "" ==> b.attrs["taskId"] == Str(p.taskId))
            && (p.area != "" <==> IsSet(b.attrs, "area")) && (p.area != "" ==> b.attrs["area"] == Str(p.area))
            && (p.areaEnd != "" <==> IsSet(b.attrs, "area_end"))
            && (p.areaEnd != "" ==> b.attrs["area_end"] == Str(p.areaEnd))
            && (p.hasClasses <==> IsSet(b.attrs, "classes"))
  {
  }
}
