/**
 The `hierarchy` check: a TIER that depends on another (it has PARENT_REF)
 must not hold time-aligned annotations. The check reports the existence of
 any such nesting with a single message, however many there are.
 */
module TierHierarchy {
  import opened XmlTree
  import opened Errors

  /** `//TIER[@PARENT_REF]//ALIGNABLE_ANNOTATION` on a document. */
  function ForbiddenNestings(root: Element): seq<Element>
  {
    Below(root, WithParent, AlignableAnnotationTag, false)
  }

  /** Some ALIGNABLE_ANNOTATION lies below a TIER that has PARENT_REF. */
  ghost predicate HasForbiddenNesting(root: Element)
  {
    exists x :: UnderTier(root, WithParent, x) && x.tag == AlignableAnnotationTag
  }

  lemma ForbiddenNestingsIff(root: Element)
    ensures |ForbiddenNestings(root)| > 0 <==> HasForbiddenNesting(root)
  {
    var found := ForbiddenNestings(root);
    if |found| > 0 {
      BelowMember(root, WithParent, AlignableAnnotationTag, false, found[0]);
    }
    if HasForbiddenNesting(root) {
      var x :| UnderTier(root, WithParent, x) && x.tag == AlignableAnnotationTag;
      BelowMember(root, WithParent, AlignableAnnotationTag, false, x);
    }
  }

  function HierarchyOutcome(root: Element): Outcome
  {
    Conclude(if |ForbiddenNestings(root)| > 0 then [ForbiddenNesting] else [])
  }

  /** `hierarchy`. */
  method Hierarchy(root: Element) returns (o: Outcome)
    ensures o == HierarchyOutcome(root)
    ensures o.Passed? <==> !HasForbiddenNesting(root)
    ensures !o.Passed? ==> o == Raised([ForbiddenNesting])
  {
    var errors := [];
    if |ForbiddenNestings(root)| > 0 {
      errors := errors + [ForbiddenNesting];
    }
    o := Conclude(errors);
    ForbiddenNestingsIff(root);
  }
}
