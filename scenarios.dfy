/**
 Small documents and what `verify` makes of them: a value in the 'meta'
 vocabulary, one outside it, a 'fonetický' TIER without PARENT_REF, one whose
 speaker prefix disagrees with its parent's, a dependent TIER holding a
 time-aligned annotation, and two faults in one document.
 */
module Scenarios {
  import opened XmlTree
  import opened Errors
  import opened Vocabulary
  import opened TierAttributes
  import opened TierHierarchy
  import opened Verification

  function Value(v: string): Element
  {
    Element(AnnotationValueTag, map[], Some(v), [])
  }

  /** An ANNOTATION holding one annotation of the given kind
      (ALIGNABLE_ANNOTATION or REF_ANNOTATION) with the given value. */
  function Annotated(kind: string, v: string): Element
  {
    Element("ANNOTATION", map[], None, [Element(kind, map[], None, [Value(v)])])
  }

  function Tier(attrs: map<string, string>, kind: string, v: string): Element
  {
    Element(TierTag, attrs, None, [Annotated(kind, v)])
  }

  function Document(tiers: seq<Element>): Element
  {
    Element("ANNOTATION_DOCUMENT", map[], None, tiers)
  }

  const RefAnnotationTag := "REF_ANNOTATION"

  function MetaTier(v: string): Element
  {
    Tier(map[TierId := "1 meta", LinguisticTypeRef := MetaType], AlignableAnnotationTag, v)
  }

  /** A 'fonetický' TIER with the given attributes, holding one REF_ANNOTATION. */
  function FoneticTier(attrs: map<string, string>): Element
  {
    Tier(attrs[LinguisticTypeRef := FoneticType], RefAnnotationTag, "a")
  }

  /** Speaker 1's 'fonetický' TIER without PARENT_REF. */
  const OrphanAttrs := map[TierId := "1 fon"]

  /** Speaker 1's 'fonetický' TIER depending on a TIER of speaker 2. */
  const MismatchedAttrs := map[TierId := "1 fon", ParentRef := "2 ort"]

  /** Speaker 2's 'fonetický' TIER depending on a TIER of the same speaker. */
  const MatchedAttrs := map[TierId := "2 fon", ParentRef := "2 ort"]

  /** A dependent TIER holding a time-aligned annotation. */
  const AlignedDependentTier :=
    Tier(map[TierId := "1 ort", LinguisticTypeRef := "ortografický", ParentRef := "1 JO"], AlignableAnnotationTag, "a")

  /** What `verify` makes of a document. */
  function VerifyOutcome(root: Element): Outcome
  {
    Collect([MetaOutcome(root), METAOutcome(root), TierAttribsOutcome(root), HierarchyOutcome(root)])
  }

  function VerifyIntendedOutcome(root: Element): Outcome
  {
    Collect([MetaOutcome(root), METAOutcome(root), TierAttribsIntendedOutcome(root), HierarchyOutcome(root)])
  }

  lemma BelowInOne(c: Element, test: TierTest, tag: string, inside: bool)
    ensures BelowIn([c], test, tag, inside) == Below(c, test, tag, inside)
  {
    assert [c][..0] == [];
  }

  lemma TiersInOne(c: Element, test: TierTest)
    ensures TiersIn([c], test) == Tiers(c, test)
  {
    assert [c][..0] == [];
  }

  /** What `//TIER[p]//tag` selects in one TIER of the scenarios. */
  lemma TierBelow(attrs: map<string, string>, kind: string, v: string, test: TierTest, tag: string)
    requires tag == AnnotationValueTag || tag == AlignableAnnotationTag
    requires kind == AlignableAnnotationTag || kind == RefAnnotationTag
    ensures var t := Tier(attrs, kind, v);
            Below(t, test, tag, false) ==
              if !IsTier(t, test) then []
              else if tag == AnnotationValueTag then [Value(v)]
              else if kind == tag then [Annotated(kind, v).children[0]]
              else []
  {
    var an := Annotated(kind, v);
    var al := an.children[0];
    var av := Value(v);
    var inside := IsTier(Tier(attrs, kind, v), test);
    BelowInOne(av, test, tag, inside);
    BelowInOne(al, test, tag, inside);
    BelowInOne(an, test, tag, inside);
    assert Below(av, test, tag, inside) == if inside && tag == AnnotationValueTag then [av] else [];
    assert Below(al, test, tag, inside) == (if inside && tag == kind then [al] else []) + Below(av, test, tag, inside);
    assert Below(an, test, tag, inside) == Below(al, test, tag, inside);
  }

  /** What `//TIER[p]` selects in one TIER of the scenarios. */
  lemma TierTiers(attrs: map<string, string>, kind: string, v: string, test: TierTest)
    ensures Tiers(Tier(attrs, kind, v), test) == if IsTier(Tier(attrs, kind, v), test) then [Tier(attrs, kind, v)] else []
  {
    var an := Annotated(kind, v);
    var al := an.children[0];
    var av := Value(v);
    TiersInOne(av, test);
    TiersInOne(al, test);
    TiersInOne(an, test);
    assert Tiers(av, test) == [];
    assert Tiers(al, test) == [];
    assert Tiers(an, test) == [];
  }

  /** A document's selections are those of its TIERs, in order. */
  lemma DocumentSelections(ts: seq<Element>, test: TierTest, tag: string)
    requires tag != "ANNOTATION_DOCUMENT" && 1 <= |ts| <= 2
    ensures Below(Document(ts), test, tag, false) ==
              if |ts| == 1 then Below(ts[0], test, tag, false)
              else Below(ts[0], test, tag, false) + Below(ts[1], test, tag, false)
    ensures Tiers(Document(ts), test) ==
              if |ts| == 1 then Tiers(ts[0], test) else Tiers(ts[0], test) + Tiers(ts[1], test)
  {
    BelowInOne(ts[0], test, tag, false);
    TiersInOne(ts[0], test);
    if |ts| == 2 {
      assert ts[..1] == [ts[0]];
    }
  }

  lemma TextOfOne(v: string)
    requires v != ""
    ensures Texts([Value(v)]) == [v]
  {
    assert [Value(v)][..0] == [];
  }

  lemma VocabLogOfOne(v: string, vocab: set<string>, typ: string)
    ensures VocabLog([v], vocab, typ) == if v in vocab then [] else [NotAllowed(v, typ)]
  {
    assert [v][..0] == [];
  }

  lemma MetaTierVocabularySelections(v: string)
    ensures Below(MetaTier(v), TypeIs(MetaType), AnnotationValueTag, false) == [Value(v)]
    ensures Below(MetaTier(v), TypeIs(METAType), AnnotationValueTag, false) == []
  {
    var m := MetaTier(v);
    TierBelow(m.attrs, AlignableAnnotationTag, v, TypeIs(MetaType), AnnotationValueTag);
    TierBelow(m.attrs, AlignableAnnotationTag, v, TypeIs(METAType), AnnotationValueTag);
  }

  lemma MetaTierStructureSelections(v: string)
    ensures Below(MetaTier(v), WithParent, AlignableAnnotationTag, false) == []
    ensures Tiers(MetaTier(v), TypeIs(FoneticType)) == []
    ensures Tiers(MetaTier(v), TypeWithoutParent(FoneticType)) == []
  {
    var m := MetaTier(v);
    TierBelow(m.attrs, AlignableAnnotationTag, v, WithParent, AlignableAnnotationTag);
    TierTiers(m.attrs, AlignableAnnotationTag, v, TypeIs(FoneticType));
    TierTiers(m.attrs, AlignableAnnotationTag, v, TypeWithoutParent(FoneticType));
  }

  lemma FoneticTierSelections(attrs: map<string, string>)
    ensures var t := FoneticTier(attrs);
            Below(t, TypeIs(MetaType), AnnotationValueTag, false) == [] &&
            Below(t, TypeIs(METAType), AnnotationValueTag, false) == [] &&
            Below(t, WithParent, AlignableAnnotationTag, false) == []
  {
    var a := attrs[LinguisticTypeRef := FoneticType];
    assert |FoneticType| != |MetaType| && |FoneticType| != |METAType|;
    TierBelow(a, RefAnnotationTag, "a", TypeIs(MetaType), AnnotationValueTag);
    TierBelow(a, RefAnnotationTag, "a", TypeIs(METAType), AnnotationValueTag);
    TierBelow(a, RefAnnotationTag, "a", WithParent, AlignableAnnotationTag);
  }

  lemma FoneticTierTiers(attrs: map<string, string>)
    ensures var t := FoneticTier(attrs);
            Tiers(t, TypeIs(FoneticType)) == [t] &&
            Tiers(t, TypeWithoutParent(FoneticType)) == if ParentRef in t.attrs then [] else [t]
  {
    var a := attrs[LinguisticTypeRef := FoneticType];
    TierTiers(a, RefAnnotationTag, "a", TypeIs(FoneticType));
    TierTiers(a, RefAnnotationTag, "a", TypeWithoutParent(FoneticType));
  }

  lemma DependentTierVocabularySelections()
    ensures Below(AlignedDependentTier, TypeIs(MetaType), AnnotationValueTag, false) == []
    ensures Below(AlignedDependentTier, TypeIs(METAType), AnnotationValueTag, false) == []
  {
    var e := AlignedDependentTier;
    TierBelow(e.attrs, AlignableAnnotationTag, "a", TypeIs(MetaType), AnnotationValueTag);
    TierBelow(e.attrs, AlignableAnnotationTag, "a", TypeIs(METAType), AnnotationValueTag);
  }

  lemma DependentTierNesting()
    ensures |Below(AlignedDependentTier, WithParent, AlignableAnnotationTag, false)| == 1
  {
    var e := AlignedDependentTier;
    TierBelow(e.attrs, AlignableAnnotationTag, "a", WithParent, AlignableAnnotationTag);
  }

  lemma DependentTierNotFonetic()
    ensures Tiers(AlignedDependentTier, TypeIs(FoneticType)) == []
    ensures Tiers(AlignedDependentTier, TypeWithoutParent(FoneticType)) == []
  {
    var e := AlignedDependentTier;
    TierTiers(e.attrs, AlignableAnnotationTag, "a", TypeIs(FoneticType));
    TierTiers(e.attrs, AlignableAnnotationTag, "a", TypeWithoutParent(FoneticType));
  }

  /** The checks on a document holding one 'meta' TIER. */
  lemma MetaDocumentVocabulary(v: string)
    requires v != ""
    ensures MetaOutcome(Document([MetaTier(v)])) == Conclude(VocabLog([v], MetaVocab, MetaType))
    ensures METAOutcome(Document([MetaTier(v)])) == Passed
  {
    var t := MetaTier(v);
    MetaTierVocabularySelections(v);
    DocumentSelections([t], TypeIs(MetaType), AnnotationValueTag);
    DocumentSelections([t], TypeIs(METAType), AnnotationValueTag);
    TextOfOne(v);
  }

  lemma MetaDocumentStructure(v: string)
    ensures TierAttribsOutcome(Document([MetaTier(v)])) == Passed
    ensures HierarchyOutcome(Document([MetaTier(v)])) == Passed
  {
    var t := MetaTier(v);
    MetaTierStructureSelections(v);
    DocumentSelections([t], WithParent, AlignableAnnotationTag);
    DocumentSelections([t], TypeIs(FoneticType), AlignableAnnotationTag);
    DocumentSelections([t], TypeWithoutParent(FoneticType), AlignableAnnotationTag);
  }

  lemma NearMissOutsideMetaVocabulary()
    ensures "škytavka" !in MetaVocab
  {
  }

  /** On a document holding one 'meta' TIER, `verify` reports that TIER's value
      exactly when it is outside the 'meta' vocabulary. */
  lemma MetaDocumentVerify(v: string)
    requires v != ""
    ensures VerifyOutcome(Document([MetaTier(v)])) == if v in MetaVocab then Passed else Raised([NotAllowed(v, MetaType)])
  {
    var d := Document([MetaTier(v)]);
    MetaDocumentVocabulary(v);
    MetaDocumentStructure(v);
    VocabLogOfOne(v, MetaVocab, MetaType);
    CollectOfFour(MetaOutcome(d), METAOutcome(d), TierAttribsOutcome(d), HierarchyOutcome(d));
  }

  /** A 'meta' TIER holding "kašel", one of the 'meta' labels: nothing to report. */
  lemma ScenarioKnownMetaValue()
    ensures VerifyOutcome(Document([MetaTier("kašel")])) == Passed
  {
    MetaDocumentVerify("kašel");
  }

  /** A near miss outside the 'meta' vocabulary; one message naming it. */
  lemma ScenarioUnknownMetaValue()
    ensures VerifyOutcome(Document([MetaTier("škytavka")])) == Raised([NotAllowed("škytavka", MetaType)])
  {
    MetaDocumentVerify("škytavka");
    NearMissOutsideMetaVocabulary();
  }

  /** The checks other than `tier_attribs` on a document holding one
      'fonetický' TIER: nothing to report. */
  lemma FoneticDocumentOthers(attrs: map<string, string>)
    ensures var d := Document([FoneticTier(attrs)]);
            MetaOutcome(d) == Passed && METAOutcome(d) == Passed && HierarchyOutcome(d) == Passed
  {
    var t := FoneticTier(attrs);
    FoneticTierSelections(attrs);
    DocumentSelections([t], TypeIs(MetaType), AnnotationValueTag);
    DocumentSelections([t], TypeIs(METAType), AnnotationValueTag);
    DocumentSelections([t], WithParent, AlignableAnnotationTag);
  }

  lemma FirstMissingKeyOfOne(t: Element)
    ensures FirstMissingKey([t]) == MissingKey(t)
  {
    assert [t][..0] == [];
  }

  lemma MismatchLogOfOne(t: Element)
    ensures MismatchLog([t]) == if ParentRef in t.attrs && PrefixesDiffer(t) then [PrefixMismatch] else []
  {
    assert [t][..0] == [];
  }

  /** The 'fonetický' TIERs of a document holding one, and those of them
      without PARENT_REF. */
  lemma FoneticDocumentTiers(attrs: map<string, string>)
    ensures var t := FoneticTier(attrs);
            var d := Document([t]);
            FoneticTiers(d) == [t] &&
            Tiers(d, TypeWithoutParent(FoneticType)) == if ParentRef in t.attrs then [] else [t]
  {
    var t := FoneticTier(attrs);
    FoneticTierTiers(attrs);
    DocumentSelections([t], TypeIs(FoneticType), AlignableAnnotationTag);
    DocumentSelections([t], TypeWithoutParent(FoneticType), AlignableAnnotationTag);
  }

  /** `tier_attribs` as written on a document holding one 'fonetický' TIER. */
  lemma FoneticDocumentAttribs(attrs: map<string, string>)
    ensures var t := FoneticTier(attrs);
            TierAttribsOutcome(Document([t])) ==
              if MissingKey(t).Some? then KeyErrorRaised(MissingKey(t).value) else Conclude(MismatchLog([t]))
  {
    var t := FoneticTier(attrs);
    FoneticDocumentTiers(attrs);
    FirstMissingKeyOfOne(t);
  }

  /** `tier_attribs` as intended on a document holding one 'fonetický' TIER. */
  lemma FoneticDocumentAttribsIntended(attrs: map<string, string>)
    ensures var t := FoneticTier(attrs);
            TierAttribsIntendedOutcome(Document([t])) ==
              Conclude((if ParentRef in t.attrs then [] else [MissingParent]) + MismatchLog([t]))
  {
    FoneticDocumentTiers(attrs);
  }

  lemma OrphanFacts()
    ensures var t := FoneticTier(OrphanAttrs);
            MissingKey(t) == Some(ParentRef) && ParentRef !in t.attrs && MismatchLog([t]) == []
  {
    MismatchLogOfOne(FoneticTier(OrphanAttrs));
  }

  lemma MismatchedFacts()
    ensures var t := FoneticTier(MismatchedAttrs);
            MissingKey(t) == None && ParentRef in t.attrs && MismatchLog([t]) == [PrefixMismatch]
  {
    var t := FoneticTier(MismatchedAttrs);
    assert AttrOrEmpty(t, TierId) == "1 fon" && AttrOrEmpty(t, ParentRef) == "2 ort";
    PrefixExamples();
    MismatchLogOfOne(t);
  }

  lemma MatchedFacts()
    ensures var t := FoneticTier(MatchedAttrs);
            MissingKey(t) == None && ParentRef in t.attrs && MismatchLog([t]) == []
  {
    var t := FoneticTier(MatchedAttrs);
    assert AttrOrEmpty(t, TierId) == "2 fon" && AttrOrEmpty(t, ParentRef) == "2 ort";
    PrefixExamples();
    MismatchLogOfOne(t);
  }

  /** A 'fonetický' TIER without PARENT_REF. As written, `verify`
      ends in a KeyError for PARENT_REF and reports nothing; as intended, it
      reports the missing attribute once. */
  lemma ScenarioMissingParent()
    ensures VerifyOutcome(Document([FoneticTier(OrphanAttrs)])) == KeyErrorRaised("PARENT_REF")
    ensures VerifyIntendedOutcome(Document([FoneticTier(OrphanAttrs)])) == Raised([MissingParent])
  {
    var d := Document([FoneticTier(OrphanAttrs)]);
    FoneticDocumentOthers(OrphanAttrs);
    FoneticDocumentAttribs(OrphanAttrs);
    FoneticDocumentAttribsIntended(OrphanAttrs);
    OrphanFacts();
    CollectOfFour(MetaOutcome(d), METAOutcome(d), TierAttribsOutcome(d), HierarchyOutcome(d));
    CollectOfFour(MetaOutcome(d), METAOutcome(d), TierAttribsIntendedOutcome(d), HierarchyOutcome(d));
  }

  /** TIER_ID "1 fon" with PARENT_REF "2 ort": one mismatch message. */
  lemma ScenarioPrefixMismatch()
    ensures VerifyOutcome(Document([FoneticTier(MismatchedAttrs)])) == Raised([PrefixMismatch])
  {
    var d := Document([FoneticTier(MismatchedAttrs)]);
    FoneticDocumentOthers(MismatchedAttrs);
    FoneticDocumentAttribs(MismatchedAttrs);
    MismatchedFacts();
    CollectOfFour(MetaOutcome(d), METAOutcome(d), TierAttribsOutcome(d), HierarchyOutcome(d));
  }

  /** TIER_ID "2 fon" with PARENT_REF "2 ort": the prefixes agree, nothing to report. */
  lemma ScenarioPrefixMatch()
    ensures VerifyOutcome(Document([FoneticTier(MatchedAttrs)])) == Passed
  {
    var d := Document([FoneticTier(MatchedAttrs)]);
    FoneticDocumentOthers(MatchedAttrs);
    FoneticDocumentAttribs(MatchedAttrs);
    MatchedFacts();
    CollectOfFour(MetaOutcome(d), METAOutcome(d), TierAttribsOutcome(d), HierarchyOutcome(d));
  }

  /** The four checks on a document holding only the dependent TIER. */
  lemma DependentDocumentChecks()
    ensures var d := Document([AlignedDependentTier]);
            MetaOutcome(d) == Passed && METAOutcome(d) == Passed &&
            TierAttribsOutcome(d) == Passed && HierarchyOutcome(d) == Raised([ForbiddenNesting])
  {
    var ts := [AlignedDependentTier];
    DependentTierVocabularySelections();
    DependentTierNesting();
    DependentTierNotFonetic();
    DocumentSelections(ts, TypeIs(MetaType), AnnotationValueTag);
    DocumentSelections(ts, TypeIs(METAType), AnnotationValueTag);
    DocumentSelections(ts, WithParent, AlignableAnnotationTag);
    DocumentSelections(ts, TypeIs(FoneticType), AlignableAnnotationTag);
    DocumentSelections(ts, TypeWithoutParent(FoneticType), AlignableAnnotationTag);
  }

  /** A dependent TIER holding a time-aligned annotation: one
      hierarchy message. */
  lemma ScenarioAlignedInDependentTier()
    ensures VerifyOutcome(Document([AlignedDependentTier])) == Raised([ForbiddenNesting])
  {
    var d := Document([AlignedDependentTier]);
    DependentDocumentChecks();
    CollectOfFour(MetaOutcome(d), METAOutcome(d), TierAttribsOutcome(d), HierarchyOutcome(d));
  }

  lemma TwoFaultVocabulary(v: string)
    requires v != ""
    ensures var d := Document([MetaTier(v), AlignedDependentTier]);
            MetaOutcome(d) == Conclude(VocabLog([v], MetaVocab, MetaType)) && METAOutcome(d) == Passed
  {
    var ts := [MetaTier(v), AlignedDependentTier];
    MetaTierVocabularySelections(v);
    DependentTierVocabularySelections();
    DocumentSelections(ts, TypeIs(MetaType), AnnotationValueTag);
    DocumentSelections(ts, TypeIs(METAType), AnnotationValueTag);
    TextOfOne(v);
  }

  lemma TwoFaultStructure(v: string)
    ensures var d := Document([MetaTier(v), AlignedDependentTier]);
            TierAttribsOutcome(d) == Passed && HierarchyOutcome(d) == Raised([ForbiddenNesting])
  {
    var ts := [MetaTier(v), AlignedDependentTier];
    MetaTierStructureSelections(v);
    DependentTierNesting();
    DependentTierNotFonetic();
    DocumentSelections(ts, WithParent, AlignableAnnotationTag);
    DocumentSelections(ts, TypeIs(FoneticType), AlignableAnnotationTag);
    DocumentSelections(ts, TypeWithoutParent(FoneticType), AlignableAnnotationTag);
  }

  /** Two faults in one document: a 'meta' value outside the vocabulary and a
      time-aligned annotation in a dependent TIER. Both are reported, in
      check order. */
  lemma TwoFaults(v: string)
    requires v != "" && v !in MetaVocab
    ensures VerifyOutcome(Document([MetaTier(v), AlignedDependentTier])) ==
              Raised([NotAllowed(v, MetaType), ForbiddenNesting])
  {
    var d := Document([MetaTier(v), AlignedDependentTier]);
    TwoFaultVocabulary(v);
    TwoFaultStructure(v);
    VocabLogOfOne(v, MetaVocab, MetaType);
    CollectOfFour(MetaOutcome(d), METAOutcome(d), TierAttribsOutcome(d), HierarchyOutcome(d));
  }

  /** The near miss "škytavka" in a 'meta' TIER next to a dependent TIER
      holding a time-aligned annotation. */
  lemma ScenarioTwoFaults()
    ensures VerifyOutcome(Document([MetaTier("škytavka"), AlignedDependentTier])) ==
              Raised([NotAllowed("škytavka", MetaType), ForbiddenNesting])
  {
    NearMissOutsideMetaVocabulary();
    TwoFaults("škytavka");
  }
}
