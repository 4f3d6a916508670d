/**
 The parsed transcript tree and the handful of XPath queries the semantic
 checks put to it. Each query is a walk over the tree in document order, so a
 node is visited once and results come out in the order XPath node-sets are
 returned in. Beside each walk stands an independent description of what it
 selects (subtree membership, "strictly below a matching TIER"), and a lemma
 connects the two in both directions.
 */
module XmlTree {

  datatype Option<T> = None | Some(value: T)

  /** One XML element: its tag, attributes, own text node (None when the
      element has no text) and child elements in document order. */
  datatype Element = Element(tag: string, attrs: map<string, string>, text: Option<string>, children: seq<Element>)

  const TierTag := "TIER"
  const AnnotationValueTag := "ANNOTATION_VALUE"
  const AlignableAnnotationTag := "ALIGNABLE_ANNOTATION"
  const LinguisticTypeRef := "LINGUISTIC_TYPE_REF"
  const ParentRef := "PARENT_REF"
  const TierId := "TIER_ID"

  /** The XPath test `@name = 'v'`: the attribute exists and has that value. */
  predicate AttrIs(e: Element, name: string, v: string)
  {
    name in e.attrs && e.attrs[name] == v
  }

  /** The predicates that appear in brackets after `TIER` in the queries. */
  datatype TierTest =
    | TypeIs(typ: string)                      // [@LINGUISTIC_TYPE_REF = typ]
    | TypeWithoutParent(typ: string)           // [@LINGUISTIC_TYPE_REF = typ and not(@PARENT_REF)]
    | WithParent                               // [@PARENT_REF]

  predicate IsTier(e: Element, test: TierTest)
  {
    e.tag == TierTag &&
    match test
    case TypeIs(typ) => AttrIs(e, LinguisticTypeRef, typ)
    case TypeWithoutParent(typ) => AttrIs(e, LinguisticTypeRef, typ) && ParentRef !in e.attrs
    case WithParent => ParentRef in e.attrs
  }

  /** x is a proper descendant of e. */
  ghost predicate Descendant(e: Element, x: Element)
  {
    exists i :: 0 <= i < |e.children| && (e.children[i] == x || Descendant(e.children[i], x))
  }

  /** x lies strictly below some TIER passing the test, that TIER being e or
      one of e's descendants. */
  ghost predicate UnderTier(e: Element, test: TierTest, x: Element)
  {
    (IsTier(e, test) && Descendant(e, x)) ||
    exists i :: 0 <= i < |e.children| && UnderTier(e.children[i], test, x)
  }

  /** `//TIER[test]` evaluated in the subtree rooted at e (e included). */
  function Tiers(e: Element, test: TierTest): seq<Element>
  {
    (if IsTier(e, test) then [e] else []) + TiersIn(e.children, test)
  }

  function TiersIn(cs: seq<Element>, test: TierTest): seq<Element>
  {
    if cs == [] then [] else TiersIn(cs[..|cs| - 1], test) + Tiers(cs[|cs| - 1], test)
  }

  /** `//TIER[test]//tag` evaluated in the subtree rooted at e: the elements
      named tag that lie strictly below a matching TIER. `inside` records that
      an ancestor of e is already such a TIER. */
  function Below(e: Element, test: TierTest, tag: string, inside: bool): seq<Element>
  {
    (if inside && e.tag == tag then [e] else []) +
    BelowIn(e.children, test, tag, inside || IsTier(e, test))
  }

  function BelowIn(cs: seq<Element>, test: TierTest, tag: string, inside: bool): seq<Element>
  {
    if cs == [] then [] else BelowIn(cs[..|cs| - 1], test, tag, inside) + Below(cs[|cs| - 1], test, tag, inside)
  }

  /** The text nodes of an element: an absent or empty text is no node. */
  predicate HasText(e: Element, v: string)
  {
    e.text == Some(v) && v != ""
  }

  function TextNodes(e: Element): (r: seq<string>)
    ensures forall v :: v in r <==> HasText(e, v)
    ensures |r| <= 1
  {
    if e.text.Some? && e.text.value != "" then [e.text.value] else []
  }

  /** The `/text()` step applied to a node-set. */
  function Texts(es: seq<Element>): seq<string>
  {
    if es == [] then [] else Texts(es[..|es| - 1]) + TextNodes(es[|es| - 1])
  }

  /** `//TIER[@LINGUISTIC_TYPE_REF = typ]//ANNOTATION_VALUE/text()` on a document. */
  function TierTexts(root: Element, typ: string): seq<string>
  {
    Texts(Below(root, TypeIs(typ), AnnotationValueTag, false))
  }

  // ---------------------------------------------------------------------
  // The walks select exactly what their descriptions say.

  lemma {:induction false} TiersMember(e: Element, test: TierTest, x: Element)
    ensures x in Tiers(e, test) <==> IsTier(x, test) && (x == e || Descendant(e, x))
    decreases e, 1
  {
    TiersInMember(e.children, test, x);
  }

  lemma {:induction false} TiersInMember(cs: seq<Element>, test: TierTest, x: Element)
    ensures x in TiersIn(cs, test) <==>
              IsTier(x, test) && exists i :: 0 <= i < |cs| && (cs[i] == x || Descendant(cs[i], x))
    decreases cs, 0
  {
    if cs != [] {
      var init, last := cs[..|cs| - 1], cs[|cs| - 1];
      TiersInMember(init, test, x);
      TiersMember(last, test, x);
      if IsTier(x, test) && (exists i :: 0 <= i < |cs| && (cs[i] == x || Descendant(cs[i], x))) {
        var i :| 0 <= i < |cs| && (cs[i] == x || Descendant(cs[i], x));
        if i < |cs| - 1 {
          assert init[i] == cs[i];
        }
      }
      if x in TiersIn(init, test) {
        var i :| 0 <= i < |init| && (init[i] == x || Descendant(init[i], x));
        assert cs[i] == init[i];
      }
    }
  }

  lemma {:induction false} BelowMember(e: Element, test: TierTest, tag: string, inside: bool, x: Element)
    ensures x in Below(e, test, tag, inside) <==>
              x.tag == tag && ((inside && (x == e || Descendant(e, x))) || UnderTier(e, test, x))
    decreases e, 1
  {
    BelowInMember(e.children, test, tag, inside || IsTier(e, test), x);
  }

  lemma {:induction false} BelowInMember(cs: seq<Element>, test: TierTest, tag: string, inside: bool, x: Element)
    ensures x in BelowIn(cs, test, tag, inside) <==>
              x.tag == tag &&
              exists i :: 0 <= i < |cs| && ((inside && (cs[i] == x || Descendant(cs[i], x))) || UnderTier(cs[i], test, x))
    decreases cs, 0
  {
    if cs != [] {
      var init, last := cs[..|cs| - 1], cs[|cs| - 1];
      BelowInMember(init, test, tag, inside, x);
      BelowMember(last, test, tag, inside, x);
      if exists i :: 0 <= i < |cs| && ((inside && (cs[i] == x || Descendant(cs[i], x))) || UnderTier(cs[i], test, x)) {
        var i :| 0 <= i < |cs| && ((inside && (cs[i] == x || Descendant(cs[i], x))) || UnderTier(cs[i], test, x));
        if i < |cs| - 1 {
          assert init[i] == cs[i];
        }
      }
      if x in BelowIn(init, test, tag, inside) {
        var i :| 0 <= i < |init| && ((inside && (init[i] == x || Descendant(init[i], x))) || UnderTier(init[i], test, x));
        assert cs[i] == init[i];
      }
    }
  }

  lemma {:induction false} TextsMember(es: seq<Element>, v: string)
    ensures v in Texts(es) <==> exists k :: 0 <= k < |es| && HasText(es[k], v)
  {
    if es != [] {
      var init := es[..|es| - 1];
      TextsMember(init, v);
      if exists k :: 0 <= k < |es| && HasText(es[k], v) {
        var k :| 0 <= k < |es| && HasText(es[k], v);
        if k < |es| - 1 {
          assert init[k] == es[k];
        }
      }
      if v in Texts(init) {
        var k :| 0 <= k < |init| && HasText(init[k], v);
        assert es[k] == init[k];
      }
    }
  }

  /** A value is reported by the annotation-value query exactly when some
      ANNOTATION_VALUE carrying that text lies strictly below a TIER of the
      requested type. */
  lemma TierTextsMember(root: Element, typ: string, v: string)
    ensures v in TierTexts(root, typ) <==>
              exists x :: UnderTier(root, TypeIs(typ), x) && x.tag == AnnotationValueTag && HasText(x, v)
  {
    var sel := Below(root, TypeIs(typ), AnnotationValueTag, false);
    TextsMember(sel, v);
    if v in TierTexts(root, typ) {
      var k :| 0 <= k < |sel| && HasText(sel[k], v);
      BelowMember(root, TypeIs(typ), AnnotationValueTag, false, sel[k]);
    }
    if exists x :: UnderTier(root, TypeIs(typ), x) && x.tag == AnnotationValueTag && HasText(x, v) {
      var x :| UnderTier(root, TypeIs(typ), x) && x.tag == AnnotationValueTag && HasText(x, v);
      BelowMember(root, TypeIs(typ), AnnotationValueTag, false, x);
      var k :| 0 <= k < |sel| && sel[k] == x;
    }
  }
}
