/**
 The `tier_attribs` check on TIERs of type 'fonetický': one message when any
 such TIER lacks PARENT_REF, and one message per such TIER whose TIER_ID and
 PARENT_REF disagree on the text before the first space.

 As written, the comparison loop looks both attributes up without a default,
 so a 'fonetický' TIER without PARENT_REF (or TIER_ID) stops the check with a
 KeyError; that TIER is exactly the one the first message is about, so the
 first message never reaches the caller. `TierAttribs` models the check as
 written, `TierAttribsIntended` the evident intent (compare only TIERs that
 have PARENT_REF, a missing TIER_ID counting as empty).
 */
module TierAttributes {
  import opened XmlTree
  import opened Errors

  const FoneticType := "fonetický"

  /** `s.split(" ")[0]`: the text before the first space, or all of s when it
      has none. */
  function Prefix(s: string): (p: string)
    ensures p <= s && ' ' !in p
    ensures |p| == |s| || s[|p|] == ' '
  {
    if s == [] || s[0] == ' ' then [] else [s[0]] + Prefix(s[1..])
  }

  /** The three properties above determine the prefix. */
  lemma {:induction false} PrefixUnique(s: string, p: string)
    requires p <= s && ' ' !in p
    requires |p| == |s| || s[|p|] == ' '
    ensures p == Prefix(s)
  {
    if p != [] {
      assert p[0] == s[0];
      PrefixUnique(s[1..], p[1..]);
    }
  }

  /** A speaker number followed by a space is the prefix. */
  lemma PrefixOfNumbered(n: string, rest: string)
    requires ' ' !in n
    ensures Prefix(n + " " + rest) == n
  {
    PrefixUnique(n + " " + rest, n);
  }

  lemma PrefixExamples()
    ensures Prefix("2 fon") == Prefix("2 ort") == "2"
    ensures Prefix("1 fon") != Prefix("2 ort")
    ensures Prefix("fon") == "fon"
  {
    PrefixOfNumbered("2", "fon");
    PrefixOfNumbered("2", "ort");
    PrefixOfNumbered("1", "fon");
    PrefixUnique("fon", "fon");
  }

  /** An attribute's value, the empty string when it is absent. */
  function AttrOrEmpty(t: Element, key: string): string
  {
    if key in t.attrs then t.attrs[key] else ""
  }

  predicate PrefixesDiffer(t: Element)
  {
    Prefix(AttrOrEmpty(t, TierId)) != Prefix(AttrOrEmpty(t, ParentRef))
  }

  /** The key whose lookup fails first on one TIER: TIER_ID is read before PARENT_REF. */
  function MissingKey(t: Element): Option<string>
  {
    if TierId !in t.attrs then Some(TierId)
    else if ParentRef !in t.attrs then Some(ParentRef)
    else None
  }

  /** The key of the first failing lookup over the TIERs in order. */
  function FirstMissingKey(tiers: seq<Element>): (k: Option<string>)
    ensures k.None? <==> forall t :: t in tiers ==> MissingKey(t).None?
  {
    if tiers == [] then None
    else
      var init := tiers[..|tiers| - 1];
      assert tiers == init + [tiers[|tiers| - 1]];
      if FirstMissingKey(init).Some? then FirstMissingKey(init) else MissingKey(tiers[|tiers| - 1])
  }

  /** Once some TIER's lookup fails, later TIERs do not change the key. */
  lemma {:induction false} FirstMissingKeyPrefix(tiers: seq<Element>, n: nat)
    requires n <= |tiers| && FirstMissingKey(tiers[..n]).Some?
    ensures FirstMissingKey(tiers) == FirstMissingKey(tiers[..n])
    decreases |tiers| - n
  {
    if n < |tiers| {
      assert tiers[..n + 1][..n] == tiers[..n];
      FirstMissingKeyPrefix(tiers, n + 1);
    } else {
      assert tiers[..n] == tiers;
    }
  }

  /** The mismatch errors: one per TIER that has PARENT_REF and whose
      prefixes differ, in order. */
  function MismatchLog(tiers: seq<Element>): (r: seq<Message>)
    ensures forall m :: m in r ==> m == PrefixMismatch
    ensures |r| <= |tiers|
  {
    if tiers == [] then []
    else
      var t := tiers[|tiers| - 1];
      MismatchLog(tiers[..|tiers| - 1]) + (if ParentRef in t.attrs && PrefixesDiffer(t) then [PrefixMismatch] else [])
  }

  lemma {:induction false} MismatchLogAppend(a: seq<Element>, b: seq<Element>)
    ensures MismatchLog(a + b) == MismatchLog(a) + MismatchLog(b)
    decreases |b|
  {
    if b == [] {
      assert a + b == a;
    } else {
      var b0 := b[..|b| - 1];
      assert (a + b)[..|a + b| - 1] == a + b0;
      assert (a + b)[|a + b| - 1] == b[|b| - 1];
      MismatchLogAppend(a, b0);
    }
  }

  /** No mismatch is reported exactly when every TIER with PARENT_REF agrees
      with it on the prefix. */
  lemma {:induction false} MismatchLogEmpty(tiers: seq<Element>)
    ensures MismatchLog(tiers) == [] <==> forall t :: t in tiers && ParentRef in t.attrs ==> !PrefixesDiffer(t)
  {
    if tiers != [] {
      var init := tiers[..|tiers| - 1];
      assert tiers == init + [tiers[|tiers| - 1]];
      MismatchLogEmpty(init);
    }
  }

  /** The mismatch log grows by at most one entry per TIER. */
  lemma MismatchLogStep(tiers: seq<Element>, i: nat)
    requires i < |tiers|
    ensures MismatchLog(tiers[..i + 1]) ==
              MismatchLog(tiers[..i]) + if ParentRef in tiers[i].attrs && PrefixesDiffer(tiers[i]) then [PrefixMismatch] else []
  {
    assert tiers[..i + 1][..i] == tiers[..i];
  }

  /** Without a failing lookup so far, the next TIER decides the key. */
  lemma FirstMissingKeyStep(tiers: seq<Element>, i: nat)
    requires i < |tiers| && FirstMissingKey(tiers[..i]).None?
    ensures FirstMissingKey(tiers[..i + 1]) == MissingKey(tiers[i])
  {
    assert tiers[..i + 1][..i] == tiers[..i];
  }

  /** Associativity of concatenation, stated for the loops below: calling it
      there keeps the solver from searching for the regrouping, which it
      otherwise does at a cost that varies widely with the random seed. */
  lemma AppendAssoc(a: seq<Message>, b: seq<Message>, c: seq<Message>)
    ensures (a + b) + c == a + (b + c)
  {
  }

  /** The 'fonetický' TIERs of a document, in document order. */
  function FoneticTiers(root: Element): seq<Element>
  {
    Tiers(root, TypeIs(FoneticType))
  }

  /** The message of lines 129-130: present when some 'fonetický' TIER lacks PARENT_REF. */
  function MissingParentLog(root: Element): seq<Message>
  {
    if Tiers(root, TypeWithoutParent(FoneticType)) != [] then [MissingParent] else []
  }

  /** What `tier_attribs` does, as written. */
  function TierAttribsOutcome(root: Element): Outcome
  {
    match FirstMissingKey(FoneticTiers(root))
    case Some(k) => KeyErrorRaised(k)
    case None => Conclude(MissingParentLog(root) + MismatchLog(FoneticTiers(root)))
  }

  /** The comparison loop of `tier_attribs` as written, over the 'fonetický'
      TIERs and the errors collected before it: the first failing lookup ends
      the check, otherwise one mismatch message per disagreeing TIER is added. */
  method CompareTiers(fon: seq<Element>, errors0: seq<Message>) returns (o: Outcome)
    ensures FirstMissingKey(fon).Some? ==> o == KeyErrorRaised(FirstMissingKey(fon).value)
    ensures FirstMissingKey(fon).None? ==> o == Conclude(errors0 + MismatchLog(fon))
  {
    var errors := errors0;
    for i := 0 to |fon|
      invariant FirstMissingKey(fon[..i]).None?
      invariant errors == errors0 + MismatchLog(fon[..i])
    {
      var t := fon[i];
      FirstMissingKeyStep(fon, i);
      MismatchLogStep(fon, i);
      ghost var found := if ParentRef in t.attrs && PrefixesDiffer(t) then [PrefixMismatch] else [];
      AppendAssoc(errors0, MismatchLog(fon[..i]), found);
      if TierId !in t.attrs {
        FirstMissingKeyPrefix(fon, i + 1);
        return KeyErrorRaised(TierId);
      }
      if ParentRef !in t.attrs {
        FirstMissingKeyPrefix(fon, i + 1);
        return KeyErrorRaised(ParentRef);
      }
      var tierIdPrefix := Prefix(t.attrs[TierId]);
      var parentRefPrefix := Prefix(t.attrs[ParentRef]);
      if tierIdPrefix != parentRefPrefix {
        errors := errors + [PrefixMismatch];
      }
    }
    assert fon[..|fon|] == fon;
    o := Conclude(errors);
  }

  /** `tier_attribs`, as written. */
  method TierAttribs(root: Element) returns (o: Outcome)
    ensures o == TierAttribsOutcome(root)
    ensures o.KeyErrorRaised? <==> exists t :: t in FoneticTiers(root) && MissingKey(t).Some?
    ensures MissingParent !in ErrorLog(o)
  {
    var errors := [];
    if |Tiers(root, TypeWithoutParent(FoneticType))| > 0 {
      errors := errors + [MissingParent];
    }
    o := CompareTiers(FoneticTiers(root), errors);
    MissingParentNeverReported(root);
  }

  /** Finding: when the check does not crash, its log never holds the
      missing-PARENT_REF message; a 'fonetický' TIER without PARENT_REF always
      ends the check with a KeyError instead. */
  lemma MissingParentNeverReported(root: Element)
    ensures MissingParent !in ErrorLog(TierAttribsOutcome(root))
    ensures Tiers(root, TypeWithoutParent(FoneticType)) != [] ==> TierAttribsOutcome(root).KeyErrorRaised?
  {
    var fon := FoneticTiers(root);
    var orphans := Tiers(root, TypeWithoutParent(FoneticType));
    if orphans != [] {
      var t := orphans[0];
      TiersMember(root, TypeWithoutParent(FoneticType), t);
      TiersMember(root, TypeIs(FoneticType), t);
      assert MissingKey(t).Some?;
    }
  }

  /** The comparison loop as evidently intended: only TIERs that have
      PARENT_REF are compared, a missing TIER_ID counting as empty. */
  method CompareTiersIntended(fon: seq<Element>, errors0: seq<Message>) returns (errors: seq<Message>)
    ensures errors == errors0 + MismatchLog(fon)
  {
    errors := errors0;
    for i := 0 to |fon|
      invariant errors == errors0 + MismatchLog(fon[..i])
    {
      var t := fon[i];
      MismatchLogStep(fon, i);
      ghost var found := if ParentRef in t.attrs && PrefixesDiffer(t) then [PrefixMismatch] else [];
      AppendAssoc(errors0, MismatchLog(fon[..i]), found);
      if ParentRef in t.attrs {
        var tierIdPrefix := Prefix(AttrOrEmpty(t, TierId));
        var parentRefPrefix := Prefix(t.attrs[ParentRef]);
        if tierIdPrefix != parentRefPrefix {
          errors := errors + [PrefixMismatch];
        }
      }
    }
    assert fon[..|fon|] == fon;
  }

  /** `tier_attribs` as evidently intended: never raises KeyError, reports the
      missing PARENT_REF once, and compares prefixes only where PARENT_REF exists. */
  method TierAttribsIntended(root: Element) returns (o: Outcome)
    ensures o == Conclude(MissingParentLog(root) + MismatchLog(FoneticTiers(root)))
    ensures !o.KeyErrorRaised?
    ensures MissingParent in ErrorLog(o) <==>
              exists t :: IsTier(t, TypeWithoutParent(FoneticType)) && (t == root || Descendant(root, t))
    ensures multiset(ErrorLog(o))[MissingParent] <= 1
  {
    var errors := [];
    if |Tiers(root, TypeWithoutParent(FoneticType))| > 0 {
      errors := errors + [MissingParent];
    }
    errors := CompareTiersIntended(FoneticTiers(root), errors);
    o := Conclude(errors);
    MissingParentReportedOnce(root);
  }

  lemma MissingParentReportedOnce(root: Element)
    ensures var log := MissingParentLog(root) + MismatchLog(FoneticTiers(root));
            (MissingParent in log <==>
              exists t :: IsTier(t, TypeWithoutParent(FoneticType)) && (t == root || Descendant(root, t))) &&
            multiset(log)[MissingParent] <= 1
  {
    var mis := MismatchLog(FoneticTiers(root));
    assert MissingParent !in mis;
    assert MissingParent !in multiset(mis);
    var orphans := Tiers(root, TypeWithoutParent(FoneticType));
    if orphans != [] {
      TiersMember(root, TypeWithoutParent(FoneticType), orphans[0]);
    }
    if exists t :: IsTier(t, TypeWithoutParent(FoneticType)) && (t == root || Descendant(root, t)) {
      var t :| IsTier(t, TypeWithoutParent(FoneticType)) && (t == root || Descendant(root, t));
      TiersMember(root, TypeWithoutParent(FoneticType), t);
    }
  }
}
