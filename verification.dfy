/**
 `verify`: run the four checks in a fixed order, collect the log of every
 check that raises VerificationError, and raise one VerificationError with
 the concatenation when it is non-empty. A failing check does not stop the
 later ones. Only VerificationError is caught, so a KeyError from
 `tier_attribs` ends the run at once and nothing after it runs.
 */
module Verification {
  import opened XmlTree
  import opened Errors
  import opened Vocabulary
  import opened TierAttributes
  import opened TierHierarchy

  datatype Check = VocabMetaCheck | VocabMETACheck | TierAttribsCheck | TierAttribsIntendedCheck | HierarchyCheck

  /** The checks `verify` runs, in its order. */
  const Checks := [VocabMetaCheck, VocabMETACheck, TierAttribsCheck, HierarchyCheck]

  /** The same list with `tier_attribs` as evidently intended. */
  const IntendedChecks := [VocabMetaCheck, VocabMETACheck, TierAttribsIntendedCheck, HierarchyCheck]

  function MetaOutcome(root: Element): Outcome
  {
    Conclude(VocabLog(TierTexts(root, MetaType), MetaVocab, MetaType))
  }

  function METAOutcome(root: Element): Outcome
  {
    Conclude(VocabLog(TierTexts(root, METAType), METAVocab, METAType))
  }

  function TierAttribsIntendedOutcome(root: Element): Outcome
  {
    Conclude(MissingParentLog(root) + MismatchLog(FoneticTiers(root)))
  }

  function CheckOutcome(c: Check, root: Element): Outcome
  {
    match c
    case VocabMetaCheck => MetaOutcome(root)
    case VocabMETACheck => METAOutcome(root)
    case TierAttribsCheck => TierAttribsOutcome(root)
    case TierAttribsIntendedCheck => TierAttribsIntendedOutcome(root)
    case HierarchyCheck => HierarchyOutcome(root)
  }

  /** One pass of the loop body: call the check. */
  method RunCheck(c: Check, root: Element) returns (o: Outcome)
    ensures o == CheckOutcome(c, root)
  {
    match c
    case VocabMetaCheck => o := VocabMeta(root);
    case VocabMETACheck => o := VocabMETA(root);
    case TierAttribsCheck => o := TierAttribs(root);
    case TierAttribsIntendedCheck => o := TierAttribsIntended(root);
    case HierarchyCheck => o := Hierarchy(root);
  }

  /** The outcomes of the checks, one per check, in order. */
  function Outcomes(root: Element, checks: seq<Check>): (outs: seq<Outcome>)
    ensures |outs| == |checks|
  {
    if checks == [] then []
    else Outcomes(root, checks[..|checks| - 1]) + [CheckOutcome(checks[|checks| - 1], root)]
  }

  lemma {:induction false} OutcomesAt(root: Element, checks: seq<Check>, i: nat)
    requires i < |checks|
    ensures Outcomes(root, checks)[i] == CheckOutcome(checks[i], root)
  {
    if i < |checks| - 1 {
      OutcomesAt(root, checks[..|checks| - 1], i);
    }
  }

  /** The logs of a run of outcomes, concatenated in order. */
  function Logs(outs: seq<Outcome>): seq<Message>
  {
    if outs == [] then [] else Logs(outs[..|outs| - 1]) + ErrorLog(outs[|outs| - 1])
  }

  /** What `verify` makes of the checks' outcomes, taken one after the other:
      a KeyError ends the run and escapes; VerificationError logs are added
      to the collected errors; one VerificationError is raised at the end if
      anything was collected. */
  function Collect(outs: seq<Outcome>): Outcome
  {
    if outs == [] then Passed
    else
      var before := Collect(outs[..|outs| - 1]);
      var last := outs[|outs| - 1];
      if before.KeyErrorRaised? then before
      else if last.KeyErrorRaised? then last
      else Conclude(ErrorLog(before) + ErrorLog(last))
  }

  /** Without a KeyError, every check's log is kept, in order, and raised
      only if the whole is non-empty. */
  lemma {:induction false} CollectNoEscape(outs: seq<Outcome>)
    requires forall i :: 0 <= i < |outs| ==> !outs[i].KeyErrorRaised?
    ensures Collect(outs) == Conclude(Logs(outs))
  {
    if outs != [] {
      var init := outs[..|outs| - 1];
      assert forall i :: 0 <= i < |init| ==> init[i] == outs[i];
      CollectNoEscape(init);
    }
  }

  /** The first KeyError is what the run ends with; nothing after it matters. */
  lemma {:induction false} CollectFirstEscape(outs: seq<Outcome>, i: nat)
    requires i < |outs| && outs[i].KeyErrorRaised?
    requires forall j :: 0 <= j < i ==> !outs[j].KeyErrorRaised?
    ensures Collect(outs) == outs[i]
  {
    var init := outs[..|outs| - 1];
    if i < |outs| - 1 {
      assert init[i] == outs[i];
      assert forall j :: 0 <= j < i ==> init[j] == outs[j];
      CollectFirstEscape(init, i);
    } else {
      assert forall j :: 0 <= j < |init| ==> init[j] == outs[j];
      CollectNoEscape(init);
    }
  }

  /** Four outcomes in a row: the first KeyError escapes; without one the
      four logs are concatenated in order. */
  lemma CollectOfFour(a: Outcome, b: Outcome, c: Outcome, d: Outcome)
    ensures Collect([a, b, c, d]) ==
              if a.KeyErrorRaised? then a else if b.KeyErrorRaised? then b
              else if c.KeyErrorRaised? then c else if d.KeyErrorRaised? then d
              else Conclude(ErrorLog(a) + ErrorLog(b) + ErrorLog(c) + ErrorLog(d))
  {
    assert [a, b, c, d][..3] == [a, b, c];
    assert [a, b, c][..2] == [a, b];
    assert [a, b][..1] == [a];
    assert [a][..0] == [];
    assert Collect([a]) == if a.KeyErrorRaised? then a else Conclude(ErrorLog(a));
    assert Collect([a, b]) == if a.KeyErrorRaised? then a else if b.KeyErrorRaised? then b
                              else Conclude(ErrorLog(a) + ErrorLog(b));
    assert Collect([a, b, c]) == if a.KeyErrorRaised? then a else if b.KeyErrorRaised? then b
                                 else if c.KeyErrorRaised? then c
                                 else Conclude(ErrorLog(a) + ErrorLog(b) + ErrorLog(c));
  }

  /** One more outcome, after none escaped. */
  lemma CollectStep(outs: seq<Outcome>, i: nat)
    requires i < |outs| && !Collect(outs[..i]).KeyErrorRaised?
    ensures Collect(outs[..i + 1]) ==
              if outs[i].KeyErrorRaised? then outs[i] else Conclude(ErrorLog(Collect(outs[..i])) + ErrorLog(outs[i]))
  {
    assert outs[..i + 1][..i] == outs[..i];
  }

  /** Once a KeyError has escaped, later outcomes do not matter. */
  lemma {:induction false} CollectEscapeSticks(outs: seq<Outcome>, n: nat)
    requires n <= |outs| && Collect(outs[..n]).KeyErrorRaised?
    ensures Collect(outs) == Collect(outs[..n])
    decreases |outs| - n
  {
    if n < |outs| {
      assert outs[..n + 1][..n] == outs[..n];
      CollectEscapeSticks(outs, n + 1);
    } else {
      assert outs[..n] == outs;
    }
  }

  /** The loop of `verify` over a list of checks. */
  method RunChecks(root: Element, checks: seq<Check>) returns (o: Outcome)
    ensures o == Collect(Outcomes(root, checks))
  {
    ghost var outs := Outcomes(root, checks);
    var errors := [];
    for i := 0 to |checks|
      invariant Collect(outs[..i]) == Conclude(errors)
    {
      var r := RunCheck(checks[i], root);
      OutcomesAt(root, checks, i);
      CollectStep(outs, i);
      match r
      case Passed =>
      case Raised(log) =>
        errors := errors + log;
      case KeyErrorRaised(k) =>
        CollectEscapeSticks(outs, i + 1);
        return KeyErrorRaised(k);
    }
    assert outs[..|checks|] == outs;
    o := Conclude(errors);
  }

  lemma OutcomesOfFour(root: Element, checks: seq<Check>)
    requires |checks| == 4
    ensures Outcomes(root, checks) ==
              [CheckOutcome(checks[0], root), CheckOutcome(checks[1], root),
               CheckOutcome(checks[2], root), CheckOutcome(checks[3], root)]
  {
    var outs := Outcomes(root, checks);
    OutcomesAt(root, checks, 0);
    OutcomesAt(root, checks, 1);
    OutcomesAt(root, checks, 2);
    OutcomesAt(root, checks, 3);
  }

  lemma ChecksOutcomes(root: Element)
    ensures Outcomes(root, Checks) ==
              [MetaOutcome(root), METAOutcome(root), TierAttribsOutcome(root), HierarchyOutcome(root)]
  {
    OutcomesOfFour(root, Checks);
  }

  lemma IntendedChecksOutcomes(root: Element)
    ensures Outcomes(root, IntendedChecks) ==
              [MetaOutcome(root), METAOutcome(root), TierAttribsIntendedOutcome(root), HierarchyOutcome(root)]
  {
    OutcomesOfFour(root, IntendedChecks);
  }

  /** Only `tier_attribs` as written looks attributes up without a default. */
  lemma OnlyTierAttribsEscapes(root: Element)
    ensures !MetaOutcome(root).KeyErrorRaised? && !METAOutcome(root).KeyErrorRaised?
    ensures !TierAttribsIntendedOutcome(root).KeyErrorRaised? && !HierarchyOutcome(root).KeyErrorRaised?
  {
  }

  /** `verify`. */
  method Verify(root: Element) returns (o: Outcome)
    ensures o == Collect([MetaOutcome(root), METAOutcome(root), TierAttribsOutcome(root), HierarchyOutcome(root)])
    ensures TierAttribsOutcome(root).KeyErrorRaised? ==> o == TierAttribsOutcome(root)
    ensures !TierAttribsOutcome(root).KeyErrorRaised? ==>
              o == Conclude(ErrorLog(MetaOutcome(root)) + ErrorLog(METAOutcome(root)) +
                            ErrorLog(TierAttribsOutcome(root)) + ErrorLog(HierarchyOutcome(root)))
  {
    o := RunChecks(root, Checks);
    ChecksOutcomes(root);
    OnlyTierAttribsEscapes(root);
    CollectOfFour(MetaOutcome(root), METAOutcome(root), TierAttribsOutcome(root), HierarchyOutcome(root));
  }

  /** `verify` with `tier_attribs` as evidently intended: never a KeyError. */
  method VerifyIntended(root: Element) returns (o: Outcome)
    ensures o == Conclude(ErrorLog(MetaOutcome(root)) + ErrorLog(METAOutcome(root)) +
                          ErrorLog(TierAttribsIntendedOutcome(root)) + ErrorLog(HierarchyOutcome(root)))
  {
    o := RunChecks(root, IntendedChecks);
    IntendedChecksOutcomes(root);
    OnlyTierAttribsEscapes(root);
    CollectOfFour(MetaOutcome(root), METAOutcome(root), TierAttribsIntendedOutcome(root), HierarchyOutcome(root));
  }

  /** The checks only read the tree, so running `verify` again on the same
      document gives the same outcome. */
  method VerifyTwice(root: Element) returns (first: Outcome, second: Outcome)
    ensures first == second
  {
    first := Verify(root);
    second := Verify(root);
  }
}
