/**
 How a check ends and how an error log is shown. A check in the validator
 either returns normally, raises a VerificationError carrying its error log,
 or lets a KeyError from a missing attribute escape; `Outcome` names the three.
 */
module Errors {

  /** The entries of an error log. Each check adds entries of its own kinds;
      `Text` gives the wording the validator prints. */
  datatype Message =
    | NotAllowed(value: string, tierType: string)  // a value outside the vocabulary of its tier type
    | MissingParent                                // a 'fonetický' TIER without PARENT_REF
    | PrefixMismatch                               // TIER_ID and PARENT_REF of a 'fonetický' TIER disagree
    | ForbiddenNesting                             // a time-aligned annotation in a dependent TIER

  function Text(m: Message): string
  {
    match m
    case NotAllowed(v, typ) => "'" + v + "' is not allowed in a " + typ + " tier."
    case MissingParent => "TIERs with @LINGUISTIC_TYPE_REF = 'fonetický' should have a @PARENT_REF attribute."
    case PrefixMismatch =>
      "The numeric prefixes of @TIER_ID and @PARENT_REF on a TIER with @LINGUISTIC_TYPE_REF = 'fonetický' should match."
    case ForbiddenNesting => "ALIGNABLE_ANNOTATIONs are not allowed on a TIER with a @PARENT_REF attribute."
  }

  lemma MissingParentShape()
    ensures |Text(MissingParent)| == 82 && Text(MissingParent)[80] == 'e'
  {
  }

  lemma PrefixMismatchShape()
    ensures var t := Text(PrefixMismatch); |t| >= 2 && t[|t| - 2] == 'h'
  {
  }

  lemma ForbiddenNestingShape()
    ensures |Text(ForbiddenNesting)| == 77 && Text(ForbiddenNesting)[75] == 'e'
  {
  }

  lemma NotAllowedShape(v: string, typ: string)
    ensures var t := Text(NotAllowed(v, typ)); |t| >= 2 && t[|t| - 2] == 'r'
  {
    var head := "'" + v + "' is not allowed in a " + typ;
    var t := head + " tier.";
    assert t[|head| + 4] == " tier."[4];
  }

  /** A rejected value can be read back from its message (the tier type being
      fixed, as it is within one check). */
  lemma NotAllowedInjective(v: string, w: string, typ: string)
    ensures Text(NotAllowed(v, typ)) == Text(NotAllowed(w, typ)) ==> v == w
  {
    if Text(NotAllowed(v, typ)) == Text(NotAllowed(w, typ)) {
      var m := Text(NotAllowed(v, typ));
      assert |v| == |w|;
      assert v == m[1..1 + |v|];
      assert w == Text(NotAllowed(w, typ))[1..1 + |w|];
    }
  }

  /** The kind of an entry can be told from its length and its next-to-last
      character. */
  lemma KindsPrintDifferently(v: string, typ: string)
    ensures Text(NotAllowed(v, typ)) !in {Text(MissingParent), Text(PrefixMismatch), Text(ForbiddenNesting)}
    ensures Text(MissingParent) != Text(PrefixMismatch)
    ensures Text(MissingParent) != Text(ForbiddenNesting)
    ensures Text(PrefixMismatch) != Text(ForbiddenNesting)
  {
    NotAllowedShape(v, typ);
    MissingParentShape();
    PrefixMismatchShape();
    ForbiddenNestingShape();
  }

  datatype Outcome =
    | Passed
    | Raised(errorLog: seq<Message>)    // VerificationError(errorLog)
    | KeyErrorRaised(key: string)       // an attribute lookup that failed

  /** The log a caller catching VerificationError collects from an outcome. */
  function ErrorLog(o: Outcome): seq<Message>
  {
    if o.Raised? then o.errorLog else []
  }

  /** The closing `if errors: raise VerificationError(errors)` of every check. */
  function Conclude(errors: seq<Message>): (o: Outcome)
    ensures o.Passed? <==> errors == []
    ensures !o.KeyErrorRaised? && ErrorLog(o) == errors
  {
    if errors == [] then Passed else Raised(errors)
  }

  /** The printed entries of a log, in order. */
  function Lines(log: seq<Message>): (r: seq<string>)
    ensures |r| == |log|
  {
    if log == [] then [] else Lines(log[..|log| - 1]) + [Text(log[|log| - 1])]
  }

  lemma {:induction false} LinesAt(log: seq<Message>, i: nat)
    requires i < |log|
    ensures Lines(log)[i] == Text(log[i])
  {
    if i < |log| - 1 {
      LinesAt(log[..|log| - 1], i);
    }
  }

  /** `sep.join(xs)`. */
  function Join(sep: string, xs: seq<string>): string
  {
    if |xs| == 0 then ""
    else if |xs| == 1 then xs[0]
    else Join(sep, xs[..|xs| - 1]) + sep + xs[|xs| - 1]
  }

  const Indent := "  "
  const LineBreak := "\n" + Indent

  /** `str(VerificationError(log))` on the printed entries: joined by an
      indented line break, the first one indented too. */
  function Render(log: seq<string>): string
  {
    Indent + Join(LineBreak, log)
  }

  /** Reference rendering: every entry on a line of its own, each line
      introduced by a line break and the indentation. */
  function IndentedLines(log: seq<string>): (r: string)
    ensures log != [] ==> |r| > 0 && r[0] == '\n'
  {
    if log == [] then "" else IndentedLines(log[..|log| - 1]) + LineBreak + log[|log| - 1]
  }

  /** A rendered log is the list of indented lines without the leading line
      break; an empty log renders as the bare indentation. */
  lemma {:induction false} RenderIsIndentedLines(log: seq<string>)
    ensures log == [] ==> Render(log) == Indent
    ensures log != [] ==> Render(log) == IndentedLines(log)[1..]
  {
    if |log| == 1 {
      assert IndentedLines(log) == IndentedLines([]) + LineBreak + log[0];
    } else if |log| > 1 {
      var init := log[..|log| - 1];
      RenderIsIndentedLines(init);
      var lines := IndentedLines(init);
      calc {
        Render(log);
        Indent + Join(LineBreak, init) + LineBreak + log[|log| - 1];
        lines[1..] + LineBreak + log[|log| - 1];
        (lines + LineBreak + log[|log| - 1])[1..];
      }
    }
  }

  lemma RenderExample()
    ensures Render(["a", "b"]) == "  a\n  b"
    ensures Render([]) == "  "
  {
    assert Join(LineBreak, ["a", "b"]) == Join(LineBreak, ["a"]) + LineBreak + "b";
  }
}
