# ORTOFON transcript verification, modelled in Dafny

`validate.py` checks ELAN (.eaf) transcripts of the ORTOFON corpus of spoken
Czech. After XML-schema validation, `verify` runs four checks on the parsed
document:

- `vocab_meta` checks the annotation values under TIERs of linguistic type
  'meta'. Each must be one of 31 labels for a speaker's non-speech sounds.
- `vocab_META` checks the values under TIERs of type 'META'. Each must be one
  of 22 labels for background noise.
- `tier_attribs` checks each TIER of type 'fonetický'. It should have a
  PARENT_REF. The text before the first space of its TIER_ID should equal
  that of its PARENT_REF.
- `hierarchy` checks that no ALIGNABLE_ANNOTATION sits under a TIER that has
  a PARENT_REF.

Each check collects messages and raises `VerificationError` when there are
any. `verify` runs all four and concatenates what they raised, in order. It
then raises one `VerificationError` carrying the whole log. Printing that
error indents every message by two spaces, one per line.

The model:

- `XmlTree` holds the parsed document as an `Element` tree. The three XPath
  queries are recursive walks over that tree. Membership lemmas tie each walk
  to what its query selects.
- `Errors` holds the log entries, as a `Message` datatype. `Text` gives each
  entry's exact wording. It also holds the three ways a check can end
  (`Outcome`: it returns, it raises `VerificationError`, or a `KeyError`
  escapes) and the printed form of the error.
- `Vocabulary`, `TierAttributes` and `TierHierarchy` each hold one or two
  checks. Each check is a method, proved against a function on the tree.
- `Verification` holds `verify`: a loop over the checks, proved against
  `Collect`, a function that folds the checks' outcomes.
- `Scenarios` holds small documents and proves what `verify` makes of each.

On these points the model follows `validate.py` closely:

- The two vocabularies share two labels, "dlouhá pauza" and "klepání".
- An ANNOTATION_VALUE with no text yields no text node, so it is never
  reported.
- The two vocabularies are the only allow-lists, and they apply only to
  values under 'meta' and 'META' TIERs. Values in every other TIER are
  accepted whatever they are.
- In `tier_attribs`, a missing TIER_ID or PARENT_REF raises `KeyError`. It is
  not read as an empty string.

## Model

| member | source | states |
|---|---|---|
| Errors.RenderIsIndentedLines | validate.py:17-18 | the printed error puts every log entry on its own line, indented by two spaces; an empty log prints as the bare indentation |
| Errors.RenderExample | validate.py:17-18 | a log of "a" and "b" prints as "  a\n  b"; an empty log prints as two spaces |
| Errors.LinesAt | validate.py:17-18 | the i-th printed line is the text of the i-th log entry |
| Errors.Lines | validate.py:17-18 | a log prints as one line per entry |
| Errors.NotAllowedInjective | validate.py:76-78 | for a fixed tier type, two vocabulary messages print the same only when they name the same value |
| Errors.KindsPrintDifferently | validate.py:129-148 | the four kinds of message never print the same text: a vocabulary message differs from the three fixed messages, and those differ from each other (each is told apart by its length and its next-to-last character) |
| Errors.Conclude | validate.py:80-81 | a check passes exactly when its log is empty; otherwise it raises the log unchanged, and never a KeyError |
| XmlTree.TiersMember | validate.py:132 | `//TIER[test]` selects exactly the TIERs in the document that pass the test, the root included |
| XmlTree.BelowMember | validate.py:147 | `//TIER[test]//tag` selects exactly the elements named tag that lie strictly below a TIER passing the test |
| XmlTree.TextsMember | validate.py:76 | a text is among the texts of a list of elements exactly when one of them has that non-empty text |
| XmlTree.TierTextsMember | validate.py:76 | a value is among the annotation texts of a tier type exactly when some ANNOTATION_VALUE below a TIER of that type has it as its text |
| Vocabulary.VocabLogAppend | validate.py:76-78 | values are reported in document order: the log of a concatenation is the concatenation of the logs |
| Vocabulary.VocabLogSound | validate.py:76-78 | every reported entry names a value that was found and is outside the vocabulary |
| Vocabulary.VocabLogCounts | validate.py:76-78 | each occurrence of a value outside the vocabulary is reported exactly once; a value inside it is never reported |
| Vocabulary.VocabLogEmpty | validate.py:76-81 | nothing is reported exactly when every value found is in the vocabulary |
| Vocabulary.RespectedIffTextsAllowed | validate.py:76-77 | the selected texts are all allowed exactly when every annotation value under a TIER of that type is in the vocabulary |
| Vocabulary.CheckVocabulary | validate.py:76-81 | the loop raises exactly the log of rejected values, in order; it passes exactly when the document respects the vocabulary |
| Vocabulary.VocabMeta | validate.py:35-81 | `vocab_meta` passes exactly when every value under a 'meta' TIER is one of the 31 labels; otherwise it raises one message per rejected value |
| Vocabulary.VocabMETA | validate.py:83-120 | `vocab_META` passes exactly when every value under a 'META' TIER is one of the 22 labels; otherwise it raises one message per rejected value |
| Vocabulary.VocabularyOverlap | validate.py:41-112 | the two vocabularies share exactly "dlouhá pauza" and "klepání" |
| TierAttributes.Prefix | validate.py:133-134 | `s.split(" ")[0]` is a space-free start of s that ends at the end of s or before a space |
| TierAttributes.PrefixUnique | validate.py:133-134 | those properties determine the prefix: any string having them is the prefix |
| TierAttributes.PrefixOfNumbered | validate.py:133-134 | for an identifier of the form "n rest", the prefix is n |
| TierAttributes.PrefixExamples | validate.py:133-135 | "2 fon" and "2 ort" agree on the prefix; "1 fon" and "2 ort" do not; "fon" is its own prefix |
| TierAttributes.FirstMissingKey | validate.py:133-134 | no lookup fails exactly when every 'fonetický' TIER has both TIER_ID and PARENT_REF |
| TierAttributes.FirstMissingKeyPrefix | validate.py:132-134 | once a lookup has failed on some TIER, the later TIERs do not change which key escapes |
| TierAttributes.MismatchLog | validate.py:132-136 | the comparison adds only mismatch messages, at most one per TIER |
| TierAttributes.MismatchLogAppend | validate.py:132-136 | mismatches are reported TIER by TIER in document order: the log of a concatenation is the concatenation of the logs |
| TierAttributes.MismatchLogEmpty | validate.py:132-136 | no mismatch is reported exactly when every TIER that has PARENT_REF agrees with it on the prefix |
| TierAttributes.CompareTiers | validate.py:132-139 | the loop as written: the first TIER missing TIER_ID or PARENT_REF ends the check with that key's KeyError; otherwise one mismatch message is added per disagreeing TIER |
| TierAttributes.TierAttribs | validate.py:122-139 | `tier_attribs` as written: a KeyError escapes exactly when some 'fonetický' TIER lacks TIER_ID or PARENT_REF, and its log never holds the missing-PARENT_REF message |
| TierAttributes.MissingParentNeverReported | validate.py:129-134 | any 'fonetický' TIER without PARENT_REF makes the check end in a KeyError, so the message of line 130 never reaches the caller |
| TierAttributes.CompareTiersIntended | validate.py:132-136 | the loop as intended: one mismatch message per TIER that has PARENT_REF and whose prefixes differ, in order, and no KeyError |
| TierAttributes.TierAttribsIntended | validate.py:122-139 | `tier_attribs` as intended: never a KeyError; the missing-PARENT_REF message appears, at most once, exactly when some 'fonetický' TIER lacks PARENT_REF |
| TierAttributes.MissingParentReportedOnce | validate.py:129-130 | the intended log holds the missing-PARENT_REF message exactly when such a TIER exists, and holds it at most once |
| TierHierarchy.ForbiddenNestingsIff | validate.py:147 | the query finds something exactly when some ALIGNABLE_ANNOTATION lies below a TIER that has PARENT_REF |
| TierHierarchy.Hierarchy | validate.py:141-151 | `hierarchy` passes exactly when no such nesting exists; otherwise it raises a single message, however many nestings there are |
| Verification.RunCheck | validate.py:26-28 | one pass of the loop returns the outcome of the check it calls |
| Verification.Outcomes | validate.py:26-28 | running a list of checks gives one outcome per check |
| Verification.OutcomesAt | validate.py:26-28 | the i-th outcome is that of the i-th check |
| Verification.CollectNoEscape | validate.py:26-33 | without a KeyError, every check's log is kept, in check order, and raised only if the whole is non-empty |
| Verification.CollectFirstEscape | validate.py:26-30 | the first KeyError is what the run ends with; later checks do not matter |
| Verification.CollectEscapeSticks | validate.py:26-30 | once a KeyError has escaped, later outcomes do not change the result |
| Verification.CollectOfFour | validate.py:26-33 | over four checks, the first KeyError escapes; otherwise the four logs are concatenated in order |
| Verification.RunChecks | validate.py:24-33 | the loop of `verify` computes exactly `Collect` of the checks' outcomes |
| Verification.ChecksOutcomes | validate.py:26 | `verify` runs `vocab_meta`, `vocab_META`, `tier_attribs` and `hierarchy`, in that order |
| Verification.OnlyTierAttribsEscapes | validate.py:76-148 | only `tier_attribs` as written can raise a KeyError; the other checks, and the intended `tier_attribs`, cannot |
| Verification.Verify | validate.py:20-33 | `verify`: a KeyError from `tier_attribs` escapes as it is; otherwise the four logs are concatenated in check order and raised if non-empty |
| Verification.VerifyIntended | validate.py:20-33 | with the intended `tier_attribs`, `verify` never lets a KeyError escape and raises the concatenated logs |
| Verification.VerifyTwice | validate.py:20-33 | the checks only read the document: verifying it twice gives the same outcome |
| Scenarios.MetaDocumentVerify | validate.py:76-78 | a document with one 'meta' TIER passes exactly when its value is in the 'meta' vocabulary; otherwise one message names that value |
| Scenarios.NearMissOutsideMetaVocabulary | validate.py:41-73 | "škytavka" is not a 'meta' label |
| Scenarios.ScenarioKnownMetaValue | validate.py:76-78 | a 'meta' TIER holding "kašel" passes |
| Scenarios.ScenarioUnknownMetaValue | validate.py:76-78 | a 'meta' TIER holding "škytavka" gives exactly one message naming "škytavka" |
| Scenarios.ScenarioMissingParent | validate.py:129-134 | a 'fonetický' TIER with TIER_ID "1 fon" and no PARENT_REF makes `verify` end in KeyError('PARENT_REF'); as intended, it gives only the missing-PARENT_REF message |
| Scenarios.ScenarioPrefixMismatch | validate.py:133-136 | TIER_ID "1 fon" with PARENT_REF "2 ort" gives exactly one mismatch message |
| Scenarios.ScenarioPrefixMatch | validate.py:133-135 | TIER_ID "2 fon" with PARENT_REF "2 ort" passes |
| Scenarios.ScenarioAlignedInDependentTier | validate.py:147-148 | an ALIGNABLE_ANNOTATION in a TIER with PARENT_REF gives exactly the hierarchy message |
| Scenarios.TwoFaults | validate.py:26-33 | a rejected 'meta' value plus a forbidden nesting give two messages, the vocabulary one first |
| Scenarios.ScenarioTwoFaults | validate.py:26-33 | "škytavka" plus a forbidden nesting give exactly those two messages, in check order |

## Left out

- Parsing and XML-schema validation (lxml, validate.py:153-171) are not modelled. The model starts from the parsed tree. The driver loop, its messages and its closing banner (validate.py:157-189) are left out too, as is the unused `pdb` import. One consequence is not captured: the driver still runs `verify` on a document that failed schema validation.
- XPath is modelled only for the three query shapes the checks use. Only an element's own `.text` is its text node. Text that follows a child element (mixed content) is not modelled.
- Strings are sequences of characters. The ELAN attribute values and vocabulary labels are compared as such, with no Unicode normalisation.
- Vocabulary.VocabMeta: the number of labels (31 for 'meta', 22 for 'META') is not proved. The sets are written out label by label, as in the source.
- Errors.Lines: its contract states only the number of lines. The content of each line is stated by `Errors.LinesAt`.
- Errors.NotAllowedInjective: injective only with the tier type fixed. Across tier types, two vocabulary messages can print alike, because a tier type could itself contain the text between value and type.
- Scenarios.ScenarioUnknownMetaValue: states the log as `Message` values. The printed wording follows from `Errors.Text`; no lemma spells out the literal string.

## Findings

| source | as written | input that shows it | evidently intended | confidence | as-written member | corrected member |
|---|---|---|---|---|---|---|
| validate.py:129-134 | a 'fonetický' TIER without PARENT_REF adds the message of line 130. The loop of line 132 then reads `attrib["PARENT_REF"]` on that same TIER, so a KeyError ends `tier_attribs` and `verify`, and the message is lost | one TIER with LINGUISTIC_TYPE_REF="fonetický", TIER_ID="1 fon" and no PARENT_REF | report the missing PARENT_REF once, and compare prefixes only on TIERs that have PARENT_REF | high; not executed | TierAttributes.MissingParentNeverReported | TierAttributes.TierAttribsIntended |
