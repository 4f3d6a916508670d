/**
 The two controlled-vocabulary checks, `vocab_meta` and `vocab_META`: every
 annotation value below a TIER of type 'meta' (respectively 'META') must be
 one of a fixed set of labels; each value outside the set is reported once, in
 document order.
 */
module Vocabulary {
  import opened XmlTree
  import opened Errors

  const MetaType := "meta"
  const METAType := "META"

  /** Labels allowed in a 'meta' tier: non-speech sounds and reactions of a speaker. */
  const MetaVocab: set<string> := {
    "citoslovce",
    "citoslovce odporu",
    "citoslovce opovržení",
    "citoslovce údivu",
    "citoslovce úleku",
    "dlouhá pauza",
    "hvízdání",
    "kašel",
    "klepání",
    "kýchání",
    "lusknutí prsty",
    "líbání",
    "mlasknutí",
    "mluví ke zvířeti",
    "nadechnutí",
    "odkašlání",
    "plácnutí",
    "pláč",
    "polknutí",
    "pousmání",
    "povzdech",
    "pískání",
    "říhnutí",
    "smrkání",
    "smích",
    "srkání",
    "škytání",
    "tleskání",
    "vydechnutí",
    "zakoktání",
    "zívání"
  }

  /** Labels allowed in a 'META' tier: background and ambient noise. */
  const METAVocab: set<string> := {
    "cinkání nádobí",
    "dlouhá pauza",
    "domácí spotřebič",
    "hlasitý hovor v pozadí",
    "hluk v pozadí",
    "hra na hudební nástroj",
    "jiné zvíře",
    "klepání",
    "kroky",
    "mňoukání kočky",
    "nesrozumitelný hovor více mluvčích najednou",
    "nábytek",
    "pláč dítěte",
    "počítač a příslušenství",
    "ruch z ulice",
    "rušivý zvuk",
    "smích více mluvčích najednou",
    "štěkání psa",
    "zvonění telefonu",
    "zvuk z rádia",
    "zvuk z televize",
    "zvuky při jídle"
  }

  /** The errors one vocabulary check collects from the values it is given,
      in the order given. */
  function VocabLog(values: seq<string>, vocab: set<string>, typ: string): seq<Message>
  {
    if values == [] then []
    else
      var last := values[|values| - 1];
      VocabLog(values[..|values| - 1], vocab, typ) + (if last in vocab then [] else [NotAllowed(last, typ)])
  }

  /** Reports keep document order: the log of a concatenation is the
      concatenation of the logs. */
  lemma {:induction false} VocabLogAppend(a: seq<string>, b: seq<string>, vocab: set<string>, typ: string)
    ensures VocabLog(a + b, vocab, typ) == VocabLog(a, vocab, typ) + VocabLog(b, vocab, typ)
    decreases |b|
  {
    if b == [] {
      assert a + b == a;
    } else {
      var b0 := b[..|b| - 1];
      assert (a + b)[..|a + b| - 1] == a + b0;
      assert (a + b)[|a + b| - 1] == b[|b| - 1];
      VocabLogAppend(a, b0, vocab, typ);
    }
  }

  /** Every reported entry names a value that was found and is not allowed. */
  lemma {:induction false} VocabLogSound(values: seq<string>, vocab: set<string>, typ: string, m: Message)
    requires m in VocabLog(values, vocab, typ)
    ensures exists v :: v in values && v !in vocab && m == NotAllowed(v, typ)
  {
    var init := values[..|values| - 1];
    var last := values[|values| - 1];
    if m in VocabLog(init, vocab, typ) {
      VocabLogSound(init, vocab, typ, m);
      var v :| v in init && v !in vocab && m == NotAllowed(v, typ);
      assert v in values;
    } else {
      assert last in values;
    }
  }

  /** Each occurrence of a value outside the vocabulary is reported exactly
      once, and a value inside it never. */
  lemma {:induction false} VocabLogCounts(values: seq<string>, vocab: set<string>, typ: string, v: string)
    ensures multiset(VocabLog(values, vocab, typ))[NotAllowed(v, typ)] ==
              if v in vocab then 0 else multiset(values)[v]
  {
    if values != [] {
      var init := values[..|values| - 1];
      var last := values[|values| - 1];
      assert values == init + [last];
      VocabLogCounts(init, vocab, typ, v);
    }
  }

  /** The log is empty exactly when every value is in the vocabulary. */
  lemma {:induction false} VocabLogEmpty(values: seq<string>, vocab: set<string>, typ: string)
    ensures VocabLog(values, vocab, typ) == [] <==> forall v :: v in values ==> v in vocab
  {
    if values != [] {
      var init := values[..|values| - 1];
      assert values == init + [values[|values| - 1]];
      VocabLogEmpty(init, vocab, typ);
    }
  }

  /** Every annotation value below a TIER of type typ is in the vocabulary. */
  ghost predicate VocabularyRespected(root: Element, typ: string, vocab: set<string>)
  {
    forall x :: UnderTier(root, TypeIs(typ), x) && x.tag == AnnotationValueTag && x.text.Some? && x.text.value != "" ==>
      x.text.value in vocab
  }

  /** The loop shared by `vocab_meta` and `vocab_META`. */
  method CheckVocabulary(root: Element, typ: string, vocab: set<string>) returns (o: Outcome)
    ensures o == Conclude(VocabLog(TierTexts(root, typ), vocab, typ))
    ensures o.Passed? <==> VocabularyRespected(root, typ, vocab)
  {
    var values := TierTexts(root, typ);
    var errors := [];
    for i := 0 to |values|
      invariant errors == VocabLog(values[..i], vocab, typ)
    {
      assert values[..i + 1][..i] == values[..i];
      if values[i] !in vocab {
        errors := errors + [NotAllowed(values[i], typ)];
      }
    }
    assert values[..|values|] == values;
    o := Conclude(errors);
    VocabLogEmpty(values, vocab, typ);
    RespectedIffTextsAllowed(root, typ, vocab);
  }

  lemma RespectedIffTextsAllowed(root: Element, typ: string, vocab: set<string>)
    ensures VocabularyRespected(root, typ, vocab) <==> forall v :: v in TierTexts(root, typ) ==> v in vocab
  {
    forall v | v in TierTexts(root, typ) && VocabularyRespected(root, typ, vocab)
      ensures v in vocab
    {
      TierTextsMember(root, typ, v);
    }
    if forall v :: v in TierTexts(root, typ) ==> v in vocab {
      forall x | UnderTier(root, TypeIs(typ), x) && x.tag == AnnotationValueTag && x.text.Some? && x.text.value != ""
        ensures x.text.value in vocab
      {
        TierTextsMember(root, typ, x.text.value);
      }
    }
  }

  /** `vocab_meta`. */
  method VocabMeta(root: Element) returns (o: Outcome)
    ensures o == Conclude(VocabLog(TierTexts(root, MetaType), MetaVocab, MetaType))
    ensures o.Passed? <==> VocabularyRespected(root, MetaType, MetaVocab)
  {
    o := CheckVocabulary(root, MetaType, MetaVocab);
  }

  /** `vocab_META`. */
  method VocabMETA(root: Element) returns (o: Outcome)
    ensures o == Conclude(VocabLog(TierTexts(root, METAType), METAVocab, METAType))
    ensures o.Passed? <==> VocabularyRespected(root, METAType, METAVocab)
  {
    o := CheckVocabulary(root, METAType, METAVocab);
  }

  /** The two vocabularies share exactly two labels. */
  lemma VocabularyOverlap()
    ensures MetaVocab * METAVocab == {"dlouhá pauza", "klepání"}
  {
  }
}
