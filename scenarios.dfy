/** Concrete runs of the aggregation over a three-word lexicon (repeated
    tokens, tokens the lexicon does not know, an empty token list) and of the
    lexicon resolution. */
module Scenarios {
  import opened Seqs
  import opened Dicts
  import opened Affect
  import opened Core

  const Small: Lexicon :=
    map["happy" := ["positive", "joy"],
        "sad" := ["negative", "sadness"],
        "wow" := ["surprise", "anticipation"]]

  /** "happy happy sad": the labels of each matched token, token by token. */
  lemma RepeatedTokensAffect()
    ensures AffectOf(["happy", "happy", "sad"], Small)
         == ["positive", "joy"] + ["positive", "joy"] + ["negative", "sadness"]
  {
    assert [] + ["happy"] == ["happy"];
    assert ["happy"] + ["happy"] == ["happy", "happy"];
    assert ["happy", "happy"] + ["sad"] == ["happy", "happy", "sad"];
    assert AffectOf([], Small) == [];
    AffectOfSnoc([], Small, "happy");
    AffectOfSnoc(["happy"], Small, "happy");
    AffectOfSnoc(["happy", "happy"], Small, "sad");
  }

  /** Two copies of `[x, y]` then `[u, v]`, four distinct labels: x and y
      occur twice, u and v once, and nothing else occurs. */
  lemma TwiceThenOnceCounts(x: string, y: string, u: string, v: string)
    requires x != y && x != u && x != v && y != u && y != v && u != v
    ensures var a := [x, y] + [x, y] + [u, v];
      && Count(a, x) == 2 && Count(a, y) == 2 && Count(a, u) == 1 && Count(a, v) == 1
      && forall e :: e in a ==> e == x || e == y || e == u || e == v
  {
    TwiceThenOnce([x, y], [u, v], x);
    TwiceThenOnce([x, y], [u, v], y);
    TwiceThenOnce([x, y], [u, v], u);
    TwiceThenOnce([x, y], [u, v], v);
    PairCount(x, y, x);
    PairCount(x, y, y);
    PairCount(x, y, u);
    PairCount(x, y, v);
    PairCount(u, v, x);
    PairCount(u, v, y);
    PairCount(u, v, u);
    PairCount(u, v, v);
  }

  lemma PairCount(x: string, y: string, e: string)
    ensures Count([x, y], e) == (if x == e then 1 else 0) + (if y == e then 1 else 0)
  {
    assert [x, y] == [x] + [y];
    CountAppend([x], [y], e);
  }

  /** Occurrences of a label in two copies of `p` followed by `n`. */
  lemma TwiceThenOnce(p: seq<string>, n: seq<string>, e: string)
    ensures Count(p + p + n, e) == 2 * Count(p, e) + Count(n, e)
  {
    CountAppend(p + p, n, e);
    CountAppend(p, p, e);
  }

  /** The labels of "happy happy sad": positive and joy twice, negative and
      sadness once, nothing else. */
  lemma RepeatedTokensCounts()
    ensures var a := AffectOf(["happy", "happy", "sad"], Small);
      && Count(a, "positive") == 2 && Count(a, "joy") == 2
      && Count(a, "negative") == 1 && Count(a, "sadness") == 1
      && |a| == 6
      && forall e :: e in a ==> e in {"positive", "joy", "negative", "sadness"}
  {
    RepeatedTokensAffect();
    LabelsDistinct();
    TwiceThenOnceCounts("positive", "joy", "negative", "sadness");
  }

  lemma LabelsDistinct()
    ensures "positive" != "joy" && "positive" != "negative" && "positive" != "sadness"
    ensures "joy" != "negative" && "joy" != "sadness" && "negative" != "sadness"
  {
    assert "positive"[0] == 'p' && "joy"[0] == 'j' && "negative"[0] == 'n' && "sadness"[0] == 's';
  }

  /** The counter of "happy happy sad" is positive 2, joy 2, negative 1,
      sadness 1, and nothing else. */
  lemma RepeatedTokensScores()
    ensures RawScores(AffectOf(["happy", "happy", "sad"], Small)).entries
         == map["positive" := 2, "joy" := 2, "negative" := 1, "sadness" := 1]
  {
    RepeatedTokensCounts();
    ScoresOfCounts(AffectOf(["happy", "happy", "sad"], Small));
  }

  lemma ScoresOfCounts(a: seq<string>)
    requires Count(a, "positive") == 2 && Count(a, "joy") == 2
    requires Count(a, "negative") == 1 && Count(a, "sadness") == 1
    requires forall e :: e in a ==> e in {"positive", "joy", "negative", "sadness"}
    ensures RawScores(a).entries == map["positive" := 2, "joy" := 2, "negative" := 1, "sadness" := 1]
  {
    RawScoresSpec(a);
    forall e | e !in {"positive", "joy", "negative", "sadness"} ensures Count(a, e) == 0 {
      assert e !in a;
    }
  }

  /** Six labels in all: positive has frequency 2/6 and sadness 1/6. */
  lemma RepeatedTokensFrequencies()
    ensures "positive" in Frequencies(AffectOf(["happy", "happy", "sad"], Small)).entries
         && Frequencies(AffectOf(["happy", "happy", "sad"], Small)).entries["positive"] == 2.0 / 6.0
    ensures "sadness" in Frequencies(AffectOf(["happy", "happy", "sad"], Small)).entries
         && Frequencies(AffectOf(["happy", "happy", "sad"], Small)).entries["sadness"] == 1.0 / 6.0
  {
    RepeatedTokensCounts();
    FrequenciesOfCounts(AffectOf(["happy", "happy", "sad"], Small));
  }

  lemma FrequenciesOfCounts(a: seq<string>)
    requires |a| == 6 && Count(a, "positive") == 2 && Count(a, "sadness") == 1
    ensures "positive" in Frequencies(a).entries
         && Frequencies(a).entries["positive"] == 2.0 / 6.0
    ensures "sadness" in Frequencies(a).entries
         && Frequencies(a).entries["sadness"] == 1.0 / 6.0
  {
    FrequenciesKeys(a);
    FrequenciesValues(a);
    assert "positive" in EmotionOrder && "sadness" in EmotionOrder;
  }

  /** Tokens the lexicon does not know: no scores, all ten emotions at 0,
      and all ten tie for the top. */
  lemma UnknownTokens()
    ensures RawScores(AffectOf(["unknown", "tokens"], Small)).entries == map[]
    ensures forall e :: e in Frequencies(AffectOf(["unknown", "tokens"], Small)).entries ==>
              Frequencies(AffectOf(["unknown", "tokens"], Small)).entries[e] == 0.0
    ensures |TopEmotions(Frequencies(AffectOf(["unknown", "tokens"], Small)))| == 10
  {
    NoMatchProfile(["unknown", "tokens"], Small);
    ZeroFrequenciesTop();
  }

  /** An empty token list: empty affect_list, affect_dict and counter. */
  lemma EmptyTokens()
    ensures AffectOf([], Small) == []
    ensures AffectDictOf([], Small).entries == map[]
    ensures RawScores(AffectOf([], Small)).entries == map[]
    ensures forall e :: e in Frequencies(AffectOf([], Small)).entries ==>
              Frequencies(AffectOf([], Small)).entries[e] == 0.0
  {
    NoMatchProfile([], Small);
  }

  /** The constructor's lexicon cases: an explicit `None`, no argument (the
      default name, with no such file in the working directory), a relative
      path that does not exist, and an absolute path that does not exist. */
  lemma ResolutionCases(resolved: string)
    ensures ResolveLexicon(NoFile) == Bundled
    ensures ResolveLexicon(File(DefaultLexiconFilename, false, false, resolved)) == Bundled
    ensures ResolveLexicon(File("does_not_exist.json", false, false, resolved)) == Bundled
    ensures ResolveLexicon(File("/tmp/definitely_missing_nrclex_lexicon.json", false, true, resolved))
         == NotFound("/tmp/definitely_missing_nrclex_lexicon.json")
  {
    assert "/tmp/definitely_missing_nrclex_lexicon.json"[0] != DefaultLexiconFilename[0];
  }
}
