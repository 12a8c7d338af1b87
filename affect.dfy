/** The affect aggregation of NRCLex (`NRCLex._build_word_affect` and
    `NRCLex._compute_top_emotions`) as specification functions, one per result
    field, and the lemmas that say what each field means. */
module Affect {
  import opened Seqs
  import opened Dicts

  /** A loaded lexicon: word -> its emotion labels, in lexicon order. */
  type Lexicon = map<string, seq<string>>

  /** The ten emotion labels every frequency profile reports, in this order. */
  const EmotionOrder: seq<string> :=
    ["fear", "anger", "anticipation", "trust", "surprise",
     "positive", "negative", "sadness", "disgust", "joy"]

  lemma EmotionOrderDistinct()
    ensures |EmotionOrder| == 10 && NoDups(EmotionOrder)
  {
  }

  // ---------------------------------------------------------------------
  // matched_words, affect_list, affect_dict

  /** `[word for word in words if word in lexicon]`. */
  function Matched(words: seq<string>, lexicon: Lexicon): seq<string>
  {
    if words == [] then []
    else Matched(Init(words), lexicon) + (if Last(words) in lexicon then [Last(words)] else [])
  }

  /** A word is matched exactly when it is one of the tokens and a lexicon
      entry. */
  lemma {:induction false} MatchedSpec(words: seq<string>, lexicon: Lexicon)
    ensures forall w :: w in Matched(words, lexicon) <==> w in words && w in lexicon
  {
    if words != [] {
      InitLast(words);
      MatchedSpec(Init(words), lexicon);
    }
  }

  /** The matched words keep every occurrence of a lexicon word and drop
      every other token. */
  lemma {:induction false} MatchedCount(words: seq<string>, lexicon: Lexicon, w: string)
    ensures Count(Matched(words, lexicon), w) == if w in lexicon then Count(words, w) else 0
  {
    if words != [] {
      InitLast(words);
      MatchedCount(Init(words), lexicon, w);
    }
  }

  /** The matched words are the tokens in their original order. */
  lemma {:induction false} MatchedIsSubsequence(words: seq<string>, lexicon: Lexicon)
    ensures IsSubsequence(Matched(words, lexicon), words)
  {
    if words != [] {
      var m := Matched(Init(words), lexicon);
      MatchedIsSubsequence(Init(words), lexicon);
      if Last(words) in lexicon {
        assert Init(m + [Last(words)]) == m;
      } else {
        assert Matched(words, lexicon) == m + [] == m;
      }
    }
  }

  /** Filtering two token lists one after the other is filtering their
      concatenation. */
  lemma {:induction false} MatchedAppend(a: seq<string>, b: seq<string>, lexicon: Lexicon)
    ensures Matched(a + b, lexicon) == Matched(a, lexicon) + Matched(b, lexicon)
    decreases |b|
  {
    if b == [] {
      assert a + b == a;
    } else {
      assert Init(a + b) == a + Init(b);
      assert Last(a + b) == Last(b);
      MatchedAppend(a, Init(b), lexicon);
    }
  }

  /** `list(chain.from_iterable(lexicon[word] for word in matched))`. */
  function AffectList(matched: seq<string>, lexicon: Lexicon): seq<string>
    requires forall w :: w in matched ==> w in lexicon
  {
    if matched == [] then []
    else AffectList(Init(matched), lexicon) + lexicon[Last(matched)]
  }

  /** The affect_list produced for a token list. */
  function AffectOf(words: seq<string>, lexicon: Lexicon): seq<string>
  {
    MatchedSpec(words, lexicon);
    AffectList(Matched(words, lexicon), lexicon)
  }

  /** Sum of the label counts of the given words. */
  function LabelTotal(matched: seq<string>, lexicon: Lexicon): nat
    requires forall w :: w in matched ==> w in lexicon
  {
    if matched == [] then 0 else LabelTotal(Init(matched), lexicon) + |lexicon[Last(matched)]|
  }

  /** One entry per (matched word, label) pair. */
  lemma {:induction false} AffectListLength(matched: seq<string>, lexicon: Lexicon)
    requires forall w :: w in matched ==> w in lexicon
    ensures |AffectList(matched, lexicon)| == LabelTotal(matched, lexicon)
  {
    if matched != [] {
      AffectListLength(Init(matched), lexicon);
    }
  }

  /** Every entry of affect_list is a label of some matched word, and every
      label of every matched word is in it. */
  lemma {:induction false} AffectListLabels(matched: seq<string>, lexicon: Lexicon, x: string)
    requires forall w :: w in matched ==> w in lexicon
    ensures x in AffectList(matched, lexicon) <==> exists w :: w in matched && x in lexicon[w]
  {
    if matched != [] {
      InitLast(matched);
      AffectListLabels(Init(matched), lexicon, x);
      if x in lexicon[Last(matched)] {
        assert Last(matched) in matched;
      }
    }
  }

  /** Appending one more occurrence of a matched word adds its labels to the
      end of affect_list. */
  lemma AffectOfSnoc(words: seq<string>, lexicon: Lexicon, w: string)
    requires w in lexicon
    ensures AffectOf(words + [w], lexicon) == AffectOf(words, lexicon) + lexicon[w]
  {
    assert Init(words + [w]) == words;
  }

  /** One more occurrence of a matched word adds its labels' counts. */
  lemma CountAffectSnoc(words: seq<string>, lexicon: Lexicon, w: string, e: string)
    requires w in lexicon
    ensures Count(AffectOf(words + [w], lexicon), e)
         == Count(AffectOf(words, lexicon), e) + Count(lexicon[w], e)
  {
    AffectOfSnoc(words, lexicon, w);
    CountAppend(AffectOf(words, lexicon), lexicon[w], e);
  }

  /** Repeating a matched token n times adds n times its contribution to the
      count of every label. */
  lemma {:induction false} RepeatScales(words: seq<string>, lexicon: Lexicon, w: string, n: nat, e: string)
    requires w in lexicon
    ensures Count(AffectOf(words + Repeat(w, n), lexicon), e)
         == Count(AffectOf(words, lexicon), e) + n * Count(lexicon[w], e)
  {
    if n == 0 {
      assert words + Repeat(w, 0) == words;
    } else {
      RepeatScales(words, lexicon, w, n - 1, e);
      CountAffectRepeat(words, lexicon, w, n, e);
      MulStep(Count(AffectOf(words + Repeat(w, n), lexicon), e),
              Count(AffectOf(words + Repeat(w, n - 1), lexicon), e),
              Count(AffectOf(words, lexicon), e), n, Count(lexicon[w], e));
    }
  }

  lemma CountAffectRepeat(words: seq<string>, lexicon: Lexicon, w: string, n: nat, e: string)
    requires w in lexicon && n > 0
    ensures Count(AffectOf(words + Repeat(w, n), lexicon), e)
         == Count(AffectOf(words + Repeat(w, n - 1), lexicon), e) + Count(lexicon[w], e)
  {
    assert words + Repeat(w, n) == (words + Repeat(w, n - 1)) + [w];
    CountAffectSnoc(words + Repeat(w, n - 1), lexicon, w, e);
  }

  lemma MulStep(next: int, prev: int, base: int, n: nat, c: int)
    requires n > 0 && next == prev + c && prev == base + (n - 1) * c
    ensures next == base + n * c
  {
  }

  /** `{word: lexicon[word] for word in matched}`. */
  function AffectDict(matched: seq<string>, lexicon: Lexicon): Dict<seq<string>>
    requires forall w :: w in matched ==> w in lexicon
  {
    Dict(Unique(matched), map w | w in matched :: lexicon[w])
  }

  /** The affect_dict produced for a token list. */
  function AffectDictOf(words: seq<string>, lexicon: Lexicon): Dict<seq<string>>
  {
    MatchedSpec(words, lexicon);
    AffectDict(Matched(words, lexicon), lexicon)
  }

  /** affect_dict has exactly the matched tokens as keys, each mapped to its
      lexicon labels. */
  lemma AffectDictSpec(words: seq<string>, lexicon: Lexicon)
    ensures Valid(AffectDictOf(words, lexicon))
    ensures forall w :: w in AffectDictOf(words, lexicon).entries <==> w in words && w in lexicon
    ensures forall w :: w in AffectDictOf(words, lexicon).entries ==> AffectDictOf(words, lexicon).entries[w] == lexicon[w]
  {
    MatchedSpec(words, lexicon);
    UniqueSpec(Matched(words, lexicon));
  }

  // ---------------------------------------------------------------------
  // raw_emotion_scores and total

  /** `dict(Counter(affect))`: keys in first-occurrence order. */
  function RawScores(affect: seq<string>): Dict<nat>
  {
    Dict(Unique(affect), map e | e in Unique(affect) :: Count(affect, e))
  }

  /** raw_emotion_scores is a well-formed dict. */
  lemma RawScoresValid(affect: seq<string>)
    ensures Valid(RawScores(affect))
  {
    UniqueSpec(affect);
  }

  /** raw_emotion_scores holds the count of every label, and only labels that
      occur are keys. */
  lemma RawScoresSpec(affect: seq<string>)
    ensures forall e :: e in RawScores(affect).entries <==> Count(affect, e) > 0
    ensures forall e :: e in RawScores(affect).entries ==> RawScores(affect).entries[e] == Count(affect, e)
  {
    UniqueSpec(affect);
  }

  /** `sum(counter.values())`. */
  function Total(c: Dict<nat>): nat
    requires forall k :: k in c.keys ==> k in c.entries
  {
    SumNat(c.keys, c.entries)
  }

  /** Sum over the listed keys of the number of times each occurs in s. */
  function SumCounts(keys: seq<string>, s: seq<string>): nat
  {
    if keys == [] then 0 else SumCounts(Init(keys), s) + Count(s, Last(keys))
  }

  lemma {:induction false} SumNatIsSumCounts(keys: seq<string>, m: map<string, nat>, s: seq<string>)
    requires forall k :: k in keys ==> k in m && m[k] == Count(s, k)
    ensures SumNat(keys, m) == SumCounts(keys, s)
  {
    if keys != [] {
      InitLast(keys);
      SumNatIsSumCounts(Init(keys), m, s);
    }
  }

  lemma {:induction false} SumCountsSnoc(keys: seq<string>, s: seq<string>, x: string)
    ensures SumCounts(keys, s + [x]) == SumCounts(keys, s) + Count(keys, x)
  {
    if keys != [] {
      InitLast(keys);
      SumCountsSnoc(Init(keys), s, x);
    }
  }

  /** Summing the counts over duplicate-free keys that cover s counts every
      element of s once. */
  lemma {:induction false} SumCountsCover(keys: seq<string>, s: seq<string>)
    requires NoDups(keys)
    requires forall x :: x in s ==> x in keys
    ensures SumCounts(keys, s) == |s|
  {
    if s == [] {
      SumCountsEmpty(keys);
    } else {
      InitLast(s);
      SumCountsCover(keys, Init(s));
      SumCountsSnoc(keys, Init(s), Last(s));
      CountNoDups(keys, Last(s));
    }
  }

  lemma {:induction false} SumCountsEmpty(keys: seq<string>)
    ensures SumCounts(keys, []) == 0
  {
    if keys != [] {
      SumCountsEmpty(Init(keys));
    }
  }

  /** The total the aggregation divides by is the length of affect_list. */
  lemma TotalIsLength(affect: seq<string>)
    ensures Total(RawScores(affect)) == |affect|
  {
    UniqueSpec(affect);
    var c := RawScores(affect);
    SumNatIsSumCounts(c.keys, c.entries, affect);
    SumCountsCover(c.keys, affect);
  }

  // ---------------------------------------------------------------------
  // affect_frequencies

  /** `{emotion: 0.0 for emotion in EMOTION_ORDER}`. */
  function ZeroFrequencies(): Dict<real>
  {
    Dict(EmotionOrder, map e | e in EmotionOrder :: 0.0)
  }

  /** The dict the frequency loop leaves behind, in closed form: the ten
      emotions first, then every other counted label in counter order; a
      counted label maps to count / total, every other key to 0. */
  function Percentages(c: Dict<nat>, total: nat): (r: Dict<real>)
    requires forall k :: k in c.keys ==> k in c.entries
    ensures EmotionOrder <= r.keys && forall k :: k in r.keys ==> k in r.entries
  {
    if total == 0 then ZeroFrequencies()
    else
      OutsideSpec(c.keys, EmotionOrder);
      Dict(EmotionOrder + Outside(c.keys, EmotionOrder),
           map e | e in (set x | x in EmotionOrder) + c.entries.Keys ::
             if e in c.entries then c.entries[e] as real / total as real else 0.0)
  }

  /** affect_frequencies for a given affect_list. */
  function Frequencies(affect: seq<string>): (r: Dict<real>)
    ensures |r.keys| >= 10 && forall k :: k in r.keys ==> k in r.entries
  {
    var c := RawScores(affect);
    Percentages(c, Total(c))
  }

  /** The frequency of one label: its share of affect_list, 0 when it is
      empty. */
  function FreqOf(affect: seq<string>, e: string): real
  {
    if |affect| == 0 then 0.0 else Count(affect, e) as real / |affect| as real
  }

  /** The keys of affect_frequencies: the ten emotions in EmotionOrder, then
      every other label of affect_list in first-occurrence order, each once;
      a label is a key exactly when it is an emotion or occurs in
      affect_list. */
  lemma FrequenciesKeys(affect: seq<string>)
    ensures Valid(Frequencies(affect))
    ensures Frequencies(affect).keys == EmotionOrder + Outside(Unique(affect), EmotionOrder)
    ensures forall e :: e in Frequencies(affect).entries <==> e in EmotionOrder || e in affect
  {
    UniqueSpec(affect);
    OutsideSpec(Unique(affect), EmotionOrder);
    TotalIsLength(affect);
    EmotionOrderDistinct();
    if |affect| == 0 {
      assert affect == [];
      OutsideAllExcluded(Unique(affect), EmotionOrder);
      assert EmotionOrder + [] == EmotionOrder;
    } else {
      NoDupsAppend(EmotionOrder, Outside(Unique(affect), EmotionOrder));
    }
  }

  /** Every key of affect_frequencies maps to its share of affect_list, a
      value in [0, 1]. */
  lemma FrequenciesValues(affect: seq<string>)
    ensures forall e :: e in Frequencies(affect).entries ==>
              Frequencies(affect).entries[e] == FreqOf(affect, e)
              && 0.0 <= Frequencies(affect).entries[e] <= 1.0
  {
    var c := RawScores(affect);
    var f := Frequencies(affect);
    TotalIsLength(affect);
    if |affect| == 0 {
      assert f == ZeroFrequencies();
    } else {
      RawScoresSpec(affect);
      assert f == Percentages(c, |affect|);
      forall e | e in f.entries
        ensures f.entries[e] == FreqOf(affect, e) && 0.0 <= f.entries[e] <= 1.0
      {
        PercentageEntry(c, affect, e);
      }
    }
  }

  /** One entry of the percentages of a counter of `s`: the share of its
      label in `s`, between 0 and 1. */
  lemma PercentageEntry(c: Dict<nat>, s: seq<string>, e: string)
    requires |s| > 0
    requires forall k :: k in c.keys ==> k in c.entries
    requires forall k :: k in c.entries <==> Count(s, k) > 0
    requires forall k :: k in c.entries ==> c.entries[k] == Count(s, k)
    requires e in Percentages(c, |s|).entries
    ensures Percentages(c, |s|).entries[e] == FreqOf(s, e)
    ensures 0.0 <= Percentages(c, |s|).entries[e] <= 1.0
  {
    CountBound(s, e);
    ShareBound(Count(s, e), |s|);
    if e !in c.entries {
      assert FreqOf(s, e) == 0.0 / |s| as real == 0.0;
    }
  }

  lemma ShareBound(k: nat, n: nat)
    requires 0 < n && k <= n
    ensures 0.0 <= k as real / n as real <= 1.0
  {
  }

  lemma {:induction false} SumRealOfShares(keys: seq<string>, m: map<string, real>, s: seq<string>)
    requires |s| > 0
    requires forall k :: k in keys ==> k in m && m[k] == Count(s, k) as real / |s| as real
    ensures SumReal(keys, m) == SumCounts(keys, s) as real / |s| as real
  {
    if keys != [] {
      InitLast(keys);
      SumRealOfShares(Init(keys), m, s);
      DivAdd(SumCounts(Init(keys), s) as real, Count(s, Last(keys)) as real, |s| as real);
    }
  }

  lemma DivAdd(a: real, b: real, n: real)
    requires n > 0.0
    ensures a / n + b / n == (a + b) / n
  {
  }

  /** With at least one match the frequencies sum to 1. */
  lemma FrequenciesSumToOne(affect: seq<string>)
    requires |affect| > 0
    ensures SumReal(Frequencies(affect).keys, Frequencies(affect).entries) == 1.0
  {
    var f := Frequencies(affect);
    FrequenciesKeys(affect);
    FrequenciesValues(affect);
    SumRealOfShares(f.keys, f.entries, affect);
    SumCountsCover(f.keys, affect);
    SelfShare(|affect|);
  }

  lemma SelfShare(n: nat)
    requires n > 0
    ensures n as real / n as real == 1.0
  {
  }

  /** When every label is one of the ten emotions, the frequencies have
      exactly the ten emotions as keys, in EmotionOrder. */
  lemma FrequenciesKnownLabels(affect: seq<string>)
    requires forall x :: x in affect ==> x in EmotionOrder
    ensures Frequencies(affect).keys == EmotionOrder
    ensures |Frequencies(affect).entries| == 10
  {
    FrequenciesKeys(affect);
    UniqueSpec(affect);
    OutsideAllExcluded(Unique(affect), EmotionOrder);
    assert EmotionOrder + [] == EmotionOrder;
    TenEntries(Frequencies(affect).entries);
  }

  /** A map whose keys are exactly the ten emotions has ten entries. */
  lemma TenEntries(m: map<string, real>)
    requires forall e :: e in m <==> e in EmotionOrder
    ensures |m| == 10
  {
    assert m.Keys == set e | e in EmotionOrder;
    EmotionOrderDistinct();
    DistinctSetSize(EmotionOrder);
  }

  lemma {:induction false} DistinctSetSize(s: seq<string>)
    requires NoDups(s)
    ensures |set e | e in s| == |s|
  {
    if s != [] {
      InitLast(s);
      DistinctSetSize(Init(s));
      assert (set e | e in s) == (set e | e in Init(s)) + {Last(s)};
    }
  }

  /** A label outside the ten emotions still becomes a key: the loop writes
      every counted label. */
  lemma {:induction false} UnknownLabelKept(affect: seq<string>, x: string)
    requires x in affect && x !in EmotionOrder
    ensures x in Frequencies(affect).entries
    ensures |Frequencies(affect).keys| > 10
  {
    FrequenciesKeys(affect);
    UniqueSpec(affect);
    OutsideSpec(Unique(affect), EmotionOrder);
    assert x in Outside(Unique(affect), EmotionOrder);
  }

  // ---------------------------------------------------------------------
  // top_emotions

  /** `max(values)` over the listed keys. */
  function MaxValue(keys: seq<string>, m: map<string, real>): (r: real)
    requires |keys| > 0 && forall k :: k in keys ==> k in m
    ensures forall k :: k in keys ==> m[k] <= r
    ensures exists k :: k in keys && m[k] == r
  {
    if |keys| == 1 then m[keys[0]]
    else
      var p := MaxValue(Init(keys), m);
      InitLast(keys);
      if m[Last(keys)] > p then m[Last(keys)] else p
  }

  /** `[(k, v) for k, v in items if v == top]`. */
  function TopPairs(keys: seq<string>, m: map<string, real>, top: real): seq<(string, real)>
    requires forall k :: k in keys ==> k in m
  {
    if keys == [] then []
    else
      TopPairs(Init(keys), m, top)
      + (if m[Last(keys)] == top then [(Last(keys), m[Last(keys)])] else [])
  }

  /** top_emotions of a frequency dict. */
  function TopEmotions(d: Dict<real>): seq<(string, real)>
    requires |d.keys| > 0 && forall k :: k in d.keys ==> k in d.entries
  {
    TopPairs(d.keys, d.entries, MaxValue(d.keys, d.entries))
  }

  lemma {:induction false} TopPairsMembers(keys: seq<string>, m: map<string, real>, top: real, p: (string, real))
    requires forall k :: k in keys ==> k in m
    ensures p in TopPairs(keys, m, top) <==> p.0 in keys && p.1 == m[p.0] && p.1 == top
  {
    if keys != [] {
      InitLast(keys);
      TopPairsMembers(Init(keys), m, top, p);
    }
  }

  lemma {:induction false} TopPairsSubsequence(keys: seq<string>, m: map<string, real>, top: real)
    requires forall k :: k in keys ==> k in m
    ensures IsSubsequence(TopPairs(keys, m, top), Items(Dict(keys, m)))
  {
    if keys != [] {
      var t := TopPairs(Init(keys), m, top);
      var items := Items(Dict(Init(keys), m));
      var p := (Last(keys), m[Last(keys)]);
      TopPairsSubsequence(Init(keys), m, top);
      assert Items(Dict(keys, m)) == items + [p];
      assert Init(items + [p]) == items;
      if m[Last(keys)] == top {
        assert Init(t + [p]) == t;
      } else {
        assert TopPairs(keys, m, top) == t + [] == t;
      }
    }
  }

  /** top_emotions is never empty, holds exactly the (label, value) items
      whose value is the maximum, and keeps the dict's key order. */
  lemma TopEmotionsSpec(d: Dict<real>)
    requires Valid(d) && |d.keys| > 0
    ensures |TopEmotions(d)| > 0
    ensures forall p :: p in TopEmotions(d) <==>
              p.0 in d.entries && p.1 == d.entries[p.0]
              && forall k :: k in d.entries ==> d.entries[k] <= p.1
    ensures IsSubsequence(TopEmotions(d), Items(d))
  {
    var mx := MaxValue(d.keys, d.entries);
    forall p ensures p in TopEmotions(d) <==>
              p.0 in d.entries && p.1 == d.entries[p.0]
              && forall k :: k in d.entries ==> d.entries[k] <= p.1
    {
      TopPairsMembers(d.keys, d.entries, mx, p);
    }
    var k :| k in d.keys && d.entries[k] == mx;
    assert (k, mx) in TopEmotions(d);
    TopPairsSubsequence(d.keys, d.entries, mx);
  }

  /** When every value is the same, every item ties for the top. */
  lemma {:induction false} TopPairsUniform(keys: seq<string>, m: map<string, real>, v: real)
    requires forall k :: k in keys ==> k in m && m[k] == v
    ensures TopPairs(keys, m, v) == Items(Dict(keys, m))
  {
    if keys != [] {
      TopPairsUniform(Init(keys), m, v);
    }
  }

  // ---------------------------------------------------------------------
  // The whole profile when nothing matches

  lemma {:induction false} MatchedNone(words: seq<string>, lexicon: Lexicon)
    requires forall w :: w in words ==> w !in lexicon
    ensures Matched(words, lexicon) == []
  {
    if words != [] {
      InitLast(words);
      MatchedNone(Init(words), lexicon);
    }
  }

  /** An empty token list, or one whose tokens are all absent from the
      lexicon, gives an empty affect_list, affect_dict and
      raw_emotion_scores, and all ten emotions at 0. */
  lemma NoMatchProfile(words: seq<string>, lexicon: Lexicon)
    requires forall w :: w in words ==> w !in lexicon
    ensures AffectOf(words, lexicon) == []
    ensures AffectDictOf(words, lexicon).entries == map[]
    ensures RawScores(AffectOf(words, lexicon)).entries == map[]
    ensures Frequencies(AffectOf(words, lexicon)) == ZeroFrequencies()
  {
    MatchedNone(words, lexicon);
    assert Unique<string>([]) == [];
  }

  /** With all ten emotions at 0, all ten tie for the top, in EmotionOrder. */
  lemma ZeroFrequenciesTop()
    ensures TopEmotions(ZeroFrequencies()) == Items(ZeroFrequencies())
    ensures |TopEmotions(ZeroFrequencies())| == 10
    ensures forall i :: 0 <= i < 10 ==> TopEmotions(ZeroFrequencies())[i] == (EmotionOrder[i], 0.0)
  {
    var z := ZeroFrequencies();
    assert MaxValue(z.keys, z.entries) == 0.0;
    TopPairsUniform(z.keys, z.entries, 0.0);
  }
}
