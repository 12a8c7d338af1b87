# NRCLex affect aggregation in Dafny

NRCLex scores a list of tokens against the NRC emotion lexicon, a map from
each word to its emotion labels. Each load of tokens recomputes five result
fields on the analyser object:

- `affect_list`: the labels of every matched token, in token order;
- `affect_dict`: each matched word mapped to its labels;
- `raw_emotion_scores`: the counts of `Counter(affect_list)` as a plain dict;
- `affect_frequencies`: every label's share of the total, laid over the ten
  emotions of `EMOTION_ORDER`, which start at 0.0;
- `top_emotions`: the `(label, frequency)` items that tie for the maximum.

The constructor first decides where the lexicon comes from: the bundled
file, a file on disk, or a "not found" error.

The project has five modules:

- `Seqs` (`seqs.dfy`): sequence helpers. It has occurrence counts,
  duplicate-freedom, first-occurrence deduplication (`Unique`, the key order
  of a `Counter`), filtering out excluded elements (`Outside`) and `Repeat`.
- `Dicts` (`dicts.dfy`): an insertion-ordered Python `dict`. It is a key
  sequence plus a map. `Put` keeps an existing key in place and appends a new
  one.
- `Affect` (`affect.dfy`): one specification function per result field, and
  the lemmas that say what each field means.
- `Core` (`core.dfy`):
  - the lexicon-source decision `ResolveLexicon`;
  - the frequency loop `FillPercentages`, an imperative loop proved equal to
    its closed form `Affect.Percentages`;
  - the class `NRCLex`. Its methods `BuildWordAffect`, `ComputeTopEmotions`
    and `LoadTokenList` assign the object's fields as the Python methods do.
    `BuildWordAffect` sets the four affect fields to `AffectOf`,
    `AffectDictOf`, `RawScores` and `Frequencies` of the loaded words.
    `ComputeTopEmotions` sets `topEmotions` to
    `TopEmotions(affectFrequencies)`. `LoadTokenList` is proved to leave
    every result field equal to the specification function of the new
    tokens and the lexicon.
- `Scenarios` (`scenarios.dfy`): the concrete cases of the repository's unit
  tests, proved on a three-word lexicon.

Frequencies are exact `real`s. Filesystem answers (does the path exist, is it
absolute, what does it resolve to) and the lexicon loaders are parameters of
the model.

Two places where the code does something a reader may not expect:

- **Lexicon resolution.** The error message at `nrclex/core.py:63-64` tells
  the caller to use `None` or the default name `'nrc_en.json'` for the bundled
  lexicon, so the default name reads as "the bundled lexicon". The code checks
  `exists()` first (`nrclex/core.py:55-56`), so an existing `./nrc_en.json`
  is loaded from disk instead. `ResolveLexicon` does this, and
  `DefaultArgumentResolves` proves it.
- **Frequency keys.** `affect_frequencies` starts as the ten emotions of
  `EMOTION_ORDER` at 0.0 (`nrclex/core.py:14-25`, `:78`), which suggests a
  fixed set of ten keys. The loop at `nrclex/core.py:80-81` writes every
  counted label, so a lexicon label outside `EMOTION_ORDER` adds a key.
  Two lemmas cover this:
  - `UnknownLabelKept` proves the extra key appears;
  - `FrequenciesKnownLabels` proves there are exactly ten keys when every
    label is an emotion.

## Model

| member | source | states |
|---|---|---|
| Affect.EmotionOrderDistinct | nrclex/core.py:14-25 | the emotion vocabulary has ten distinct labels |
| Affect.Matched | nrclex/core.py:72 | matched_words: the tokens that are lexicon keys, in token order with repeats (meaning proved by MatchedSpec, MatchedCount, MatchedIsSubsequence) |
| Affect.AffectList | nrclex/core.py:73 | affect_list from matched_words: the lexicon labels of each matched word, concatenated in order (proved by AffectListLength, AffectListLabels, AffectOfSnoc) |
| Affect.AffectOf | nrclex/core.py:72-73 | affect_list as a function of the tokens and the lexicon: AffectList of Matched |
| Affect.AffectDict | nrclex/core.py:74 | affect_dict from matched_words: keys in first-occurrence order, each mapped to lexicon[w]; the key order is that of `Seqs.Unique`, and AffectDictSpec proves the keys and values |
| Affect.AffectDictOf | nrclex/core.py:72-74 | affect_dict as a function of the tokens and the lexicon: AffectDict of Matched |
| Affect.RawScores | nrclex/core.py:76 | dict(Counter(affect_list)): each distinct label, in first-occurrence order, with its number of occurrences; the key order is that of `Seqs.Unique`, and RawScoresValid and RawScoresSpec prove the keys and values |
| Affect.Total | nrclex/core.py:77 | sum of the counter's values (equal to len(affect_list) by TotalIsLength) |
| Affect.ZeroFrequencies | nrclex/core.py:78 | the initial frequency dict: the ten emotions of EMOTION_ORDER, in that order, each at 0.0 |
| Affect.FreqOf | nrclex/core.py:81 | the frequency a label ends with: its count over len(affect_list), and 0 when nothing was counted (tied to the dict by FrequenciesValues) |
| Affect.TopPairs | nrclex/core.py:92-96 | the items of a dict whose value equals a given maximum, in key order (proved by TopPairsMembers, TopPairsSubsequence) |
| Affect.TopEmotions | nrclex/core.py:88-96 | top_emotions: TopPairs at max(values) (proved by TopEmotionsSpec) |
| Dicts.Empty | nrclex/core.py:74 | the empty dict display: well-formed with no entries, as affect_dict is when no word matches; also the placeholder of an unloaded analyser |
| Affect.MatchedSpec | nrclex/core.py:72 | a word is in matched_words iff it is a token and a lexicon key |
| Affect.MatchedCount | nrclex/core.py:72 | matched_words keeps every occurrence of a lexicon word (same count as in the tokens) and none of any other token |
| Affect.MatchedIsSubsequence | nrclex/core.py:72 | matched_words is a subsequence of the tokens, so token order is kept |
| Affect.MatchedAppend | nrclex/core.py:72 | filtering a concatenation is concatenating the filtered parts |
| Affect.MatchedNone | nrclex/core.py:72 | with no token in the lexicon, matched_words is empty |
| Affect.AffectListLength | nrclex/core.py:73 | len(affect_list) is the sum of the matched words' label counts |
| Affect.AffectListLabels | nrclex/core.py:73 | a label is in affect_list iff it is a label of some matched word |
| Affect.AffectOfSnoc | nrclex/core.py:72-73 | one more matched token appends exactly its lexicon labels to affect_list |
| Affect.CountAffectSnoc | nrclex/core.py:72-73 | one more matched token raises each label's count by that label's count in the token's entry |
| Affect.RepeatScales | nrclex/core.py:72-76 | repeating a matched token n times adds n times its contribution to every label count |
| Affect.AffectDictSpec | nrclex/core.py:74 | affect_dict is a well-formed dict whose keys are exactly the matched tokens, each mapped to lexicon[w] |
| Affect.RawScoresValid | nrclex/core.py:76 | dict(Counter(affect_list)) is a well-formed dict (distinct keys, keys = entries) |
| Affect.RawScoresSpec | nrclex/core.py:76 | a label is a key of raw_emotion_scores iff it occurs in affect_list, and its value is its number of occurrences |
| Affect.TotalIsLength | nrclex/core.py:77 | the total the frequencies divide by equals len(affect_list) |
| Affect.Percentages | nrclex/core.py:78-81 | the frequency dict always contains the ten emotions, and each key has a value |
| Affect.Frequencies | nrclex/core.py:78-81 | affect_frequencies has at least ten keys, each with a value |
| Affect.FrequenciesKeys | nrclex/core.py:78-81 | keys are the ten emotions in EMOTION_ORDER, then the other labels in first-occurrence order; a label is a key iff it is an emotion or occurs in affect_list |
| Affect.FrequenciesValues | nrclex/core.py:78-81 | every frequency is the label's count divided by the total (0 when the total is 0) and lies in [0, 1] |
| Affect.PercentageEntry | nrclex/core.py:79-81 | a counted label gets count / total, an uncounted emotion keeps 0, both in [0, 1] |
| Affect.FrequenciesSumToOne | nrclex/core.py:77-81 | with a non-empty affect_list the frequencies sum to exactly 1 |
| Affect.FrequenciesKnownLabels | nrclex/core.py:78-81 | when every label is an emotion, the keys are exactly EMOTION_ORDER and there are ten |
| Affect.TenEntries | nrclex/core.py:78 | a dict keyed by exactly the ten emotions has ten entries |
| Affect.UnknownLabelKept | nrclex/core.py:80-81 | a label outside EMOTION_ORDER still becomes a key, giving more than ten keys |
| Affect.MaxValue | nrclex/core.py:91 | max(values) is at least every value and is the value of some key |
| Affect.TopPairsMembers | nrclex/core.py:92-96 | an item is kept iff its value equals the given maximum |
| Affect.TopPairsSubsequence | nrclex/core.py:92-96 | the kept items appear in the dict's item order |
| Affect.TopEmotionsSpec | nrclex/core.py:88-96 | top_emotions is non-empty, holds exactly the items whose value is the maximum, in dict order |
| Affect.TopPairsUniform | nrclex/core.py:92-96 | when all values are equal, every item is kept |
| Affect.NoMatchProfile | nrclex/core.py:72-79 | with no matched token: affect_list and affect_dict are empty, no scores, all ten emotions at 0 |
| Affect.ZeroFrequenciesTop | nrclex/core.py:88-96 | with all ten emotions at 0, top_emotions is all ten items in EMOTION_ORDER |
| Core.ResolveLexicon | nrclex/core.py:49-65 | None gives the bundled lexicon; an existing path loads its resolved path; a missing path gives the bundled lexicon iff it is the default name or relative, otherwise not-found with the given value |
| Core.DefaultArgumentResolves | nrclex/core.py:46-60 | the default argument never fails, and loads the file of that name when it exists |
| Core.FillPercentages | nrclex/core.py:78-81 | the loop's dict equals the closed form Percentages(counter, total) |
| Core.FillStep | nrclex/core.py:80-81 | one iteration keeps the loop invariant: emotions first, handled labels appended, handled labels at their share, all others 0 |
| Core.FillDone | nrclex/core.py:79-81 | after every counted label is handled, the dict is the closed form |
| Core.Scores | nrclex/core.py:76-81 | the counter and the filled dict are RawScores and Frequencies of affect_list |
| Core.NRCLex.constructor | nrclex/core.py:46-47 | a new analyser holds the given lexicon and nothing is loaded |
| Core.NRCLex.Open | nrclex/core.py:46-65 | construction fails with the missing file iff resolution says not found; otherwise the new analyser holds the bundled lexicon or the one read from the resolved path |
| Core.NRCLex.BuildWordAffect | nrclex/core.py:67-86 | the four affect fields become AffectOf, AffectDictOf, RawScores and Frequencies of the tokens; text, words and sentences are unchanged |
| Core.NRCLex.ComputeTopEmotions | nrclex/core.py:88-96 | top_emotions becomes TopEmotions(affect_frequencies); no other field changes |
| Core.NRCLex.LoadTokenList | nrclex/core.py:98-104 | text is "", words is the token list, sentences is empty, and every result field is the specification function of the new tokens and the lexicon alone |
| Dicts.Put | nrclex/core.py:81 | `d[k] = v` sets k to v, leaves other entries alone, keeps the old key order as a prefix, and keeps a dict well-formed |
| Dicts.PutKeys | nrclex/core.py:81 | an existing key keeps its place; a new key goes last |
| Dicts.Items | nrclex/core.py:94 | items() pairs each key with its value, in key order |
| Seqs.UniqueSpec | nrclex/core.py:76 | Counter's key list has no duplicates and holds exactly the elements of its input |
| Seqs.OutsideSpec | nrclex/core.py:80-81 | the labels appended after the ten emotions are exactly the counted labels that are not emotions, without duplicates |
| Scenarios.RepeatedTokensScores | tests/test_nrclex_unit.py:19-30 | tokens happy, happy, sad give positive 2, joy 2, negative 1, sadness 1 and nothing else |
| Scenarios.RepeatedTokensFrequencies | tests/test_nrclex_unit.py:31-32 | those tokens give positive frequency 2/6 and sadness 1/6 |
| Scenarios.UnknownTokens | tests/test_nrclex_unit.py:35-43 | unknown tokens give no scores, every frequency 0 and ten top emotions |
| Scenarios.EmptyTokens | tests/test_nrclex_unit.py:46-55 | an empty token list gives empty affect_list, affect_dict and scores and every frequency 0 |
| Scenarios.ResolutionCases | tests/test_nrclex_unit.py:58-70 | `None`, the call with no argument (the default name `nrc_en.json`, absent from the working directory) and a missing relative path all give the bundled lexicon; the missing absolute path `/tmp/definitely_missing_nrclex_lexicon.json` is not found with that value |

## Left out

- `load_raw_text` (`nrclex/core.py:106-118`): TextBlob tokenisation and lemmatisation belong to a foreign library whose rules are not visible. Only the hand-off of `words` to the aggregation is modelled, through `LoadTokenList`.
- JSON reading and `lru_cache` in `_load_bundled_lexicon` and `_load_lexicon_from_path` (`nrclex/core.py:28-40`): these are file I/O and process-wide caching. `Open` takes the bundled lexicon and a path-to-lexicon function as parameters. Unreadable or malformed files are not modelled.
- `Path.exists`, `Path.resolve` and `Path.is_absolute`: these are filesystem queries. They are fields of `LexiconArg` with no path semantics.
- Affect.Frequencies: values are exact reals, not IEEE doubles. Sum-to-one holds exactly only in this idealisation.
- Core.NRCLex.ComputeTopEmotions: it requires a non-empty frequency dict. On an empty dict the source's `max()` raises `ValueError`. That cannot happen after `_build_word_affect`, which always writes the ten emotions.
- The result attributes do not exist on the Python object before its first load. The model gives them placeholder values and records "not loaded yet" in the ghost field `loaded`.
