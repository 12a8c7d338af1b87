/** The NRCLex analyser of nrclex/core.py: the choice of lexicon source made
    at construction, the object whose result fields each load replaces, and
    the loop that turns label counts into frequencies. */
module Core {
  import opened Seqs
  import opened Dicts
  import opened Affect

  /** The name of the lexicon bundled with the package. */
  const DefaultLexiconFilename: string := "nrc_en.json"

  /** The `lexicon_file` argument, together with what the filesystem answers
      about it: whether the path exists, whether it is absolute, and its
      resolved absolute form. */
  datatype LexiconArg =
    | NoFile
    | File(value: string, pathExists: bool, isAbsolute: bool, resolved: string)

  /** Where the lexicon comes from, or the missing file that is reported. */
  datatype Resolution = Bundled | LoadPath(path: string) | NotFound(file: string)

  /** `NRCLex._resolve_lexicon`: None gives the bundled lexicon; an existing
      path is loaded; a missing path falls back to the bundled lexicon when it
      is the default name or relative; any other missing path is an error. */
  function ResolveLexicon(arg: LexiconArg): (r: Resolution)
    ensures r == Bundled <==>
              arg.NoFile? || (!arg.pathExists && (arg.value == DefaultLexiconFilename || !arg.isAbsolute))
    ensures r.LoadPath? <==> arg.File? && arg.pathExists
    ensures r.LoadPath? ==> r.path == arg.resolved
    ensures r.NotFound? <==>
              arg.File? && !arg.pathExists && arg.isAbsolute && arg.value != DefaultLexiconFilename
    ensures r.NotFound? ==> r.file == arg.value
  {
    match arg
    case NoFile => Bundled
    case File(value, pathExists, isAbsolute, resolved) =>
      if pathExists then LoadPath(resolved)
      else if value == DefaultLexiconFilename || !isAbsolute then Bundled
      else NotFound(value)
  }

  /** The constructor's default argument never fails, and it loads a file of
      that name when one exists where the name resolves. */
  lemma DefaultArgumentResolves(pathExists: bool, isAbsolute: bool, resolved: string)
    ensures !ResolveLexicon(File(DefaultLexiconFilename, pathExists, isAbsolute, resolved)).NotFound?
    ensures pathExists ==> ResolveLexicon(File(DefaultLexiconFilename, pathExists, isAbsolute, resolved)) == LoadPath(resolved)
  {
  }

  /** A constructed analyser, or the `FileNotFoundError` for the lexicon. */
  datatype Result<T> = Ok(value: T) | LexiconNotFound(file: string)

  /** The frequency dict after the loop has handled the first i counted
      labels, starting from `base` (the ten emotions) at 0: the base labels,
      then the handled labels outside them; a handled label holds its share of
      the total, every other key 0. */
  ghost predicate FilledUpTo(percent: Dict<real>, base: seq<string>, counter: Dict<nat>, total: nat, i: nat)
    requires Valid(counter) && total > 0 && i <= |counter.keys|
  {
    && percent.keys == base + Outside(counter.keys[..i], base)
    && (forall e :: e in percent.entries <==> e in base || e in counter.keys[..i])
    && (forall e :: e in percent.entries ==>
          percent.entries[e] ==
            if e in counter.keys[..i] then counter.entries[e] as real / total as real else 0.0)
  }

  lemma FillStart(base: seq<string>, counter: Dict<nat>, total: nat)
    requires Valid(counter) && total > 0
    ensures FilledUpTo(Dict(base, map e | e in base :: 0.0), base, counter, total, 0)
  {
    assert counter.keys[..0] == [] && base + [] == base;
  }

  lemma FillStep(percent: Dict<real>, base: seq<string>, counter: Dict<nat>, total: nat, i: nat)
    requires Valid(counter) && total > 0 && i < |counter.keys|
    requires FilledUpTo(percent, base, counter, total, i)
    ensures FilledUpTo(Put(percent, counter.keys[i], counter.entries[counter.keys[i]] as real / total as real),
                       base, counter, total, i + 1)
  {
    FillStepKeys(percent, base, counter, total, i);
    FillStepEntries(percent, base, counter, total, i);
  }

  lemma FillStepKeys(percent: Dict<real>, base: seq<string>, counter: Dict<nat>, total: nat, i: nat)
    requires Valid(counter) && total > 0 && i < |counter.keys|
    requires FilledUpTo(percent, base, counter, total, i)
    ensures Put(percent, counter.keys[i], counter.entries[counter.keys[i]] as real / total as real).keys
         == base + Outside(counter.keys[..i + 1], base)
  {
    var e := counter.keys[i];
    var done := counter.keys[..i];
    assert counter.keys[..i + 1] == done + [e];
    OutsideSnoc(done, e, base);
    NoDupsFresh(counter.keys, i);
    PutKeys(percent, e, counter.entries[e] as real / total as real, base, Outside(done, base));
  }

  lemma FillStepEntries(percent: Dict<real>, base: seq<string>, counter: Dict<nat>, total: nat, i: nat)
    requires Valid(counter) && total > 0 && i < |counter.keys|
    requires FilledUpTo(percent, base, counter, total, i)
    ensures var next := Put(percent, counter.keys[i], counter.entries[counter.keys[i]] as real / total as real);
      && (forall x :: x in next.entries <==> x in base || x in counter.keys[..i + 1])
      && (forall x :: x in next.entries ==>
            next.entries[x] == if x in counter.keys[..i + 1]
                               then counter.entries[x] as real / total as real else 0.0)
  {
    assert counter.keys[..i + 1] == counter.keys[..i] + [counter.keys[i]];
  }

  lemma FillDone(percent: Dict<real>, counter: Dict<nat>, total: nat)
    requires Valid(counter) && total > 0
    requires FilledUpTo(percent, EmotionOrder, counter, total, |counter.keys|)
    ensures percent == Percentages(counter, total)
  {
    assert counter.keys[..|counter.keys|] == counter.keys;
  }

  /** The loop of `_build_word_affect` that writes each counted label's share
      of the total over the ten zeroed emotions. */
  method FillPercentages(counter: Dict<nat>, total: nat) returns (percent: Dict<real>)
    requires Valid(counter)
    ensures percent == Percentages(counter, total)
  {
    percent := ZeroFrequencies();
    if total > 0 {
      FillStart(EmotionOrder, counter, total);
      var i := 0;
      while i < |counter.keys|
        invariant i <= |counter.keys|
        invariant FilledUpTo(percent, EmotionOrder, counter, total, i)
      {
        FillStep(percent, EmotionOrder, counter, total, i);
        var e := counter.keys[i];
        percent := Put(percent, e, counter.entries[e] as real / total as real);
        i := i + 1;
      }
      FillDone(percent, counter, total);
    }
  }

  /** The counter of affect_list and the frequencies the loop fills in. */
  method Scores(affect: seq<string>) returns (counter: Dict<nat>, percent: Dict<real>)
    ensures counter == RawScores(affect)
    ensures percent == Frequencies(affect)
  {
    counter := RawScores(affect);
    RawScoresValid(affect);
    percent := FillPercentages(counter, Total(counter));
  }

  class NRCLex {
    /** `self.__lexicon__`: fixed at construction. */
    const lexicon: Lexicon
    var text: string
    var words: seq<string>
    var sentences: seq<string>
    var affectList: seq<string>
    var affectDict: Dict<seq<string>>
    var rawEmotionScores: Dict<nat>
    var affectFrequencies: Dict<real>
    var topEmotions: seq<(string, real)>
    /** Whether a load has run: before the first load the result attributes
        do not exist on the Python object. */
    ghost var loaded: bool

    /** After a load, every result field is the one the aggregation gives for
        the loaded words and the lexicon. */
    ghost predicate Valid()
      reads this
    {
      loaded ==>
        && affectList == AffectOf(words, lexicon)
        && affectDict == AffectDictOf(words, lexicon)
        && rawEmotionScores == RawScores(affectList)
        && affectFrequencies == Frequencies(affectList)
        && topEmotions == TopEmotions(affectFrequencies)
    }

    /** The analyser over an already-loaded lexicon, with nothing loaded yet. */
    constructor (lexicon: Lexicon)
      ensures this.lexicon == lexicon && !loaded && Valid()
    {
      this.lexicon := lexicon;
      text, words, sentences := "", [], [];
      affectList, affectDict := [], Empty();
      rawEmotionScores, affectFrequencies := Empty(), Empty();
      topEmotions := [];
      loaded := false;
    }

    /** `NRCLex(lexicon_file)`: resolve the source and take its lexicon, the
        bundled one or the one read from the resolved path. */
    static method Open(arg: LexiconArg, bundled: Lexicon, fromPath: string -> Lexicon)
      returns (r: Result<NRCLex>)
      ensures r.LexiconNotFound? <==> ResolveLexicon(arg).NotFound?
      ensures r.LexiconNotFound? ==> r.file == ResolveLexicon(arg).file
      ensures r.Ok? ==> fresh(r.value) && !r.value.loaded && r.value.Valid()
      ensures ResolveLexicon(arg) == Bundled ==> r.Ok? && r.value.lexicon == bundled
      ensures ResolveLexicon(arg).LoadPath? ==>
                r.Ok? && r.value.lexicon == fromPath(ResolveLexicon(arg).path)
    {
      match ResolveLexicon(arg)
      case Bundled =>
        var a := new NRCLex(bundled);
        r := Ok(a);
      case LoadPath(path) =>
        var a := new NRCLex(fromPath(path));
        r := Ok(a);
      case NotFound(file) =>
        r := LexiconNotFound(file);
    }

    /** `_build_word_affect`: the four affect fields for the loaded words. */
    method BuildWordAffect()
      modifies this`affectList, this`affectDict, this`rawEmotionScores, this`affectFrequencies
      ensures affectList == AffectOf(old(words), lexicon)
      ensures affectDict == AffectDictOf(old(words), lexicon)
      ensures rawEmotionScores == RawScores(affectList)
      ensures affectFrequencies == Frequencies(affectList)
      ensures unchanged(this`text, this`words, this`sentences)
    {
      var matched := Matched(words, lexicon);
      MatchedSpec(words, lexicon);
      var list := AffectList(matched, lexicon);
      var dict := AffectDict(matched, lexicon);
      var counter, percent := Scores(list);
      affectList, affectDict, rawEmotionScores, affectFrequencies := list, dict, counter, percent;
    }

    /** `_compute_top_emotions`: every frequency item that ties for the
        maximum. */
    method ComputeTopEmotions()
      requires |affectFrequencies.keys| > 0
      requires forall k :: k in affectFrequencies.keys ==> k in affectFrequencies.entries
      modifies this`topEmotions
      ensures topEmotions == TopEmotions(affectFrequencies)
      ensures unchanged(this`text, this`words, this`sentences, this`loaded)
      ensures unchanged(this`affectList, this`affectDict, this`rawEmotionScores, this`affectFrequencies)
    {
      var d := affectFrequencies;
      var top := MaxValue(d.keys, d.entries);
      topEmotions := TopPairs(d.keys, d.entries, top);
    }

    /** `load_token_list`: replace every result field by the profile of the
        given tokens; nothing from an earlier load survives. */
    method LoadTokenList(tokens: seq<string>)
      modifies this
      ensures text == "" && words == tokens && sentences == []
      ensures loaded && Valid()
    {
      text, words, sentences, loaded := "", tokens, [], true;
      BuildWordAffect();
      ComputeTopEmotions();
    }
  }
}
