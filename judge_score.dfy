/** The language-model selector and the scoring entry point
    (`src/acat/backend/judge_score.py`). */
module JudgeScore {
  import opened Numbers
  import opened Paths
  import opened AudioFile
  import opened JapaneseScoring

  /** `LanguageModel`: an enumeration with a single member. */
  datatype LanguageModel = Japanese

  /** The members in definition order, as iterating the enumeration lists
      them. */
  const Members: seq<LanguageModel> := [Japanese]

  /** `model.name` and `model.value` (equal for the one member). */
  function Name(m: LanguageModel): (r: string)
    ensures r == "Japanese"
  {
    match m
    case Japanese => "Japanese"
  }

  /** `LanguageModel(value)`: the member with that value, ValueError for any
      other text. */
  function FromValue(value: string): (r: Result<LanguageModel>)
    ensures r.Ok? <==> value == "Japanese"
    ensures r.Ok? ==> Name(r.value) == value
  {
    if value == "Japanese" then Ok(Japanese)
    else Err(ValueError("'" + value + "' is not a valid LanguageModel"))
  }

  /** Every member is listed once, and looking a member up by its own value
      gives it back. */
  lemma {:induction false} MembersComplete(m: LanguageModel)
    ensures m in Members && |Members| == 1
    ensures FromValue(Name(m)) == Ok(m)
  {
    match m
    case Japanese =>
      assert Members[0] == Japanese;
  }

  /** What a caller passes as the `model` argument: nothing at all (the
      parameter has no default, so Python raises TypeError at the call), a
      member of the enumeration, or some other object, described by its
      text. */
  datatype ModelArg = Missing | Member(model: LanguageModel) | Other(repr: string)

  const UnknownModelMessage: string := "Unknown Language Model"

  /** `generate_praat_score(audio_file_path, model)`. */
  function GeneratePraatScore(audio: PurePath, model: ModelArg, env: Environment): (r: Result<PraatScore>)
    ensures model.Missing? ==> r.Err? && r.error.TypeError?
    ensures model.Other? ==> r == Err(ValueError(UnknownModelMessage))
    ensures model == Member(Japanese) ==> r == GenerateJapanese(audio, env)
  {
    match model
    case Missing =>
      Err(TypeError("generate_praat_score() missing 1 required positional argument: 'model'"))
    case Member(Japanese) => GenerateJapanese(audio, env)
    case Other(_) => Err(ValueError(UnknownModelMessage))
  }

  /** There is no default and no fallback: a score is produced only when
      the Japanese model was asked for, and it is then that model's
      result. */
  lemma {:induction false} NoFallback(audio: PurePath, model: ModelArg, env: Environment)
    ensures GeneratePraatScore(audio, model, env).Ok? ==> model == Member(Japanese)
    ensures GeneratePraatScore(audio, model, env).Ok? ==>
      GeneratePraatScore(audio, model, env) == GenerateJapanese(audio, env)
  {
    match model
    case Missing =>
    case Member(Japanese) =>
    case Other(_) =>
  }

  /** Whatever the model produces satisfies the two linear formulas. */
  lemma ScoresFollowFormulas(audio: PurePath, model: ModelArg, env: Environment)
    requires GeneratePraatScore(audio, model, env).Ok?
    ensures var s := GeneratePraatScore(audio, model, env).value;
      s.comprehensibility == Linear(ComprehensibilityIntercept, ComprehensibilityWeights, FeatureList(FeaturesOf(s)))
      && s.nativelikeness == Linear(NativelikenessIntercept, NativelikenessWeights, FeatureList(FeaturesOf(s)))
  {
    NoFallback(audio, model, env);
    ScoresAreLinear(FeaturesOf(GeneratePraatScore(audio, model, env).value));
  }
}
