/** The score record of one analysis and the per-file record the table keeps
    (`src/acat/ui/audio_file.py`). */
module AudioFile {
  import opened Numbers
  import opened Paths

  /** The nine numbers of one analysis: the two scores, then the seven
      acoustic features they were computed from. */
  datatype PraatScore = PraatScore(
    comprehensibility: Num,
    nativelikeness: Num,
    speechrate: Num,
    pauses: Num,
    rangef0: Num,
    sdsylldur: Num,
    coeff1: Num,
    coeff2: Num,
    coeff3: Num)

  /** How many fields a score record has. */
  const FieldCount: nat := 9

  /** `PraatScore.all_data`: the fields in declaration order, the order in
      which they are displayed and exported. */
  function AllData(s: PraatScore): (r: seq<Num>)
    ensures |r| == FieldCount
    ensures r[0] == s.comprehensibility && r[1] == s.nativelikeness
  {
    [s.comprehensibility, s.nativelikeness, s.speechrate, s.pauses,
     s.rangef0, s.sdsylldur, s.coeff1, s.coeff2, s.coeff3]
  }

  /** `PraatScore(*args)`: the dataclass constructor called with positional
      arguments; any other number of arguments than nine raises TypeError. */
  function FromPositional(args: seq<Num>): (r: Result<PraatScore>)
    ensures r.Ok? <==> |args| == FieldCount
  {
    if |args| != FieldCount then Err(TypeError("PraatScore takes 9 positional arguments"))
    else Ok(PraatScore(args[0], args[1], args[2], args[3], args[4],
                       args[5], args[6], args[7], args[8]))
  }

  /** Serialising a record and constructing one from the serialised fields
      gives the record back, and the other way round. */
  lemma {:induction false} AllDataRoundTrip(s: PraatScore, args: seq<Num>)
    ensures FromPositional(AllData(s)) == Ok(s)
    ensures |args| == FieldCount ==> AllData(FromPositional(args).value) == args
  {
    if |args| == FieldCount {
      var t := AllData(FromPositional(args).value);
      assert forall i :: 0 <= i < FieldCount ==> t[i] == args[i];
    }
  }

  /** `PraatScore.all_data_or_none`: nine `None`s for a missing record,
      otherwise the record's fields. */
  function AllDataOrNone(obj: Option<PraatScore>): (r: seq<Option<Num>>)
    ensures |r| == FieldCount
    ensures obj.None? ==> forall i :: 0 <= i < |r| ==> r[i].None?
    ensures obj.Some? ==> forall i :: 0 <= i < |r| ==> r[i] == Some(AllData(obj.value)[i])
  {
    match obj
    case None => seq(FieldCount, _ => None)
    case Some(s) => var d := AllData(s); seq(FieldCount, i requires 0 <= i < FieldCount => Some(d[i]))
  }

  /** What a score cell of the table shows: "N/A", or the number written
      with five decimals. */
  datatype ScoreText = NotAvailable | Fixed5(value: Num)

  /** Python truthiness of a float: zero is false, every other value
      (NaN included) is true. */
  predicate Truthy(x: Num)
  {
    x != Val(0.0)
  }

  /** The text for an optional score: "N/A" unless the value is present
      and truthy. */
  function ScoreTextOf(x: Option<Num>): (t: ScoreText)
    ensures t == NotAvailable <==> x.None? || x.value == Val(0.0)
    ensures t != NotAvailable ==> t == Fixed5(x.value)
  {
    if x.Some? && Truthy(x.value) then Fixed5(x.value) else NotAvailable
  }

  /** The characters of a cell. `fixed5` writes a number with five decimals
      (the `:.5f` format); a NaN is written "nan". */
  function Render(t: ScoreText, fixed5: real -> string): (r: string)
    ensures t.NotAvailable? ==> r == "N/A"
    ensures t == Fixed5(NaN) ==> r == "nan"
    ensures t.Fixed5? && t.value.Val? ==> r == fixed5(t.value.v)
  {
    match t
    case NotAvailable => "N/A"
    case Fixed5(NaN) => "nan"
    case Fixed5(Val(x)) => fixed5(x)
  }

  /** One loaded audio file. The analysis result is stored into `score` in
      place, so the record is an object. */
  class AudioFileInfo {
    const path: PurePath
    var score: Option<PraatScore>

    constructor (path: PurePath, score: Option<PraatScore>)
      ensures this.path == path && this.score == score
    {
      this.path := path;
      this.score := score;
    }

    /** `file_name`: the final component of the path. */
    function FileName(): (r: string)
      ensures r == "" <==> path.parts == []
      ensures path.parts != [] ==> r == path.parts[|path.parts| - 1]
    {
      Name(path)
    }

    /** `extension`: the final component's suffix, dot included, or "". */
    function Extension(): (r: string)
      ensures r == "" <==> !HasSuffix(FileName())
      ensures r != "" ==> |r| >= 2 && r[0] == '.' && '.' !in r[1..]
      ensures r != "" ==> |r| < |FileName()| && FileName() == Stem(FileName()) + r
    {
      Suffix(FileName())
    }

    /** `comprehensibility`: the score's field, or `None` without a score. */
    function Comprehensibility(): (r: Option<Num>)
      reads this
      ensures r.None? <==> score.None?
      ensures score.Some? ==> r == Some(score.value.comprehensibility)
    {
      if score.Some? then Some(score.value.comprehensibility) else None
    }

    /** `nativelikeness`: the score's field, or `None` without a score. */
    function Nativelikeness(): (r: Option<Num>)
      reads this
      ensures r.None? <==> score.None?
      ensures score.Some? ==> r == Some(score.value.nativelikeness)
    {
      if score.Some? then Some(score.value.nativelikeness) else None
    }

    /** `comprehensibility_str`: "N/A" for a missing score and for a score
      of exactly zero (the test is truthiness), else the number. */
    function ComprehensibilityText(): (t: ScoreText)
      reads this
      ensures t == NotAvailable <==> score.None? || score.value.comprehensibility == Val(0.0)
      ensures t != NotAvailable ==> t == Fixed5(score.value.comprehensibility)
    {
      ScoreTextOf(Comprehensibility())
    }

    /** `nativelikeness_str`: "N/A" for a missing score and for a score of
      exactly zero, else the number. */
    function NativelikenessText(): (t: ScoreText)
      reads this
      ensures t == NotAvailable <==> score.None? || score.value.nativelikeness == Val(0.0)
      ensures t != NotAvailable ==> t == Fixed5(score.value.nativelikeness)
    {
      ScoreTextOf(Nativelikeness())
    }

    /** `formatted_score`: both texts separated by " | ". */
    function FormattedScore(fixed5: real -> string): (r: string)
      reads this
      ensures score.None? ==> r == "N/A | N/A"
    {
      Render(ComprehensibilityText(), fixed5) + " | " + Render(NativelikenessText(), fixed5)
    }
  }

  /** A NaN score is truthy in Python, so it is shown as "nan" and not as
      "N/A"; a zero score is shown as "N/A" although a record exists. */
  lemma NaNAndZeroScores(f: AudioFileInfo, fixed5: real -> string)
    requires f.score.Some?
    ensures f.score.value.comprehensibility == NaN ==> Render(f.ComprehensibilityText(), fixed5) == "nan"
    ensures f.score.value.comprehensibility == Val(0.0) ==> Render(f.ComprehensibilityText(), fixed5) == "N/A"
  {
  }
}
