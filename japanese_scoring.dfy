/** Feature reduction and scoring for the Japanese-tuned model
    (`src/acat/backend/praat_score_judging_japanese.py`).

    The phonetic engine (Praat running the syllable-nuclei script) and the
    TextGrid reader are outside the model: their tables arrive as inputs
    (`Environment`). So do the numeric routines of pandas and numpy that
    cannot be written over the reals (mean, sample standard deviation,
    base-10 logarithm): they are the function values of `Stats`. What is
    modelled is everything around them: which rows and intervals are kept,
    how undefined entries are treated, which derived columns are formed, the
    two linear formulas and the order in which the record is filled. */
module JapaneseScoring {
  import opened Numbers
  import opened Paths
  import opened AudioFile

  // ---------------------------------------------------------------------
  // Paths handed to the engine and to the TextGrid reader

  /** `_generate_file_spec`: the absolute audio path with "*" appended. */
  function FileSpec(audio: PurePath, cwd: AbsolutePath): (r: string)
    ensures |r| >= 2 && r[0] == '/' && r[|r| - 1] == '*'
    ensures r[..|r| - 1] == ToString(Absolute(audio, cwd))
    ensures (forall i :: 0 <= i < |Absolute(audio, cwd).parts| ==> '*' !in Absolute(audio, cwd).parts[i])
      ==> forall j :: 0 <= j < |r| - 1 ==> r[j] != '*'
  {
    var a := Absolute(audio, cwd);
    JoinAvoids(a.parts, '*');
    ToString(a) + "*"
  }

  /** The file specification identifies the audio file: two paths that give
      the same specification are the same absolute path. */
  lemma FileSpecInjective(p: PurePath, q: PurePath, cwd: AbsolutePath)
    requires FileSpec(p, cwd) == FileSpec(q, cwd)
    ensures Absolute(p, cwd) == Absolute(q, cwd)
  {
    var a, b := Absolute(p, cwd), Absolute(q, cwd);
    var s := FileSpec(p, cwd);
    assert ToString(a) == s[..|s| - 1] == ToString(b);
    assert Join(a.parts) == ToString(a)[1..];
    assert Join(b.parts) == ToString(b)[1..];
    JoinInjective(a.parts, b.parts);
  }

  /** The suffix that replaces the audio file's own. */
  const TextGridSuffix: string := ".auto.TextGrid"

  /** `_get_text_grid_path`: the absolute audio path with its final suffix
      replaced by ".auto.TextGrid". `with_suffix` raises ValueError for a
      path without a final component (the root). */
  function TextGridPath(audio: PurePath, cwd: AbsolutePath): (r: Result<Path>)
    ensures r.Err? <==> Absolute(audio, cwd).parts == []
    ensures r.Ok? ==> WellFormed(r.value) && r.value.rooted
    ensures r.Ok? ==> var a := Absolute(audio, cwd).parts;
      |r.value.parts| == |a| && r.value.parts[..|a| - 1] == a[..|a| - 1]
    ensures r.Ok? ==> Name(r.value) == Stem(Name(Absolute(audio, cwd))) + TextGridSuffix
  {
    var r := WithSuffix(Absolute(audio, cwd), TextGridSuffix);
    if r.Ok? then
      var a := Absolute(audio, cwd);
      StemIsPrefix(Name(a));
      assert WellFormed(r.value) by {
        forall i | 0 <= i < |r.value.parts| ensures ValidPart(r.value.parts[i]) {
          if i < |a.parts| - 1 {
            assert r.value.parts[i] == a.parts[i];
          }
        }
      }
      r
    else r
  }

  /** The TextGrid name keeps the audio name's stem, so its own suffix is
      ".TextGrid", and "x.wav" becomes "x.auto.TextGrid". */
  lemma TextGridName(audio: PurePath, cwd: AbsolutePath)
    requires TextGridPath(audio, cwd).Ok?
    ensures var n := Name(TextGridPath(audio, cwd).value);
      Suffix(n) == ".TextGrid" && Stem(n) == Stem(Name(Absolute(audio, cwd))) + ".auto"
  {
    var stem := Stem(Name(Absolute(audio, cwd)));
    var n := stem + TextGridSuffix;
    assert n[|stem| + 5] == '.';
    LastIndexOfUnique(n, '.', |stem| + 5);
    assert n[|stem| + 5..] == ".TextGrid";
    assert n[..|stem| + 5] == stem + ".auto";
  }

  /** A relative audio path gets the TextGrid path under the working
      directory, in the same directory, with the stem kept. */
  lemma TextGridPathOfRelative(dir: seq<string>, name: string, cwd: AbsolutePath)
    requires WellFormed(Path(false, dir + [name]))
    ensures TextGridPath(Path(false, dir + [name]), cwd)
      == Ok(Path(true, cwd.parts + dir + [Stem(name) + TextGridSuffix]))
  {
    var audio := Path(false, dir + [name]);
    var a := Absolute(audio, cwd);
    var n := |a.parts|;
    assert a.parts == cwd.parts + dir + [name];
    assert Name(a) == name;
    var r := TextGridPath(audio, cwd);
    var parts := r.value.parts;
    assert parts[..n - 1] == a.parts[..n - 1] == cwd.parts + dir;
    assert parts[n - 1] == Name(r.value);
    assert parts == parts[..n - 1] + [parts[n - 1]];
  }

  /** "x.wav" has the TextGrid name "x.auto.TextGrid". */
  lemma ExampleStem()
    ensures Stem("x.wav") + TextGridSuffix == "x.auto.TextGrid"
  {
    LastIndexOfUnique("x.wav", '.', 1);
    assert Stem("x.wav") == "x";
  }

  /** A stem is a prefix of its name, so it holds only the name's characters. */
  lemma StemIsPrefix(name: string)
    ensures |Stem(name)| <= |name| && name[..|Stem(name)|] == Stem(name)
  {
    var s := Stem(name);
    assert s + Suffix(name) == name;
    assert name[..|s|] == (s + Suffix(name))[..|s|];
  }

  // ---------------------------------------------------------------------
  // The per-segment table

  /** The segment type the engine gives syllable nuclei. */
  const SyllableType: string := "?"

  /** The text the engine writes for a value it could not measure. */
  const UndefinedText: string := "--undefined--"

  /** A cell of a frequency column as read from the engine's table: a number
      (read directly or parsed from its text), or text that is not one. */
  datatype Cell = Number(value: real) | Text(text: string)

  /** One row of the per-segment table, restricted to the selected columns
      "type", "F0", "F1", "F2", "F3". */
  datatype SegmentRow = SegmentRow(kind: string, f0: Cell, f1: Cell, f2: Cell, f3: Cell)

  /** The cell of frequency column `k` (0 for F0 up to 3 for F3). */
  function CellOf(row: SegmentRow, k: nat): Cell
    requires k < 4
  {
    if k == 0 then row.f0 else if k == 1 then row.f1 else if k == 2 then row.f2 else row.f3
  }

  /** The rows whose type marks a syllable, in table order. */
  function SyllableRows(rows: seq<SegmentRow>): (r: seq<SegmentRow>)
    ensures |r| <= |rows|
    ensures forall i :: 0 <= i < |r| ==> r[i].kind == SyllableType
    ensures forall i :: 0 <= i < |rows| && rows[i].kind == SyllableType ==> rows[i] in r
    decreases |rows|
  {
    if |rows| == 0 then []
    else
      var last := rows[|rows| - 1];
      SyllableRows(rows[..|rows| - 1]) + (if last.kind == SyllableType then [last] else [])
  }

  lemma {:induction false} SyllableRowsAppend(a: seq<SegmentRow>, b: seq<SegmentRow>)
    ensures SyllableRows(a + b) == SyllableRows(a) + SyllableRows(b)
    decreases |b|
  {
    if |b| == 0 {
      assert a + b == a;
    } else {
      var init := b[..|b| - 1];
      assert (a + b)[..|a + b| - 1] == a + init;
      SyllableRowsAppend(a, init);
    }
  }

  /** A cell that `astype(float)` cannot convert: text other than the
      undefined marker, which `replace` has already turned into NaN. */
  predicate Unconvertible(c: Cell)
  {
    c.Text? && c.text != UndefinedText
  }

  /** `replace("--undefined--", NaN)` followed by `astype(float)` on one cell. */
  function ToNum(c: Cell): (r: Result<Num>)
    ensures r.Err? <==> Unconvertible(c)
    ensures c.Number? ==> r == Ok(Val(c.value))
    ensures c == Text(UndefinedText) ==> r == Ok(NaN)
  {
    match c
    case Number(v) => Ok(Val(v))
    case Text(t) =>
      if t == UndefinedText then Ok(NaN)
      else Err(ValueError("could not convert string to float: " + t))
  }

  /** Frequency column `k` of the given rows. */
  function Column(rows: seq<SegmentRow>, k: nat): (r: seq<Cell>)
    requires k < 4
    ensures |r| == |rows| && forall i :: 0 <= i < |rows| ==> r[i] == CellOf(rows[i], k)
  {
    seq(|rows|, i requires 0 <= i < |rows| => CellOf(rows[i], k))
  }

  /** `astype(float)` on one column: the converted values, or the error of
      the first cell that cannot be converted. */
  function ConvertColumn(cells: seq<Cell>): (r: Result<seq<Num>>)
    ensures r.Err? <==> exists i :: 0 <= i < |cells| && Unconvertible(cells[i])
    ensures r.Ok? ==> |r.value| == |cells|
    ensures r.Ok? ==> forall i :: 0 <= i < |cells| ==> Ok(r.value[i]) == ToNum(cells[i])
    decreases |cells|
  {
    if |cells| == 0 then Ok([])
    else
      match ConvertColumn(cells[..|cells| - 1])
      case Err(e) => Err(e)
      case Ok(init) =>
        match ToNum(cells[|cells| - 1])
        case Err(e) => Err(e)
        case Ok(x) => Ok(init + [x])
  }

  /** `skipna=True`: the values of a column with its NaN entries dropped. */
  function Defined(xs: seq<Num>): (r: seq<real>)
    ensures |r| <= |xs|
    decreases |xs|
  {
    if |xs| == 0 then []
    else
      var last := xs[|xs| - 1];
      Defined(xs[..|xs| - 1]) + (if last.Val? then [last.v] else [])
  }

  /** Reference definition of what feeds the statistics of frequency column
      `k`: in one pass, the numeric entries of that column in the syllable
      rows. Non-syllable rows and undefined entries contribute nothing. */
  function SyllableValues(rows: seq<SegmentRow>, k: nat): seq<real>
    requires k < 4
    decreases |rows|
  {
    if |rows| == 0 then []
    else
      var last := rows[|rows| - 1];
      var c := CellOf(last, k);
      SyllableValues(rows[..|rows| - 1], k)
        + (if last.kind == SyllableType && c.Number? then [c.value] else [])
  }

  /** The smallest value, NaN for none (pandas' `min` after dropping NaNs). */
  function Min(xs: seq<real>): (r: Num)
    ensures r.NaN? <==> xs == []
    ensures r.Val? ==> r.v in xs && forall i :: 0 <= i < |xs| ==> r.v <= xs[i]
    decreases |xs|
  {
    if |xs| == 0 then NaN
    else
      var m := Min(xs[..|xs| - 1]);
      var last := xs[|xs| - 1];
      if m.Val? && m.v <= last then m else Val(last)
  }

  /** The largest value, NaN for none (pandas' `max` after dropping NaNs). */
  function Max(xs: seq<real>): (r: Num)
    ensures r.NaN? <==> xs == []
    ensures r.Val? ==> r.v in xs && forall i :: 0 <= i < |xs| ==> xs[i] <= r.v
    decreases |xs|
  {
    if |xs| == 0 then NaN
    else
      var m := Max(xs[..|xs| - 1]);
      var last := xs[|xs| - 1];
      if m.Val? && last <= m.v then m else Val(last)
  }

  /** The numeric routines of pandas and numpy that the model leaves
      uninterpreted: `Series.mean`, `Series.std` (sample standard
      deviation) and `np.log10`. */
  datatype Stats = Stats(mean: seq<real> -> Num, std: seq<real> -> Num, log10: real -> Num)

  /** `np.log10` lifted to floats: NaN stays NaN. */
  function Log10(lib: Stats, x: Num): Num
  {
    if x.Val? then lib.log10(x.v) else NaN
  }

  /** `log10(sd / mean)` over the given values. */
  function Coefficient(lib: Stats, xs: seq<real>): (r: Num)
    ensures lib.std(xs).NaN? || lib.mean(xs).NaN? || lib.mean(xs) == Val(0.0) ==> r.NaN?
    ensures lib.std(xs).Val? && lib.mean(xs).Val? && lib.mean(xs).v != 0.0 ==>
      r == lib.log10(lib.std(xs).v / lib.mean(xs).v)
  {
    Log10(lib, Div(lib.std(xs), lib.mean(xs)))
  }

  /** The four features taken from the per-segment table. */
  datatype SegmentFeatures = SegmentFeatures(rangef0: Num, coeff1: Num, coeff2: Num, coeff3: Num)

  /** Some syllable row holds a frequency cell that cannot be converted. */
  predicate HasUnconvertibleSyllableCell(rows: seq<SegmentRow>)
  {
    exists i, k :: 0 <= i < |rows| && 0 <= k < 4 && rows[i].kind == SyllableType && Unconvertible(CellOf(rows[i], k))
  }

  /** The segment half of `_analysis_from_praat_script`: keep the syllable
      rows, convert F0–F3, then form `rangef0 = max - min` of F0 and
      `coeffN = log10(sdfN / meanfN)` for N = 1, 2, 3. The error is that of
      `astype`. */
  function SegmentAnalysis(rows: seq<SegmentRow>, lib: Stats): (r: Result<SegmentFeatures>)
    ensures r.Err? <==> HasUnconvertibleSyllableCell(rows)
    ensures r.Ok? ==> var f0 := SyllableValues(rows, 0);
      r.value == SegmentFeatures(Sub(Max(f0), Min(f0)),
        Coefficient(lib, SyllableValues(rows, 1)),
        Coefficient(lib, SyllableValues(rows, 2)),
        Coefficient(lib, SyllableValues(rows, 3)))
  {
    var kept := SyllableRows(rows);
    var c0 := ConvertColumn(Column(kept, 0));
    var c1 := ConvertColumn(Column(kept, 1));
    var c2 := ConvertColumn(Column(kept, 2));
    var c3 := ConvertColumn(Column(kept, 3));
    UnconvertibleInKept(rows);
    if c0.Err? then Err(c0.error)
    else if c1.Err? then Err(c1.error)
    else if c2.Err? then Err(c2.error)
    else if c3.Err? then Err(c3.error)
    else
      var f0, f1, f2, f3 := Defined(c0.value), Defined(c1.value), Defined(c2.value), Defined(c3.value);
      ValuesOfConverted(rows, 0, c0.value);
      ValuesOfConverted(rows, 1, c1.value);
      ValuesOfConverted(rows, 2, c2.value);
      ValuesOfConverted(rows, 3, c3.value);
      Ok(SegmentFeatures(Sub(Max(f0), Min(f0)),
        Coefficient(lib, f1), Coefficient(lib, f2), Coefficient(lib, f3)))
  }

  /** A conversion error can only come from a syllable row. */
  lemma UnconvertibleInKept(rows: seq<SegmentRow>)
    ensures HasUnconvertibleSyllableCell(rows) <==>
      || ConvertColumn(Column(SyllableRows(rows), 0)).Err?
      || ConvertColumn(Column(SyllableRows(rows), 1)).Err?
      || ConvertColumn(Column(SyllableRows(rows), 2)).Err?
      || ConvertColumn(Column(SyllableRows(rows), 3)).Err?
  {
    var kept := SyllableRows(rows);
    if HasUnconvertibleSyllableCell(rows) {
      var i, k :| 0 <= i < |rows| && 0 <= k < 4 && rows[i].kind == SyllableType && Unconvertible(CellOf(rows[i], k));
      var j :| 0 <= j < |kept| && kept[j] == rows[i];
      assert Unconvertible(Column(kept, k)[j]);
    }
    if exists k :: 0 <= k < 4 && ConvertColumn(Column(kept, k)).Err? {
      var k :| 0 <= k < 4 && ConvertColumn(Column(kept, k)).Err?;
      var j :| 0 <= j < |kept| && Unconvertible(Column(kept, k)[j]);
      KeptRowsComeFromRows(rows, j);
    }
  }

  /** Every kept row is a syllable row of the table. */
  lemma {:induction false} KeptRowsComeFromRows(rows: seq<SegmentRow>, j: nat)
    requires j < |SyllableRows(rows)|
    ensures exists i :: 0 <= i < |rows| && rows[i] == SyllableRows(rows)[j]
    decreases |rows|
  {
    var init := rows[..|rows| - 1];
    if j < |SyllableRows(init)| {
      KeptRowsComeFromRows(init, j);
      var i :| 0 <= i < |init| && init[i] == SyllableRows(init)[j];
      assert rows[i] == init[i];
    } else {
      assert SyllableRows(rows)[j] == rows[|rows| - 1];
    }
  }

  /** Filtering, converting and dropping NaNs column by column gives the
      one-pass reference values. */
  lemma {:induction false} ValuesOfConverted(rows: seq<SegmentRow>, k: nat, xs: seq<Num>)
    requires k < 4
    requires ConvertColumn(Column(SyllableRows(rows), k)) == Ok(xs)
    ensures Defined(xs) == SyllableValues(rows, k)
    decreases |rows|
  {
    if |rows| == 0 {
    } else {
      var init := rows[..|rows| - 1];
      var last := rows[|rows| - 1];
      var keptInit := SyllableRows(init);
      var cInit := Column(keptInit, k);
      if last.kind == SyllableType {
        assert SyllableRows(rows) == keptInit + [last];
        var cells := Column(SyllableRows(rows), k);
        assert cells[..|cells| - 1] == cInit;
        var prefix := ConvertColumn(cInit);
        assert prefix.Ok? && xs == prefix.value + [xs[|xs| - 1]];
        ValuesOfConverted(init, k, prefix.value);
        assert xs[..|xs| - 1] == prefix.value;
      } else {
        assert SyllableRows(rows) == keptInit;
        ValuesOfConverted(init, k, xs);
      }
    }
  }

  /** Rows that do not mark a syllable never change the segment features,
      whatever their frequencies, wherever they stand in the table. */
  lemma NonSyllableRowIgnored(a: seq<SegmentRow>, junk: SegmentRow, b: seq<SegmentRow>, lib: Stats)
    requires junk.kind != SyllableType
    ensures SegmentAnalysis(a + [junk] + b, lib) == SegmentAnalysis(a + b, lib)
  {
    SyllableRowsAppend(a + [junk], b);
    SyllableRowsAppend(a, [junk]);
    SyllableRowsAppend(a, b);
    assert SyllableRows([junk]) == [] by {
      assert [junk][..0] == [];
    }
    assert SyllableRows(a + [junk] + b) == SyllableRows(a + b);
    SameKeptSameAnalysis(a + [junk] + b, a + b, lib);
  }

  /** The segment features depend on the kept rows only. */
  lemma SameKeptSameAnalysis(rows: seq<SegmentRow>, other: seq<SegmentRow>, lib: Stats)
    requires SyllableRows(rows) == SyllableRows(other)
    ensures SegmentAnalysis(rows, lib) == SegmentAnalysis(other, lib)
  {
  }

  /** Three syllable rows with F1 = 400, 420, 440 beside two other rows with
      extreme values, an undefined entry and text that is not a number:
      only the syllable rows reach the statistics, the undefined F2 entry is
      skipped, and the text in a dropped row raises nothing. */
  lemma SyllableRowsOnlyExample(lib: Stats)
    ensures SegmentAnalysis(ExampleRows(), lib) == Ok(SegmentFeatures(Val(20.0),
        Coefficient(lib, [400.0, 420.0, 440.0]),
        Coefficient(lib, [1500.0, 1600.0]),
        Coefficient(lib, [2500.0, 2600.0, 2700.0])))
  {
    ExampleConvertible();
    ExampleValues();
    ExampleRange();
  }

  lemma ExampleConvertible()
    ensures !HasUnconvertibleSyllableCell(ExampleRows())
  {
    var rows := ExampleRows();
    forall i, k | 0 <= i < |rows| && 0 <= k < 4 && rows[i].kind == SyllableType
      ensures !Unconvertible(CellOf(rows[i], k))
    {
      assert i == 0 || i == 2 || i == 4;
    }
  }

  lemma ExampleRange()
    ensures Max([120.0, 130.0, 110.0]) == Val(130.0) && Min([120.0, 130.0, 110.0]) == Val(110.0)
  {
    var f0 := [120.0, 130.0, 110.0];
    assert f0[..2][..1][..0] == [];
  }

  function ExampleRows(): seq<SegmentRow>
  {
    [ SegmentRow("?", Number(120.0), Number(400.0), Number(1500.0), Number(2500.0)),
      SegmentRow("", Number(5000.0), Number(99999.0), Text(UndefinedText), Text("junk")),
      SegmentRow("?", Number(130.0), Number(420.0), Number(1600.0), Number(2600.0)),
      SegmentRow("sounding", Number(1.0), Number(0.0), Number(0.0), Number(0.0)),
      SegmentRow("?", Number(110.0), Number(440.0), Text(UndefinedText), Number(2700.0)) ]
  }

  lemma ExampleValues()
    ensures SyllableValues(ExampleRows(), 0) == [120.0, 130.0, 110.0]
    ensures SyllableValues(ExampleRows(), 1) == [400.0, 420.0, 440.0]
    ensures SyllableValues(ExampleRows(), 2) == [1500.0, 1600.0]
    ensures SyllableValues(ExampleRows(), 3) == [2500.0, 2600.0, 2700.0]
  {
    var rows := ExampleRows();
    var p1 := [rows[0]];
    var p2 := p1 + [rows[1]];
    var p3 := p2 + [rows[2]];
    var p4 := p3 + [rows[3]];
    assert rows == p4 + [rows[4]];
    forall k | 0 <= k < 4
      ensures SyllableValues(p1, k) == [CellOf(rows[0], k).value]
    {
      SyllableValuesSnoc([], rows[0], k);
    }
    forall k | 0 <= k < 4
      ensures SyllableValues(p2, k) == SyllableValues(p1, k)
      ensures SyllableValues(p3, k) == SyllableValues(p2, k)
        + (if CellOf(rows[2], k).Number? then [CellOf(rows[2], k).value] else [])
      ensures SyllableValues(p4, k) == SyllableValues(p3, k)
      ensures SyllableValues(rows, k) == SyllableValues(p4, k)
        + (if CellOf(rows[4], k).Number? then [CellOf(rows[4], k).value] else [])
    {
      SyllableValuesSnoc(p1, rows[1], k);
      SyllableValuesSnoc(p2, rows[2], k);
      SyllableValuesSnoc(p3, rows[3], k);
      SyllableValuesSnoc(p4, rows[4], k);
    }
  }

  lemma SyllableValuesSnoc(rows: seq<SegmentRow>, r: SegmentRow, k: nat)
    requires k < 4
    ensures SyllableValues(rows + [r], k) == SyllableValues(rows, k)
      + (if r.kind == SyllableType && CellOf(r, k).Number? then [CellOf(r, k).value] else [])
  {
    assert (rows + [r])[..|rows|] == rows;
  }

  /** The pitch range is never negative. */
  lemma RangeNonNegative(xs: seq<real>)
    ensures var r := Sub(Max(xs), Min(xs)); r.NaN? || r.v >= 0.0
  {
    if xs != [] {
      assert Min(xs).v <= xs[0] <= Max(xs).v;
    }
  }

  // ---------------------------------------------------------------------
  // The summary table

  /** `str.isspace` for one character, as `str.strip` uses it. */
  predicate IsSpace(c: char)
  {
    c == ' ' || ('\t' <= c <= '\r') || ('\U{1c}' <= c <= '\U{1f}') || c == '\U{85}' || c == '\U{a0}'
    || c == '\U{1680}' || ('\U{2000}' <= c <= '\U{200a}') || c == '\U{2028}' || c == '\U{2029}'
    || c == '\U{202f}' || c == '\U{205f}' || c == '\U{3000}'
  }

  /** `s` without its leading whitespace. */
  function StripLeft(s: string): string
    decreases |s|
  {
    if |s| > 0 && IsSpace(s[0]) then StripLeft(s[1..]) else s
  }

  /** `s` without its trailing whitespace. */
  function StripRight(s: string): string
    decreases |s|
  {
    if |s| > 0 && IsSpace(s[|s| - 1]) then StripRight(s[..|s| - 1]) else s
  }

  /** `str.strip`: the text without leading and trailing whitespace. */
  function Strip(s: string): string
  {
    StripLeft(StripRight(s))
  }

  lemma {:induction false} StripLeftShape(s: string)
    ensures var r := StripLeft(s);
      |r| <= |s| && r == s[|s| - |r|..] && (r == [] || !IsSpace(r[0]))
      && forall i :: 0 <= i < |s| - |r| ==> IsSpace(s[i])
    decreases |s|
  {
    if |s| > 0 && IsSpace(s[0]) {
      StripLeftShape(s[1..]);
    }
  }

  lemma {:induction false} StripRightShape(s: string)
    ensures var r := StripRight(s);
      |r| <= |s| && r == s[..|r|] && (r == [] || !IsSpace(r[|r| - 1]))
      && forall i :: |r| <= i < |s| ==> IsSpace(s[i])
    decreases |s|
  {
    if |s| > 0 && IsSpace(s[|s| - 1]) {
      StripRightShape(s[..|s| - 1]);
    }
  }

  /** `Strip(s)` is the slice of `s` between its leading and its trailing
      whitespace: it neither starts nor ends with whitespace, and only
      whitespace was cut. `a` is the number of leading characters cut. */
  lemma StripShape(s: string, a: int)
    requires a == |StripRight(s)| - |Strip(s)|
    ensures var r := Strip(s);
      0 <= a && a + |r| <= |s| && r == s[a..a + |r|]
      && (forall i :: 0 <= i < a ==> IsSpace(s[i]))
      && (forall i :: a + |r| <= i < |s| ==> IsSpace(s[i]))
    ensures Strip(s) == [] || (!IsSpace(Strip(s)[0]) && !IsSpace(Strip(s)[|Strip(s)| - 1]))
  {
    var t := StripRight(s);
    StripRightShape(s);
    StripLeftShape(t);
    var r := StripLeft(t);
    assert r == t[a..];
    assert t == s[..|t|];
    assert t[a..] == s[a..|t|];
    forall i | 0 <= i < a ensures IsSpace(s[i]) {
      assert s[i] == t[i];
    }
  }

  /** Stripping twice strips no more than once. */
  lemma StripIdempotent(s: string)
    ensures Strip(Strip(s)) == Strip(s)
  {
    StripShape(s, |StripRight(s)| - |Strip(s)|);
    var t := Strip(s);
    if t != [] {
      assert StripRight(t) == t;
      assert StripLeft(t) == t;
    }
  }

  /** The engine's name of the speech-rate column, after stripping. */
  const SpeechRateSource: string := "speechrate(nsyll/dur)"

  /** A column name after `columns.str.strip()` and the rename to
      "speechrate". */
  function NormalizeColumn(name: string): (r: string)
    ensures r == [] || (!IsSpace(r[0]) && !IsSpace(r[|r| - 1]))
    ensures r == "speechrate" <==> Strip(name) == SpeechRateSource || Strip(name) == "speechrate"
    ensures r != "speechrate" ==> r == Strip(name)
  {
    StripShape(name, |StripRight(name)| - |Strip(name)|);
    var s := Strip(name);
    if s == SpeechRateSource then "speechrate" else s
  }

  /** Normalising a normalised name changes nothing. */
  lemma NormalizeColumnIdempotent(name: string)
    ensures NormalizeColumn(NormalizeColumn(name)) == NormalizeColumn(name)
  {
    var r := NormalizeColumn(name);
    if r == "speechrate" {
      StripSpeechRate();
    } else {
      StripIdempotent(name);
    }
  }

  lemma StripSpeechRate()
    ensures Strip("speechrate") == "speechrate"
  {
    assert StripRight("speechrate") == "speechrate";
  }

  /** The summary table: its header and its rows of numbers. */
  datatype SummaryTable = SummaryTable(columns: seq<string>, rows: seq<seq<Num>>)

  /** The position of the first column called `name`; KeyError if none. */
  function ColumnIndex(columns: seq<string>, name: string): (r: Result<nat>)
    ensures r.Err? <==> name !in columns
    ensures r.Err? ==> r.error == KeyError(name)
    ensures r.Ok? ==> r.value < |columns| && columns[r.value] == name
    ensures r.Ok? ==> forall j :: 0 <= j < r.value ==> columns[j] != name
    decreases |columns|
  {
    if |columns| == 0 then Err(KeyError(name))
    else if columns[0] == name then Ok(0)
    else
      match ColumnIndex(columns[1..], name)
      case Err(e) => Err(e)
      case Ok(k) => Ok(k + 1)
  }

  /** A field of a row; a row shorter than the header reads as NaN, as
      pandas pads it. */
  function CellAt(row: seq<Num>, k: nat): Num
  {
    if k < |row| then row[k] else NaN
  }

  /** The per-file part of the summary: speech rate and pause count. */
  datatype SummaryFeatures = SummaryFeatures(speechrate: Num, pauses: Num)

  /** The summary half of `_analysis_from_praat_script`: normalise the
      column names, form `pauses = npause + nrFP`, keep "speechrate" and
      "pauses". A missing column raises KeyError, in the order in which the
      columns are used. */
  function SummaryAnalysis(t: SummaryTable): (r: Result<seq<SummaryFeatures>>)
    ensures var cols := NormalizedColumns(t.columns);
      r.Ok? <==> "npause" in cols && "nrFP" in cols && "speechrate" in cols
    ensures r.Ok? ==> |r.value| == |t.rows|
    ensures r.Ok? ==> var cols := NormalizedColumns(t.columns);
      forall i :: 0 <= i < |t.rows| ==>
        r.value[i].pauses == Add(CellAt(t.rows[i], ColumnIndex(cols, "npause").value),
                                 CellAt(t.rows[i], ColumnIndex(cols, "nrFP").value))
        && r.value[i].speechrate == CellAt(t.rows[i], ColumnIndex(cols, "speechrate").value)
  {
    var cols := NormalizedColumns(t.columns);
    var np := ColumnIndex(cols, "npause");
    var fp := ColumnIndex(cols, "nrFP");
    var sr := ColumnIndex(cols, "speechrate");
    if np.Err? then Err(np.error)
    else if fp.Err? then Err(fp.error)
    else if sr.Err? then Err(sr.error)
    else
      Ok(seq(|t.rows|, i requires 0 <= i < |t.rows| =>
        SummaryFeatures(CellAt(t.rows[i], sr.value),
                        Add(CellAt(t.rows[i], np.value), CellAt(t.rows[i], fp.value)))))
  }

  function NormalizedColumns(columns: seq<string>): (r: seq<string>)
    ensures |r| == |columns| && forall i :: 0 <= i < |columns| ==> r[i] == NormalizeColumn(columns[i])
  {
    seq(|columns|, i requires 0 <= i < |columns| => NormalizeColumn(columns[i]))
  }

  /** With 3 pauses and 1 filled pause the pause count is 4; the header
      names are matched after stripping and renaming. */
  lemma PausesExample()
    ensures SummaryAnalysis(SummaryTable(["npause ", "nrFP", " speechrate(nsyll/dur)"],
      [[Val(3.0), Val(1.0), Val(4.25)]])) == Ok([SummaryFeatures(Val(4.25), Val(4.0))])
  {
    var t := SummaryTable(["npause ", "nrFP", " speechrate(nsyll/dur)"], [[Val(3.0), Val(1.0), Val(4.25)]]);
    var cols := NormalizedColumns(t.columns);
    ExampleHeader();
    ExampleColumnIndices();
    assert "npause" in cols && "nrFP" in cols && "speechrate" in cols by {
      assert cols[0] == "npause" && cols[1] == "nrFP" && cols[2] == "speechrate";
    }
    var r := SummaryAnalysis(t);
    var row := t.rows[0];
    assert r.value[0].pauses == Add(CellAt(row, 0), CellAt(row, 1));
    assert r.value[0].speechrate == CellAt(row, 2);
    assert r.value == [r.value[0]];
  }

  lemma ExampleColumnIndices()
    ensures ColumnIndex(["npause", "nrFP", "speechrate"], "npause") == Ok(0)
    ensures ColumnIndex(["npause", "nrFP", "speechrate"], "nrFP") == Ok(1)
    ensures ColumnIndex(["npause", "nrFP", "speechrate"], "speechrate") == Ok(2)
  {
    var cols: seq<string> := ["npause", "nrFP", "speechrate"];
    assert cols[1..] == ["nrFP", "speechrate"];
    assert cols[1..][1..] == ["speechrate"];
  }

  lemma ExampleHeader()
    ensures NormalizedColumns(["npause ", "nrFP", " speechrate(nsyll/dur)"]) == ["npause", "nrFP", "speechrate"]
  {
    var r := NormalizedColumns(["npause ", "nrFP", " speechrate(nsyll/dur)"]);
    StripTrailingBlank();
    StripLeadingBlank();
    StripNoBlank();
    assert r[0] == "npause" && r[1] == "nrFP" && r[2] == "speechrate";
  }

  lemma StripNoBlank()
    ensures Strip("nrFP") == "nrFP"
  {
    assert StripRight("nrFP") == "nrFP";
  }

  lemma StripTrailingBlank()
    ensures Strip("npause ") == "npause"
  {
    assert "npause "[..6] == "npause";
    assert StripRight("npause ") == StripRight("npause") == "npause";
  }

  lemma StripLeadingBlank()
    ensures Strip(" speechrate(nsyll/dur)") == SpeechRateSource
  {
    assert " speechrate(nsyll/dur)"[1..] == SpeechRateSource;
    assert StripLeft(" speechrate(nsyll/dur)") == StripLeft(SpeechRateSource) == SpeechRateSource;
  }

  // ---------------------------------------------------------------------
  // The TextGrid

  datatype Interval = Interval(start: real, stop: real, kind: string)
  datatype Tier = Tier(name: string, entries: seq<Interval>)

  /** A TextGrid as the reader returns it with empty intervals included. */
  datatype TextGrid = TextGrid(tiers: seq<Tier>)

  /** The position of the tier holding the syllables (`tierNames[2]`). */
  const SyllableTier: nat := 2

  /** The labels that mark a syllable interval. */
  predicate IsSyllableLabel(kind: string)
  {
    kind == "syll" || kind == ""
  }

  /** Reference definition: `end - start` of every syllable interval, in
      tier order. */
  function SyllableDurations(entries: seq<Interval>): seq<real>
    decreases |entries|
  {
    if |entries| == 0 then []
    else
      var last := entries[|entries| - 1];
      SyllableDurations(entries[..|entries| - 1])
        + (if IsSyllableLabel(last.kind) then [last.stop - last.start] else [])
  }

  /** `diff = stop - start` formed over the three collected columns, then
      restricted to the rows whose type is a syllable label. */
  function DurationsOfColumns(starts: seq<real>, ends: seq<real>, labels: seq<string>): seq<real>
    requires |starts| == |ends| == |labels|
    decreases |starts|
  {
    if |starts| == 0 then []
    else
      var n := |starts| - 1;
      DurationsOfColumns(starts[..n], ends[..n], labels[..n])
        + (if IsSyllableLabel(labels[n]) then [ends[n] - starts[n]] else [])
  }

  /** What `_analyze_text_grid` computes: `log10` of the sample standard
      deviation of the syllable durations of the third tier. A grid with
      fewer than three tiers raises IndexError. */
  function SdSyllDur(tg: TextGrid, lib: Stats): (r: Result<Num>)
    ensures r.Err? <==> |tg.tiers| <= SyllableTier
    ensures r.Err? ==> r.error.IndexError?
    ensures r.Ok? ==> r.value == Log10(lib, lib.std(SyllableDurations(tg.tiers[SyllableTier].entries)))
  {
    if |tg.tiers| <= SyllableTier then Err(IndexError("list index out of range"))
    else Ok(Log10(lib, lib.std(SyllableDurations(tg.tiers[SyllableTier].entries))))
  }

  /** The append loop of `_analyze_text_grid`: one list each of the
      intervals' start times, end times and labels. */
  method CollectColumns(tier: Tier) returns (starts: seq<real>, ends: seq<real>, labels: seq<string>)
    ensures |starts| == |ends| == |labels| == |tier.entries|
    ensures forall i :: 0 <= i < |tier.entries| ==>
      starts[i] == tier.entries[i].start && ends[i] == tier.entries[i].stop && labels[i] == tier.entries[i].kind
  {
    starts, ends, labels := [], [], [];
    var i := 0;
    while i < |tier.entries|
      invariant 0 <= i <= |tier.entries|
      invariant |starts| == |ends| == |labels| == i
      invariant forall j :: 0 <= j < i ==>
        starts[j] == tier.entries[j].start && ends[j] == tier.entries[j].stop && labels[j] == tier.entries[j].kind
    {
      var interval := tier.entries[i];
      starts := starts + [interval.start];
      ends := ends + [interval.stop];
      labels := labels + [interval.kind];
      i := i + 1;
    }
  }

  /** The collected columns give the reference durations. */
  lemma {:induction false} DurationsOfCollected(entries: seq<Interval>, starts: seq<real>, ends: seq<real>, labels: seq<string>)
    requires |starts| == |ends| == |labels| == |entries|
    requires forall i :: 0 <= i < |entries| ==>
      starts[i] == entries[i].start && ends[i] == entries[i].stop && labels[i] == entries[i].kind
    ensures DurationsOfColumns(starts, ends, labels) == SyllableDurations(entries)
    decreases |entries|
  {
    if |entries| > 0 {
      var n := |entries| - 1;
      DurationsOfCollected(entries[..n], starts[..n], ends[..n], labels[..n]);
    }
  }

  /** `_analyze_text_grid` on a grid the reader has returned. */
  method AnalyzeTextGrid(tg: TextGrid, lib: Stats) returns (r: Result<Num>)
    ensures r == SdSyllDur(tg, lib)
  {
    if |tg.tiers| <= SyllableTier {
      return Err(IndexError("list index out of range"));
    }
    var tier := tg.tiers[SyllableTier];
    var starts, ends, labels := CollectColumns(tier);
    DurationsOfCollected(tier.entries, starts, ends, labels);
    r := Ok(Log10(lib, lib.std(DurationsOfColumns(starts, ends, labels))));
  }

  lemma {:induction false} SyllableDurationsAppend(a: seq<Interval>, b: seq<Interval>)
    ensures SyllableDurations(a + b) == SyllableDurations(a) + SyllableDurations(b)
    decreases |b|
  {
    if |b| == 0 {
      assert a + b == a;
    } else {
      var init := b[..|b| - 1];
      assert (a + b)[..|a + b| - 1] == a + init;
      SyllableDurationsAppend(a, init);
    }
  }

  /** Tiers other than the third are never read: two grids that agree on
      it give the same result. */
  lemma OnlyThirdTierRead(g: TextGrid, h: TextGrid, lib: Stats)
    requires |g.tiers| > SyllableTier && |h.tiers| > SyllableTier
    requires g.tiers[SyllableTier].entries == h.tiers[SyllableTier].entries
    ensures SdSyllDur(g, lib) == SdSyllDur(h, lib)
  {
  }

  /** Only the third tier counts, and in it only the syllable intervals:
      another interval, inserted anywhere, changes nothing. */
  lemma NonSyllableIntervalIgnored(a: seq<Interval>, other: Interval, b: seq<Interval>)
    requires !IsSyllableLabel(other.kind)
    ensures SyllableDurations(a + [other] + b) == SyllableDurations(a + b)
  {
    SyllableDurationsAppend(a + [other], b);
    SyllableDurationsAppend(a, [other]);
    SyllableDurationsAppend(a, b);
    assert SyllableDurations([other]) == [] by {
      assert [other][..0] == [];
    }
  }

  // ---------------------------------------------------------------------
  // The two scores

  /** The seven features the scores are computed from. */
  datatype Features = Features(
    speechrate: Num, pauses: Num, rangef0: Num, sdsylldur: Num,
    coeff1: Num, coeff2: Num, coeff3: Num)

  /** The features in formula order. */
  function FeatureList(f: Features): seq<Num>
  {
    [f.speechrate, f.pauses, f.rangef0, f.sdsylldur, f.coeff1, f.coeff2, f.coeff3]
  }

  /** Some feature is NaN. */
  predicate HasNaN(f: Features)
  {
    f.speechrate.NaN? || f.pauses.NaN? || f.rangef0.NaN? || f.sdsylldur.NaN?
    || f.coeff1.NaN? || f.coeff2.NaN? || f.coeff3.NaN?
  }

  /** The comprehensibility formula, term by term as the source writes it. */
  function Comprehensibility(f: Features): (r: Num)
    ensures r.NaN? <==> HasNaN(f)
  {
    Add(Add(Add(Add(Add(Add(Add(Val(2.138),
      Scale(2.701, f.speechrate)),
      Scale(0.015, f.pauses)),
      Scale(-0.020, f.rangef0)),
      Scale(3.821, f.sdsylldur)),
      Scale(-1.414, f.coeff1)),
      Scale(-5.549, f.coeff2)),
      Scale(3.228, f.coeff3))
  }

  /** The native-likeness formula, term by term as the source writes it. */
  function Nativelikeness(f: Features): (r: Num)
    ensures r.NaN? <==> HasNaN(f)
  {
    Add(Add(Add(Add(Add(Add(Add(Val(-0.537),
      Scale(2.654, f.speechrate)),
      Scale(-0.001, f.pauses)),
      Scale(-0.019, f.rangef0)),
      Scale(3.170, f.sdsylldur)),
      Scale(-0.622, f.coeff1)),
      Scale(-8.016, f.coeff2)),
      Scale(3.575, f.coeff3))
  }

  /** The coefficient sets of the two models, in formula order. */
  const ComprehensibilityIntercept: real := 2.138
  const ComprehensibilityWeights: seq<real> := [2.701, 0.015, -0.020, 3.821, -1.414, -5.549, 3.228]
  const NativelikenessIntercept: real := -0.537
  const NativelikenessWeights: seq<real> := [2.654, -0.001, -0.019, 3.170, -0.622, -8.016, 3.575]

  /** Reference definition of a linear model over floats: NaN as soon as one
      input is NaN, otherwise intercept plus the dot product. */
  function Linear(intercept: real, weights: seq<real>, xs: seq<Num>): Num
    requires |weights| == |xs|
  {
    if forall i :: 0 <= i < |xs| ==> xs[i].Val? then Val(intercept + Dot(weights, xs, |xs|)) else NaN
  }

  /** Sum of the first n products of a weight with its input, NaN inputs
      counting as zero (Linear has already ruled them out). */
  function Dot(weights: seq<real>, xs: seq<Num>, n: nat): real
    requires n <= |weights| == |xs|
  {
    if n == 0 then 0.0
    else Dot(weights, xs, n - 1) + weights[n - 1] * (if xs[n - 1].Val? then xs[n - 1].v else 0.0)
  }

  /** Both scores are the linear models of the seven features: a fixed
      intercept plus constant weights, with no branching beyond NaN
      propagation. */
  lemma ScoresAreLinear(f: Features)
    ensures Comprehensibility(f) == Linear(ComprehensibilityIntercept, ComprehensibilityWeights, FeatureList(f))
    ensures Nativelikeness(f) == Linear(NativelikenessIntercept, NativelikenessWeights, FeatureList(f))
  {
    var xs := FeatureList(f);
    if forall i :: 0 <= i < |xs| ==> xs[i].Val? {
      assert xs[0].Val? && xs[1].Val? && xs[2].Val? && xs[3].Val? && xs[4].Val? && xs[5].Val? && xs[6].Val?;
      DotSeven(ComprehensibilityWeights, xs);
      DotSeven(NativelikenessWeights, xs);
    } else {
      var i :| 0 <= i < |xs| && xs[i].NaN?;
    }
  }

  lemma DotSeven(w: seq<real>, xs: seq<Num>)
    requires |w| == |xs| == 7
    requires forall i :: 0 <= i < 7 ==> xs[i].Val?
    ensures Dot(w, xs, 7) == w[0] * xs[0].v + w[1] * xs[1].v + w[2] * xs[2].v + w[3] * xs[3].v
                           + w[4] * xs[4].v + w[5] * xs[5].v + w[6] * xs[6].v
  {
    assert Dot(w, xs, 1) == w[0] * xs[0].v;
    assert Dot(w, xs, 3) == Dot(w, xs, 1) + w[1] * xs[1].v + w[2] * xs[2].v;
    assert Dot(w, xs, 5) == Dot(w, xs, 3) + w[3] * xs[3].v + w[4] * xs[4].v;
    assert Dot(w, xs, 7) == Dot(w, xs, 5) + w[5] * xs[5].v + w[6] * xs[6].v;
  }

  /** A score is NaN exactly when one of the seven features is. */
  lemma ScoresNaNIff(f: Features)
    ensures Comprehensibility(f).NaN? <==> exists i :: 0 <= i < 7 && FeatureList(f)[i].NaN?
    ensures Nativelikeness(f).NaN? <==> exists i :: 0 <= i < 7 && FeatureList(f)[i].NaN?
  {
    ScoresAreLinear(f);
  }

  /** The scores for literal feature values are the two formulas evaluated
      by hand. */
  lemma LiteralScores()
    ensures var f := Features(Val(4.5), Val(2.0), Val(50.0), Val(-1.2), Val(-0.3), Val(-0.25), Val(-0.1));
      Comprehensibility(f) == Val(10.22595) && Nativelikeness(f) == Val(8.4831)
  {
  }

  /** `PraatScore(comp_score, native_score, *partial_data)`: the two scores
      first, then the seven features in formula order. */
  function Score(f: Features): (r: PraatScore)
    ensures AllData(r) == [Comprehensibility(f), Nativelikeness(f)] + FeatureList(f)
    ensures FeaturesOf(r) == f
    ensures r.comprehensibility == Comprehensibility(f) && r.nativelikeness == Nativelikeness(f)
  {
    var args := [Comprehensibility(f), Nativelikeness(f)] + FeatureList(f);
    AllDataRoundTrip(PraatScore(NaN, NaN, NaN, NaN, NaN, NaN, NaN, NaN, NaN), args);
    var r := FromPositional(args).value;
    assert AllData(r)[2..] == FeatureList(f);
    r
  }

  /** The features a record was filled with. */
  function FeaturesOf(s: PraatScore): Features
  {
    Features(s.speechrate, s.pauses, s.rangef0, s.sdsylldur, s.coeff1, s.coeff2, s.coeff3)
  }

  // ---------------------------------------------------------------------
  // The whole analysis

  /** The tables the engine prints for one file specification: the
      per-segment table and the summary table. */
  datatype PraatTables = PraatTables(segments: seq<SegmentRow>, summary: SummaryTable)

  /** What the analysis reads from outside: the working directory, the
      engine's output for a file specification, the TextGrid files that
      exist, and the numeric routines. */
  datatype Environment = Environment(
    cwd: AbsolutePath,
    praat: string -> PraatTables,
    textGrids: map<Path, TextGrid>,
    lib: Stats)

  /** `pd.concat([df2, df3, df1], axis=1)` read at row 0: the first summary
      row (NaN when there is none) beside the TextGrid and segment features. */
  function Combine(summary: seq<SummaryFeatures>, sdsylldur: Num, seg: SegmentFeatures): (f: Features)
    ensures summary == [] ==> f.speechrate.NaN? && f.pauses.NaN?
    ensures summary != [] ==> f.speechrate == summary[0].speechrate && f.pauses == summary[0].pauses
    ensures f.sdsylldur == sdsylldur
    ensures f.rangef0 == seg.rangef0 && f.coeff1 == seg.coeff1 && f.coeff2 == seg.coeff2 && f.coeff3 == seg.coeff3
  {
    var speechrate := if summary == [] then NaN else summary[0].speechrate;
    var pauses := if summary == [] then NaN else summary[0].pauses;
    Features(speechrate, pauses, seg.rangef0, sdsylldur, seg.coeff1, seg.coeff2, seg.coeff3)
  }

  /** `generate_praat_score_japanese_impl`: run the engine on the file
      specification, reduce both tables, read the TextGrid next to the
      audio file, and fill the record. The errors are, in order, those of
      the segment table, of the summary table, of the TextGrid path, a
      missing TextGrid file and a TextGrid with too few tiers. */
  function GenerateJapanese(audio: PurePath, env: Environment): (r: Result<PraatScore>)
    ensures r.Ok? ==> r.value.comprehensibility == Comprehensibility(FeaturesOf(r.value))
    ensures r.Ok? ==> r.value.nativelikeness == Nativelikeness(FeaturesOf(r.value))
    ensures var tables := env.praat(FileSpec(audio, env.cwd));
      var seg := SegmentAnalysis(tables.segments, env.lib);
      var sum := SummaryAnalysis(tables.summary);
      var grid := TextGridPath(audio, env.cwd);
      r.Ok? <==> seg.Ok? && sum.Ok? && grid.Ok? && grid.value in env.textGrids
                 && |env.textGrids[grid.value].tiers| > SyllableTier
    ensures var tables := env.praat(FileSpec(audio, env.cwd));
      var seg := SegmentAnalysis(tables.segments, env.lib);
      var sum := SummaryAnalysis(tables.summary);
      var grid := TextGridPath(audio, env.cwd);
      r.Ok? ==> FeaturesOf(r.value) == Combine(sum.value, SdSyllDur(env.textGrids[grid.value], env.lib).value, seg.value)
    ensures var tables := env.praat(FileSpec(audio, env.cwd));
      var seg := SegmentAnalysis(tables.segments, env.lib);
      var sum := SummaryAnalysis(tables.summary);
      var grid := TextGridPath(audio, env.cwd);
      (seg.Err? ==> r == Err(seg.error))
      && (seg.Ok? && sum.Err? ==> r == Err(sum.error))
      && (seg.Ok? && sum.Ok? && grid.Err? ==> r == Err(grid.error))
      && (seg.Ok? && sum.Ok? && grid.Ok? && grid.value !in env.textGrids ==>
            r == Err(FileNotFound(ToString(grid.value))))
      && (seg.Ok? && sum.Ok? && grid.Ok? && grid.value in env.textGrids
          && |env.textGrids[grid.value].tiers| <= SyllableTier ==>
            r == Err(SdSyllDur(env.textGrids[grid.value], env.lib).error))
  {
    var tables := env.praat(FileSpec(audio, env.cwd));
    var seg :- SegmentAnalysis(tables.segments, env.lib);
    var summary :- SummaryAnalysis(tables.summary);
    var gridPath :- TextGridPath(audio, env.cwd);
    if gridPath !in env.textGrids then Err(FileNotFound(ToString(gridPath)))
    else
      var sd :- SdSyllDur(env.textGrids[gridPath], env.lib);
      Ok(Score(Combine(summary, sd, seg)))
  }

  /** End to end: whatever the engine reports for non-syllable segments,
      the record's pitch range and formant coefficients come from the three
      syllable rows of the example table alone. */
  lemma GenerateJapaneseSyllableRowsOnly(audio: PurePath, env: Environment)
    ensures env.praat(FileSpec(audio, env.cwd)).segments == ExampleRows() && GenerateJapanese(audio, env).Ok? ==>
      var s := GenerateJapanese(audio, env).value;
      s.rangef0 == Val(20.0)
      && s.coeff1 == Coefficient(env.lib, [400.0, 420.0, 440.0])
      && s.coeff2 == Coefficient(env.lib, [1500.0, 1600.0])
      && s.coeff3 == Coefficient(env.lib, [2500.0, 2600.0, 2700.0])
  {
    SyllableRowsOnlyExample(env.lib);
  }
}
