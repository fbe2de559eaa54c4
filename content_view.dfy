/** Row bookkeeping of the file table (`src/acat/ui/content_view.py`).

    The table keeps two lists side by side: the Python list `data` of
    per-file records, and the rows of the Qt table widget, of which the model
    keeps what the bookkeeping depends on (the texts of the score cells and
    the identity of each row's action widget). Message boxes, dialogs and
    the file system are not modelled as such: a dialog's reply and the
    existence of a path arrive as parameters. Workers that the table starts
    are recorded in `pending`; their execution is a separate step. */
module ContentView {
  import opened Numbers
  import opened Paths
  import opened AudioFile
  import opened JapaneseScoring
  import opened JudgeScore

  /** The widget that holds a row's Judge, Info and Delete buttons. Only its
      identity matters: a button's handler finds its row by it. */
  class ActionWidget {
    constructor ()
    {
    }
  }

  /** What one row of the Qt table shows: file name, the two score texts,
      and the action widget of the last column. */
  datatype RowCells = RowCells(fileName: string, compText: ScoreText, natText: ScoreText, action: ActionWidget)

  /** A worker the table has handed to the thread pool: the row index it
      was started for and the record it analyses. */
  datatype Job = Job(rowIndex: int, target: AudioFileInfo)

  /** What the file system answers about a path: `Path.exists()` (true for
      directories as well) and `Path.is_dir()`. */
  datatype FileSystem = FileSystem(pathExists: Path -> bool, isDir: Path -> bool)

  /** What Python says when a list is indexed with `None`. */
  const NoneIndexMessage: string := "list indices must be integers or slices, not NoneType"

  /** How a request to judge a row ends: a worker was started, the path is
      missing, the path is a directory, the user declined to reanalyse, or
      an exception escaped. */
  datatype JudgeOutcome = Started | NoSuchFile | IsDirectory | Declined | Raised(error: PyError)

  // ---------------------------------------------------------------------
  // List operations with Python's semantics

  /** The position Python's `lst[i]` reads in a list of length `n`: negative
      indices count from the end; `None` stands for IndexError. */
  function PyIndex(i: int, n: nat): (r: Option<nat>)
    ensures r.Some? <==> -(n as int) <= i < n
    ensures r.Some? ==> r.value < n
    ensures r.Some? && i >= 0 ==> r.value == i
    ensures r.Some? && i < 0 ==> r.value + (-i) == n
  {
    if 0 <= i < n then Some(i)
    else if -(n as int) <= i < 0 then Some(n + i)
    else None
  }

  /** Index -1 reads the last element: a vanished widget, whose row index is
      -1, acts on the last row. */
  lemma MinusOneIsLast(n: nat)
    requires n > 0
    ensures PyIndex(-1, n) == Some(n - 1)
  {
  }

  /** Two indices read the same element only when they are equal or differ
      by the length of the list. */
  lemma PyIndexAliases(i: int, j: int, n: nat)
    requires PyIndex(i, n).Some? && PyIndex(i, n) == PyIndex(j, n)
    ensures i == j || i - j == n || j - i == n
  {
  }

  /** The list without element `k` (`lst.pop(k)`). */
  function RemoveAt<T>(s: seq<T>, k: nat): (r: seq<T>)
    requires k < |s|
    ensures |r| == |s| - 1
    ensures forall j :: 0 <= j < k ==> r[j] == s[j]
    ensures forall j :: k <= j < |r| ==> r[j] == s[j + 1]
  {
    s[..k] + s[k + 1..]
  }

  /** Removing an element loses exactly that element. */
  lemma RemoveAtMultiset<T>(s: seq<T>, k: nat)
    requires k < |s|
    ensures multiset(RemoveAt(s, k)) + multiset{s[k]} == multiset(s)
  {
    assert s == s[..k] + [s[k]] + s[k + 1..];
  }

  /** Removing the element just appended gives the list back: `add_row`
      followed by `delete_row` of the new last row leaves `data` as it was. */
  lemma RemoveAppended<T>(s: seq<T>, x: T)
    ensures RemoveAt(s + [x], |s|) == s
  {
    assert (s + [x])[..|s|] == s;
  }

  // ---------------------------------------------------------------------
  // Specification functions over the records

  /** The positions of the rows that already hold a score. */
  function AnalyzedIndices(rows: seq<AudioFileInfo>): (idx: seq<nat>)
    reads set i | 0 <= i < |rows| :: rows[i]
    ensures |idx| <= |rows|
    ensures forall j :: 0 <= j < |idx| ==> idx[j] < |rows|
    decreases |rows|
  {
    if |rows| == 0 then []
    else
      var n := |rows| - 1;
      AnalyzedIndices(rows[..n]) + (if rows[n].score.Some? then [n] else [])
  }

  /** One more row adds its own position exactly when it is analysed. */
  lemma AnalyzedIndicesSnoc(rows: seq<AudioFileInfo>)
    requires |rows| > 0
    ensures AnalyzedIndices(rows) ==
      AnalyzedIndices(rows[..|rows| - 1]) + (if rows[|rows| - 1].score.Some? then [|rows| - 1] else [])
  {
  }

  /** Every position listed is that of an analysed row. */
  lemma {:induction false} AnalyzedIndicesAnalysed(rows: seq<AudioFileInfo>)
    ensures forall j :: 0 <= j < |AnalyzedIndices(rows)| ==> rows[AnalyzedIndices(rows)[j]].score.Some?
    decreases |rows|
  {
    if |rows| > 0 {
      var n := |rows| - 1;
      var prefix := rows[..n];
      AnalyzedIndicesAnalysed(prefix);
      AnalyzedIndicesSnoc(rows);
      var prev := AnalyzedIndices(prefix);
      var idx := AnalyzedIndices(rows);
      forall j | 0 <= j < |idx| ensures rows[idx[j]].score.Some? {
        if j < |prev| {
          assert idx[j] == prev[j];
          assert rows[prev[j]] == prefix[prev[j]];
        }
      }
    }
  }

  /** The positions are listed in table order, each once. */
  lemma {:induction false} AnalyzedIndicesIncreasing(rows: seq<AudioFileInfo>)
    ensures forall j, k :: 0 <= j < k < |AnalyzedIndices(rows)| ==> AnalyzedIndices(rows)[j] < AnalyzedIndices(rows)[k]
    decreases |rows|
  {
    if |rows| > 0 {
      var n := |rows| - 1;
      var prefix := rows[..n];
      AnalyzedIndicesIncreasing(prefix);
      AnalyzedIndicesSnoc(rows);
      var prev := AnalyzedIndices(prefix);
      var idx := AnalyzedIndices(rows);
      forall j, k | 0 <= j < k < |idx| ensures idx[j] < idx[k] {
        assert idx[j] == prev[j];
        if k < |prev| {
          assert idx[k] == prev[k];
        }
      }
    }
  }

  /** Every analysed row's position is listed. */
  lemma {:induction false} AnalyzedIndicesComplete(rows: seq<AudioFileInfo>)
    ensures forall i :: 0 <= i < |rows| && rows[i].score.Some? ==> i in AnalyzedIndices(rows)
    decreases |rows|
  {
    if |rows| > 0 {
      var n := |rows| - 1;
      var prefix := rows[..n];
      AnalyzedIndicesComplete(prefix);
      AnalyzedIndicesSnoc(rows);
      var prev := AnalyzedIndices(prefix);
      var idx := AnalyzedIndices(rows);
      forall i | 0 <= i < |rows| && rows[i].score.Some? ensures i in idx {
        if i < n {
          assert prefix[i] == rows[i];
          assert i in prev;
        } else {
          assert idx[|idx| - 1] == n;
        }
      }
    }
  }

  /** `_check_if_analyzed()` without an index: the file names of the rows
      that hold a score, in table order. */
  function AnalyzedNames(rows: seq<AudioFileInfo>): (r: seq<string>)
    reads set i | 0 <= i < |rows| :: rows[i]
    ensures |r| == |AnalyzedIndices(rows)| <= |rows|
    ensures forall j :: 0 <= j < |r| ==> r[j] == rows[AnalyzedIndices(rows)[j]].FileName()
  {
    var idx := AnalyzedIndices(rows);
    seq(|idx|, j requires 0 <= j < |idx| => rows[idx[j]].FileName())
  }

  /** No name is listed exactly when no row holds a score, so the
      confirmation is skipped exactly then. */
  lemma AnalyzedNamesEmpty(rows: seq<AudioFileInfo>)
    ensures AnalyzedNames(rows) == [] <==> forall i :: 0 <= i < |rows| ==> rows[i].score.None?
  {
    var idx := AnalyzedIndices(rows);
    AnalyzedIndicesAnalysed(rows);
    AnalyzedIndicesComplete(rows);
    if idx != [] {
      assert rows[idx[0]].score.Some?;
    }
    forall i | 0 <= i < |rows| && rows[i].score.Some? ensures idx != [] {
      assert i in idx;
    }
  }

  /** What `_judge_row` does with an existing row: refuse a missing path,
      refuse a directory, otherwise start a worker. */
  function RowOutcome(row: AudioFileInfo, fs: FileSystem): (o: JudgeOutcome)
    ensures o == Started <==> Startable(row, fs)
    ensures o in {Started, NoSuchFile, IsDirectory}
  {
    if !fs.pathExists(row.path) then NoSuchFile
    else if fs.isDir(row.path) then IsDirectory
    else Started
  }

  /** Whether `_judge_row` starts a worker for the record. */
  predicate Startable(row: AudioFileInfo, fs: FileSystem)
  {
    fs.pathExists(row.path) && !fs.isDir(row.path)
  }

  /** The workers that judging rows 0 to n-1 in order starts: one per row
      whose path is an existing file, in row order. */
  function JobsUpTo(rows: seq<AudioFileInfo>, n: nat, fs: FileSystem): (r: seq<Job>)
    requires n <= |rows|
    ensures |r| <= n
  {
    if n == 0 then []
    else
      JobsUpTo(rows, n - 1, fs) + (if Startable(rows[n - 1], fs) then [Job(n - 1, rows[n - 1])] else [])
  }

  /** Going one row further adds that row's job exactly when it can start. */
  lemma JobsUpToStep(rows: seq<AudioFileInfo>, n: nat, fs: FileSystem)
    requires n < |rows|
    ensures JobsUpTo(rows, n + 1, fs) ==
      JobsUpTo(rows, n, fs) + (if RowOutcome(rows[n], fs) == Started then [Job(n, rows[n])] else [])
  {
  }

  /** Each worker is started for a row among the first n, analyses that
      row's record, and that record's path is an existing file. */
  lemma {:induction false} JobsUpToTargets(rows: seq<AudioFileInfo>, n: nat, fs: FileSystem)
    requires n <= |rows|
    ensures forall j :: 0 <= j < |JobsUpTo(rows, n, fs)| ==>
      var job := JobsUpTo(rows, n, fs)[j];
      0 <= job.rowIndex < n && job.target == rows[job.rowIndex] && Startable(job.target, fs)
  {
    if n > 0 {
      JobsUpToTargets(rows, n - 1, fs);
      var prev := JobsUpTo(rows, n - 1, fs);
      var r := JobsUpTo(rows, n, fs);
      forall j | 0 <= j < |r|
        ensures 0 <= r[j].rowIndex < n && r[j].target == rows[r[j].rowIndex] && Startable(r[j].target, fs)
      {
        if j < |prev| {
          assert r[j] == prev[j];
        }
      }
    }
  }

  /** The workers are started in row order, one row at most once. */
  lemma {:induction false} JobsUpToOrdered(rows: seq<AudioFileInfo>, n: nat, fs: FileSystem)
    requires n <= |rows|
    ensures forall j, k :: 0 <= j < k < |JobsUpTo(rows, n, fs)| ==>
      JobsUpTo(rows, n, fs)[j].rowIndex < JobsUpTo(rows, n, fs)[k].rowIndex
  {
    if n > 0 {
      JobsUpToOrdered(rows, n - 1, fs);
      JobsUpToTargets(rows, n - 1, fs);
      var prev := JobsUpTo(rows, n - 1, fs);
      var r := JobsUpTo(rows, n, fs);
      assert r == prev + (if Startable(rows[n - 1], fs) then [Job(n - 1, rows[n - 1])] else []);
      forall j, k | 0 <= j < k < |r| ensures r[j].rowIndex < r[k].rowIndex {
        assert r[j] == prev[j] && prev[j].rowIndex < n - 1;
        if k < |prev| {
          assert r[k] == prev[k] && prev[j].rowIndex < prev[k].rowIndex;
        } else {
          assert r[k].rowIndex == n - 1;
        }
      }
    }
  }

  /** Every row whose path is an existing file gets a worker. */
  lemma {:induction false} JobsUpToComplete(rows: seq<AudioFileInfo>, n: nat, fs: FileSystem, i: nat)
    requires i < n <= |rows| && Startable(rows[i], fs)
    ensures exists j :: 0 <= j < |JobsUpTo(rows, n, fs)| && JobsUpTo(rows, n, fs)[j] == Job(i, rows[i])
  {
    var r := JobsUpTo(rows, n, fs);
    if i == n - 1 {
      assert r[|r| - 1] == Job(i, rows[i]);
    } else {
      JobsUpToComplete(rows, n - 1, fs, i);
      var prev := JobsUpTo(rows, n - 1, fs);
      var j :| 0 <= j < |prev| && prev[j] == Job(i, rows[i]);
      assert r[j] == prev[j];
    }
  }

  /** `_create_reanalyze_confirmation`: no question for an empty list;
      otherwise the user's answer, `reply` standing for "Yes". */
  function ConfirmReanalyze(files: seq<string>, reply: bool): (ok: bool)
    ensures files == [] ==> ok
    ensures files != [] ==> (ok <==> reply)
  {
    if files != [] then reply else true
  }

  // ---------------------------------------------------------------------
  // The table

  class ContentTable {
    /** `self.data`: the records, one per row. */
    var data: seq<AudioFileInfo>
    /** The rows of the Qt table. */
    var rows: seq<RowCells>
    /** Workers handed to the thread pool, in the order they were started. */
    var pending: seq<Job>
    /** `self._selected`: the record whose details the popup shows. */
    var selected: Option<AudioFileInfo>
    /** The record the popup was last filled from. */
    var popup: Option<AudioFileInfo>

    /** Every row has its own action widget. */
    ghost predicate Valid()
      reads this
    {
      forall i, j :: 0 <= i < j < |rows| ==> rows[i].action != rows[j].action
    }

    constructor ()
      ensures Valid()
      ensures data == [] && rows == [] && pending == []
      ensures selected.None? && popup.None?
    {
      data, rows, pending := [], [], [];
      selected, popup := None, None;
    }

    /** `add_row`: a new Qt row showing the record, with a fresh action
      widget, and the record appended to `data`. */
    method AddRow(row: AudioFileInfo)
      requires Valid()
      modifies this`data, this`rows
      ensures Valid()
      ensures data == old(data) + [row]
      ensures |rows| == |old(rows)| + 1 && rows[..|old(rows)|] == old(rows)
      ensures var c := rows[|rows| - 1];
        c.fileName == row.FileName() && c.compText == row.ComprehensibilityText()
        && c.natText == row.NativelikenessText() && fresh(c.action)
    {
      var action := new ActionWidget();
      rows := rows + [RowCells(row.FileName(), row.ComprehensibilityText(), row.NativelikenessText(), action)];
      data := data + [row];
    }

    /** `add_rows`: `add_row` for each record, in iteration order. */
    method AddRows(records: seq<AudioFileInfo>)
      requires Valid()
      modifies this`data, this`rows
      ensures Valid()
      ensures data == old(data) + records
      ensures |rows| == |old(rows)| + |records| && rows[..|old(rows)|] == old(rows)
      ensures forall k :: 0 <= k < |records| ==>
        var c := rows[|old(rows)| + k];
        c.fileName == records[k].FileName() && c.compText == records[k].ComprehensibilityText()
        && c.natText == records[k].NativelikenessText() && fresh(c.action)
    {
      var i := 0;
      while i < |records|
        invariant 0 <= i <= |records|
        invariant Valid()
        invariant data == old(data) + records[..i]
        invariant |rows| == |old(rows)| + i && rows[..|old(rows)|] == old(rows)
        invariant forall k :: 0 <= k < i ==>
          rows[|old(rows)| + k].fileName == records[k].FileName()
          && rows[|old(rows)| + k].compText == records[k].ComprehensibilityText()
          && rows[|old(rows)| + k].natText == records[k].NativelikenessText()
          && fresh(rows[|old(rows)| + k].action)
      {
        ghost var before := rows;
        AddRow(records[i]);
        assert forall j :: 0 <= j < |before| ==> rows[j] == before[j];
        assert records[..i + 1] == records[..i] + [records[i]];
        i := i + 1;
      }
      assert records[..i] == records;
    }

    /** `get_row`: the record at a Python index, negative indices included;
      `None` for an index out of range (the IndexError is caught). */
    function GetRow(i: int): (r: Option<AudioFileInfo>)
      reads this
      ensures r.None? <==> !(-|data| <= i < |data|)
      ensures 0 <= i < |data| ==> r == Some(data[i])
      ensures -|data| <= i < 0 ==> r == Some(data[|data| + i])
    {
      match PyIndex(i, |data|)
      case None => None
      case Some(k) => Some(data[k])
    }

    /** `_find_row_index`: -1 for a widget that no longer exists, otherwise
      the first row whose action cell holds that very widget; when none
      does, the loop falls through and the result is `None`. */
    method FindRowIndex(widget: Option<ActionWidget>) returns (r: Option<int>)
      ensures widget.None? ==> r == Some(-1)
      ensures widget.Some? && r.Some? ==>
        0 <= r.value < |rows| && rows[r.value].action == widget.value
        && forall j :: 0 <= j < r.value ==> rows[j].action != widget.value
      ensures widget.Some? && r.None? ==> forall j :: 0 <= j < |rows| ==> rows[j].action != widget.value
      ensures Valid() ==> forall k :: 0 <= k < |rows| && widget == Some(rows[k].action) ==> r == Some(k)
    {
      if widget.None? {
        return Some(-1);
      }
      var i := 0;
      while i < |rows|
        invariant 0 <= i <= |rows|
        invariant forall j :: 0 <= j < i ==> rows[j].action != widget.value
      {
        if rows[i].action == widget.value {
          return Some(i);
        }
        i := i + 1;
      }
      return None;
    }

    /** `delete_row`: Qt's `removeRow` drops the row when the index is a
      row of the table and ignores any other index; `data.pop` then removes
      the element at the Python index, or raises IndexError. */
    method DeleteRow(i: int) returns (err: Option<PyError>)
      requires Valid()
      modifies this`data, this`rows
      ensures Valid()
      ensures rows == if 0 <= i < |old(rows)| then RemoveAt(old(rows), i) else old(rows)
      ensures err.None? <==> PyIndex(i, |old(data)|).Some?
      ensures err.None? ==> data == RemoveAt(old(data), PyIndex(i, |old(data)|).value)
      ensures err.Some? ==> data == old(data) && err.value.IndexError?
    {
      if 0 <= i < |rows| {
        rows := RemoveAt(rows, i);
      }
      match PyIndex(i, |data|)
      case None =>
        err := Some(IndexError("pop index out of range"));
      case Some(k) =>
        data := RemoveAt(data, k);
        err := None;
    }

    /** The Delete button's handler (`_gen_handle("delete_row", ...)`):
      find the row of the button's widget, then delete it. For a widget that
      no longer exists the index is -1: Qt removes no row but `data` loses
      its last record, so the two lists fall out of step. A widget in no row
      gives `None`, which `removeRow` refuses with TypeError. */
    method HandleDelete(widget: Option<ActionWidget>) returns (err: Option<PyError>)
      requires Valid()
      modifies this`data, this`rows
      ensures Valid()
      ensures widget.None? && old(data) != [] ==>
        err.None? && rows == old(rows) && data == old(data)[..|old(data)| - 1]
      ensures widget.None? && old(data) == [] ==> err.Some? && data == old(data) && rows == old(rows)
      ensures forall k :: 0 <= k < |old(rows)| && widget == Some(old(rows)[k].action) ==>
        rows == RemoveAt(old(rows), k)
      ensures forall k :: 0 <= k < |old(rows)| && widget == Some(old(rows)[k].action) ==>
        if k < |old(data)| then err.None? && data == RemoveAt(old(data), k)
        else err.Some? && err.value.IndexError? && data == old(data)
      ensures widget.Some? && (forall k :: 0 <= k < |old(rows)| ==> old(rows)[k].action != widget.value) ==>
        err.Some? && err.value.TypeError? && data == old(data) && rows == old(rows)
    {
      var index := FindRowIndex(widget);
      if index.None? {
        return Some(TypeError("removeRow(self, row: int): argument 1 has unexpected type 'NoneType'"));
      }
      ghost var before := data;
      err := DeleteRow(index.value);
      if widget.None? && before != [] {
        assert PyIndex(-1, |before|) == Some(|before| - 1);
        assert RemoveAt(before, |before| - 1) == before[..|before| - 1];
      }
    }

    /** The Info button's handler: `open_info` called with the row index the
      button's widget was found at. It remembers the record of the row and
      fills the popup from it. A widget in no row gives `None`, and
      `data[None]` raises TypeError (only IndexError is caught); an index out
      of range gives `weakref.ref(None)`, also a TypeError. */
    method OpenInfo(index: Option<int>) returns (err: Option<PyError>)
      modifies this`selected, this`popup
      ensures index.None? ==> err.Some? && err.value.TypeError?
      ensures index.Some? ==> (err.Some? <==> GetRow(index.value).None?)
      ensures err.Some? ==> err.value.TypeError? && selected == old(selected) && popup == old(popup)
      ensures err.None? ==> index.Some? && selected == GetRow(index.value) && popup == GetRow(index.value)
    {
      if index.None? {
        return Some(TypeError(NoneIndexMessage));
      }
      var row := GetRow(index.value);
      if row.None? {
        return Some(TypeError("cannot create weak reference to 'NoneType' object"));
      }
      selected, popup := row, row;
      err := None;
    }

    /** `_check_if_analyzed`: without an index, the names of all analysed
      rows; with one, the row's name if it is analysed and nothing
      otherwise. An index out of range leaves `None`, whose `score`
      attribute does not exist. */
    function CheckIfAnalyzed(index: Option<int>): (r: Result<seq<string>>)
      reads this, set i | 0 <= i < |data| :: data[i]
      ensures index.None? ==> r == Ok(AnalyzedNames(data))
      ensures index.Some? ==> (r.Err? <==> GetRow(index.value).None?)
      ensures r.Err? ==> r.error.AttributeError?
      ensures index.Some? && r.Ok? ==> var row := GetRow(index.value).value;
        r.value == if row.score.Some? then [row.FileName()] else []
    {
      match index
      case None => Ok(AnalyzedNames(data))
      case Some(i) =>
        match GetRow(i)
        case None => Err(AttributeError("'NoneType' object has no attribute 'score'"))
        case Some(row) => Ok(if row.score.Some? then [row.FileName()] else [])
    }

    /** `_judge_row`: look the row up; a missing path or a directory starts
      nothing, any other path starts a worker for this row index and
      record. An index out of range leaves `None`, whose `path` attribute
      does not exist. */
    method JudgeRow(i: int, fs: FileSystem) returns (outcome: JudgeOutcome)
      modifies this`pending
      ensures GetRow(i).None? ==> outcome.Raised? && outcome.error.AttributeError?
      ensures GetRow(i).Some? ==> outcome == RowOutcome(GetRow(i).value, fs)
      ensures pending == if outcome == Started then old(pending) + [Job(i, GetRow(i).value)] else old(pending)
    {
      var row := GetRow(i);
      if row.None? {
        return Raised(AttributeError("'NoneType' object has no attribute 'path'"));
      }
      var data := row.value;
      if !fs.pathExists(data.path) {
        return NoSuchFile;
      }
      if fs.isDir(data.path) {
        return IsDirectory;
      }
      pending := pending + [Job(i, data)];
      outcome := Started;
    }

    /** The Judge button's handler: `judge_score` called with the row index
      the button's widget was found at. It asks before reanalysing an
      analysed row, then judges it. A widget in no row gives `None`: the
      check then lists every analysed row, and if the user goes on,
      `_judge_row(None)` raises TypeError at `data[None]`. */
    method JudgeScore(index: Option<int>, reply: bool, fs: FileSystem) returns (outcome: JudgeOutcome)
      modifies this`pending
      ensures index.None? ==> pending == old(pending)
      ensures index.None? ==>
        if ConfirmReanalyze(old(AnalyzedNames(data)), reply) then outcome.Raised? && outcome.error.TypeError?
        else outcome == Declined
      ensures index.Some? && GetRow(index.value).None? ==> outcome.Raised? && pending == old(pending)
      ensures index.Some? && GetRow(index.value).Some? ==> var row := GetRow(index.value).value;
        outcome == (if row.score.Some? && !reply then Declined else RowOutcome(row, fs))
      ensures index.Some? ==>
        pending == if outcome == Started then old(pending) + [Job(index.value, GetRow(index.value).value)] else old(pending)
    {
      var files := CheckIfAnalyzed(index);
      if files.Err? {
        return Raised(files.error);
      }
      if !ConfirmReanalyze(files.value, reply) {
        return Declined;
      }
      if index.None? {
        return Raised(TypeError(NoneIndexMessage));
      }
      outcome := JudgeRow(index.value, fs);
    }

    /** `judge_all_scores`: ask once about every analysed row, then judge
      rows 0 to len-1 in order. Returns whether the rows were judged. */
    method JudgeAllScores(reply: bool, fs: FileSystem) returns (confirmed: bool)
      modifies this`pending
      ensures confirmed <==> ConfirmReanalyze(old(AnalyzedNames(data)), reply)
      ensures pending == old(pending) + (if confirmed then JobsUpTo(data, |data|, fs) else [])
    {
      var files := CheckIfAnalyzed(None);
      confirmed := ConfirmReanalyze(files.value, reply);
      if !confirmed {
        return;
      }
      var rowCount := |data|;
      var i := 0;
      ghost var start := pending;
      while i < rowCount
        invariant 0 <= i <= rowCount == |data|
        invariant pending == start + JobsUpTo(data, i, fs)
      {
        var outcome := JudgeRow(i, fs);
        JobsUpToStep(data, i, fs);
        i := i + 1;
      }
    }

    /** `_update_score`: only when the row at the index is still the very
      record the worker analysed are its score cells rewritten (Qt ignores
      an index that is not a row) and, if that record is the selected one,
      the popup refilled. */
    method UpdateScore(rowIndex: int, record: AudioFileInfo)
      requires Valid()
      modifies this`rows, this`popup
      ensures Valid()
      ensures GetRow(rowIndex) != Some(record) ==> rows == old(rows) && popup == old(popup)
      ensures GetRow(rowIndex) == Some(record) ==>
        rows == (if 0 <= rowIndex < |old(rows)| then
                   old(rows)[rowIndex := old(rows)[rowIndex].(compText := record.ComprehensibilityText(),
                                                              natText := record.NativelikenessText())]
                 else old(rows))
        && popup == (if selected == Some(record) then Some(record) else old(popup))
    {
      var row := GetRow(rowIndex);
      if row == Some(record) {
        if 0 <= rowIndex < |rows| {
          var c := rows[rowIndex];
          rows := rows[rowIndex := c.(compText := record.ComprehensibilityText(), natText := record.NativelikenessText())];
        }
        if selected == Some(record) {
          popup := Some(record);
        }
      }
    }
  }

  // ---------------------------------------------------------------------
  // The worker

  /** `RowWorker.run` for a live record: score the record's path with the
      given model argument and store the result; any exception is rethrown
      as RuntimeError and nothing is stored. On success the row index and
      the record are emitted. */
  method RunWorker(job: Job, model: ModelArg, env: Environment) returns (r: Result<Job>)
    modifies job.target
    ensures var s := GeneratePraatScore(job.target.path, model, env);
      (r.Err? <==> s.Err?)
      && (s.Err? ==> r == Err(RuntimeError(s.error)) && job.target.score == old(job.target.score))
      && (s.Ok? ==> r == Ok(job) && job.target.score == Some(s.value))
  {
    var s := GeneratePraatScore(job.target.path, model, env);
    if s.Err? {
      return Err(RuntimeError(s.error));
    }
    job.target.score := Some(s.value);
    r := Ok(job);
  }

  /** The worker as the table starts it: `generate_praat_score(data.path)`
      passes no model, so the call itself raises TypeError, every worker
      ends in RuntimeError, no record ever receives a score and
      `_update_score` is never signalled. */
  method RunStartedWorker(job: Job, env: Environment) returns (r: Result<Job>)
    modifies job.target
    ensures r.Err? && r.error.RuntimeError? && r.error.cause.TypeError?
    ensures job.target.score == old(job.target.score)
  {
    r := RunWorker(job, Missing, env);
  }
}
