/**
 * `Dataset`: the train/test split of the leads table and the conversion of
 * its rows into DSPy examples. Only rows with a human label take part; the
 * `training_set` column assigns each of them to the training set, the test
 * set or neither.
 */
module Dataset {
  import opened Basics
  import opened Strings
  import JudgeExamples

  /** A row of a data frame: a missing or `NaN` cell is `None`. */
  type Record = map<string, Option<string>>

  /**
   * A data frame: its column names, its rows in order, and whether pandas
   * read the `training_set` column as text. A column whose cells are all
   * empty or all numbers is read as numbers, and its `.str` accessor raises
   * `AttributeError`; a non-string cell of a text column acts as `NaN`.
   */
  datatype Frame = Frame(columns: set<string>, rows: seq<Record>, trainingSetIsText: bool)

  /** The cell of `row` in column `col`, `None` for `NaN`. */
  function Cell(row: Record, col: string): Option<string> {
    if col in row then row[col] else None
  }

  /** `row.get(col, default)`: the default only when the frame has no such column. */
  function GetCell(columns: set<string>, row: Record, col: string, default: Option<string>): (r: Option<string>)
    ensures col in columns ==> r == Cell(row, col)
    ensures col !in columns ==> r == default
  {
    if col in columns then Cell(row, col) else default
  }

  /** The columns `to_dspy_examples` indexes directly, raising `KeyError` when one is missing. */
  const REQUIRED: set<string> := {"url", "username", "icp_match"}

  /** A `dspy.Example`; its inputs are the URL, the username and the name. */
  datatype Example = Example(
    leadUrl: Option<string>,
    leadUsername: Option<string>,
    leadName: Option<string>,
    icpMatch: Option<string>,
    icpMatchRationale: Option<string>)

  /** The example built from a row of a frame with every required column. */
  function ExampleOf(columns: set<string>, row: Record): (e: Example)
    ensures e.leadUrl == Cell(row, "url") && e.leadUsername == Cell(row, "username")
    ensures GetCell(columns, row, "name", None).Some? ==> e.leadName == Cell(row, "name")
    ensures GetCell(columns, row, "name", None).None? ==> e.leadName == Cell(row, "username")
    ensures e.icpMatch == JudgeExamples.NormalizeCell(Cell(row, "icp_match"))
    ensures e.icpMatchRationale == GetCell(columns, row, "icp_match_rationale", Some(""))
  {
    var name := GetCell(columns, row, "name", None);
    Example(
      Cell(row, "url"),
      Cell(row, "username"),
      if name.Some? then name else Cell(row, "username"),
      JudgeExamples.NormalizeCell(Cell(row, "icp_match")),
      GetCell(columns, row, "icp_match_rationale", Some("")))
  }

  /** The examples of `rows`, one per row, in order. */
  function ExamplesOf(columns: set<string>, rows: seq<Record>): (r: seq<Example>)
    ensures |r| == |rows| && forall i :: 0 <= i < |rows| ==> r[i] == ExampleOf(columns, rows[i])
  {
    seq(|rows|, i requires 0 <= i < |rows| => ExampleOf(columns, rows[i]))
  }

  /**
   * `to_dspy_examples`: one example per row in the rows' order; a frame
   * that lacks a required column raises `KeyError` at its first row.
   */
  method ToDspyExamples(columns: set<string>, rows: seq<Record>) returns (r: Result<seq<Example>>)
    ensures |rows| > 0 && !(REQUIRED <= columns) ==> r == Err(KeyError)
    ensures |rows| == 0 || REQUIRED <= columns ==> r == Ok(ExamplesOf(columns, rows))
  {
    var examples: seq<Example> := [];
    var i := 0;
    while i < |rows|
      invariant 0 <= i <= |rows|
      invariant i > 0 ==> REQUIRED <= columns
      invariant |examples| == i && forall k :: 0 <= k < i ==> examples[k] == ExampleOf(columns, rows[k])
    {
      if !("url" in columns && "username" in columns && "icp_match" in columns) {
        assert !(REQUIRED <= columns);
        return Err(KeyError);
      }
      examples := examples + [ExampleOf(columns, rows[i])];
      i := i + 1;
    }
    assert examples == ExamplesOf(columns, rows);
    return Ok(examples);
  }

  // ---------------------------------------------------------------------------
  // prepare_train_test_split

  /** `icp_match` is present and not the empty string. */
  predicate IsLabeled(row: Record) {
    Cell(row, "icp_match").Some? && Cell(row, "icp_match").value != ""
  }

  /** `training_set`, lower-cased, is `assignment`; a `NaN` cell is never equal. */
  predicate AssignedTo(row: Record, assignment: string) {
    Cell(row, "training_set").Some? && Lower(Cell(row, "training_set").value) == assignment
  }

  predicate IsTrain(row: Record) { AssignedTo(row, "train") }
  predicate IsTest(row: Record) { AssignedTo(row, "test") }

  /** The labelled rows, in order. */
  function Labeled(rows: seq<Record>): seq<Record> {
    Filter(rows, IsLabeled)
  }

  /** The rows of the training set, in order. */
  function TrainRows(rows: seq<Record>): seq<Record> {
    Filter(Labeled(rows), IsTrain)
  }

  /** The rows of the test set, in order. */
  function TestRows(rows: seq<Record>): seq<Record> {
    Filter(Labeled(rows), IsTest)
  }

  /**
   * `prepare_train_test_split` on a given frame: a frame without the
   * `icp_match` or `training_set` column raises `KeyError`; otherwise the
   * `training_set` column must be text, or `.str.lower()` raises
   * `AttributeError` even on an empty selection; then the training and test
   * rows become examples, and a missing `url` or `username` column raises
   * `KeyError` unless both sets are empty.
   */
  method PrepareTrainTestSplit(frame: Frame) returns (r: Result<(seq<Example>, seq<Example>)>)
    ensures !("icp_match" in frame.columns && "training_set" in frame.columns) ==> r == Err(KeyError)
    ensures "icp_match" in frame.columns && "training_set" in frame.columns && !frame.trainingSetIsText
      ==> r == Err(AttributeError)
    ensures "icp_match" in frame.columns && "training_set" in frame.columns && frame.trainingSetIsText
      && REQUIRED <= frame.columns
      ==> r == Ok((ExamplesOf(frame.columns, TrainRows(frame.rows)), ExamplesOf(frame.columns, TestRows(frame.rows))))
    ensures "icp_match" in frame.columns && "training_set" in frame.columns && frame.trainingSetIsText
      && !(REQUIRED <= frame.columns)
      ==> r == if TrainRows(frame.rows) == [] && TestRows(frame.rows) == [] then Ok(([], [])) else Err(KeyError)
    ensures r.Err? ==> r.error == KeyError || r.error == AttributeError
  {
    if "icp_match" !in frame.columns {
      return Err(KeyError);
    }
    var labeled := Filter(frame.rows, IsLabeled);
    if "training_set" !in frame.columns {
      return Err(KeyError);
    }
    if !frame.trainingSetIsText {
      return Err(AttributeError);
    }
    var train := Filter(labeled, IsTrain);
    var test := Filter(labeled, IsTest);
    var trainExamples := ToDspyExamples(frame.columns, train);
    if trainExamples.Err? {
      return Err(trainExamples.error);
    }
    var testExamples := ToDspyExamples(frame.columns, test);
    if testExamples.Err? {
      return Err(testExamples.error);
    }
    return Ok((trainExamples.value, testExamples.value));
  }

  /** A row is a training row exactly when it is a labelled row of the frame assigned to `train`. */
  lemma TrainRowsMembers(rows: seq<Record>, row: Record)
    ensures row in TrainRows(rows) <==> row in rows && IsLabeled(row) && IsTrain(row)
  {
    FilterMembers(rows, IsLabeled, row);
    FilterMembers(Labeled(rows), IsTrain, row);
  }

  /** A row is a test row exactly when it is a labelled row of the frame assigned to `test`. */
  lemma TestRowsMembers(rows: seq<Record>, row: Record)
    ensures row in TestRows(rows) <==> row in rows && IsLabeled(row) && IsTest(row)
  {
    FilterMembers(rows, IsLabeled, row);
    FilterMembers(Labeled(rows), IsTest, row);
  }

  /** No row is in both sets. */
  lemma SplitDisjoint(rows: seq<Record>, row: Record)
    ensures !(row in TrainRows(rows) && row in TestRows(rows))
  {
    TrainRowsMembers(rows, row);
    TestRowsMembers(rows, row);
  }

  /** Between them the two sets hold at most the labelled rows. */
  lemma SplitSizes(rows: seq<Record>)
    ensures |TrainRows(rows)| + |TestRows(rows)| <= |Labeled(rows)| <= |rows|
  {
    DisjointFilterSizes(Labeled(rows));
  }

  /** Two filters that never both hold select at most as many elements as there are. */
  lemma {:induction false} DisjointFilterSizes(s: seq<Record>)
    ensures |Filter(s, IsTrain)| + |Filter(s, IsTest)| <= |s|
    decreases |s|
  {
    if s != [] {
      DisjointFilterSizes(s[..|s| - 1]);
      var last := s[|s| - 1];
      assert !(IsTrain(last) && IsTest(last)) by {
        if IsTrain(last) {
          assert |"train"| != |"test"|;
        }
      }
    }
  }

  /** Training rows keep the frame's order: rows appended to a frame come after its own training rows. */
  lemma TrainRowsInOrder(rows: seq<Record>, more: seq<Record>)
    ensures TrainRows(rows + more) == TrainRows(rows) + TrainRows(more)
  {
    FilterConcat(rows, more, IsLabeled);
    FilterConcat(Labeled(rows), Labeled(more), IsTrain);
  }

  /** An unlabelled row, or one assigned to neither set, takes part in neither set. */
  lemma OtherRowsDropped(rows: seq<Record>, row: Record)
    requires !IsLabeled(row) || (!IsTrain(row) && !IsTest(row))
    ensures row !in TrainRows(rows) && row !in TestRows(rows)
  {
    TrainRowsMembers(rows, row);
    TestRowsMembers(rows, row);
  }
}
