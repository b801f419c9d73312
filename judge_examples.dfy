/**
 * `JudgeExamples`: the extraction of the judge's few-shot examples from the
 * leads CSV. Labels are converted from the CSV's display form to the
 * internal snake_case form, and a row becomes an example when its
 * `judge_example` cell reads `true` or `yes` in any case.
 */
module JudgeExamples {
  import opened Basics
  import opened Strings

  /** A CSV row as `csv.DictReader` gives it: a cell of a short row is `None`. */
  type Row = map<string, Option<string>>

  /** `row.get(key, default)`. */
  function Get(row: Row, key: string, default: Option<string>): (r: Option<string>)
    ensures key in row ==> r == row[key]
    ensures key !in row ==> r == default
  {
    if key in row then row[key] else default
  }

  // ---------------------------------------------------------------------------
  // normalize_classification

  const CSV_TO_INTERNAL: map<string, string> := map[
    "Strong fit" := "strong_fit",
    "Weak fit" := "weak_fit",
    "Not a fit" := "not_a_fit"
  ]

  /** `CSV_TO_INTERNAL.get(value, value)`. */
  function NormalizeClassification(value: string): (r: string)
    ensures value in CSV_TO_INTERNAL ==> r == CSV_TO_INTERNAL[value]
    ensures value !in CSV_TO_INTERNAL ==> r == value
  {
    if value in CSV_TO_INTERNAL then CSV_TO_INTERNAL[value] else value
  }

  /** `normalize_classification` on a cell that may be missing: `None` is looked up and returned as it is. */
  function NormalizeCell(value: Option<string>): (r: Option<string>)
    ensures value.None? ==> r.None?
    ensures value.Some? ==> r == Some(NormalizeClassification(value.value))
  {
    if value.None? then None else Some(NormalizeClassification(value.value))
  }

  /** The three display labels map to the three internal labels. */
  lemma NormalizeDisplayLabels()
    ensures NormalizeClassification("Strong fit") == "strong_fit"
    ensures NormalizeClassification("Weak fit") == "weak_fit"
    ensures NormalizeClassification("Not a fit") == "not_a_fit"
  {
  }

  /** No internal label is a display label. */
  lemma InternalNotDisplay(v: string)
    requires v in CSV_TO_INTERNAL.Values
    ensures v !in CSV_TO_INTERNAL
  {
    assert v == "strong_fit" || v == "weak_fit" || v == "not_a_fit";
    assert "strong_fit"[0] == 's' && "weak_fit"[0] == 'w' && "not_a_fit"[0] == 'n';
    assert "Strong fit"[0] == 'S' && "Weak fit"[0] == 'W' && "Not a fit"[0] == 'N';
  }

  /** Normalising twice is normalising once. */
  lemma NormalizeIdempotent(value: string)
    ensures NormalizeClassification(NormalizeClassification(value)) == NormalizeClassification(value)
  {
    if value in CSV_TO_INTERNAL {
      assert CSV_TO_INTERNAL[value] in CSV_TO_INTERNAL.Values;
      InternalNotDisplay(CSV_TO_INTERNAL[value]);
    }
  }

  /** A label in another case is not converted: `"strong fit"` stays as it is. */
  lemma NormalizeIsCaseSensitive()
    ensures NormalizeClassification("strong fit") == "strong fit"
  {
    assert "strong fit"[0] == 's';
    assert "strong fit" != "Strong fit" && "strong fit" != "Weak fit" && "strong fit" != "Not a fit";
  }

  // ---------------------------------------------------------------------------
  // extract_judge_examples

  /**
   * `row.get('judge_example', '').lower() in ['true', 'yes']`; a `None`
   * cell has no `lower` and raises `AttributeError`.
   */
  function JudgeFlag(row: Row): (r: Result<bool>)
    ensures r.Err? <==> Get(row, "judge_example", Some("")).None?
    ensures r.Err? ==> r.error == AttributeError
    ensures "judge_example" !in row ==> r == Ok(false)
  {
    var cell := Get(row, "judge_example", Some(""));
    if cell.None? then Err(AttributeError)
    else Ok(Lower(cell.value) == "true" || Lower(cell.value) == "yes")
  }

  /** The rows the extraction keeps. */
  predicate IsJudgeRow(row: Row) {
    JudgeFlag(row) == Ok(true)
  }

  /** An example as written to the JSON file; `None` is written as `null`. */
  datatype JudgeExample = JudgeExample(
    name: Option<string>,
    username: Option<string>,
    context: Option<string>,
    icpMatch: Option<string>,
    rationale: Option<string>)

  /** The example built from a selected row. */
  function ToJudgeExample(row: Row): (e: JudgeExample)
    ensures e.username == Get(row, "username", Some(""))
    ensures e.context == Get(row, "context", Some(""))
    ensures e.icpMatch == NormalizeCell(Get(row, "icp_match", Some("")))
    ensures e.rationale == Get(row, "icp_match_rationale", Some(""))
  {
    var name := Get(row, "name", None);
    JudgeExample(
      if TruthyText(name) then name else Get(row, "username", Some("")),
      Get(row, "username", Some("")),
      Get(row, "context", Some("")),
      NormalizeCell(Get(row, "icp_match", Some(""))),
      Get(row, "icp_match_rationale", Some("")))
  }

  /** The name is the row's name when it is present and non-empty, and the username otherwise. */
  lemma NameFallback(row: Row)
    ensures "name" in row && TruthyText(row["name"]) ==> ToJudgeExample(row).name == row["name"]
    ensures !("name" in row && TruthyText(row["name"])) ==> ToJudgeExample(row).name == Get(row, "username", Some(""))
    ensures "name" !in row && "username" !in row ==> ToJudgeExample(row).name == Some("")
  {
  }

  /** What the extraction returns (or raises) on the rows in CSV order. */
  function Extracted(rows: seq<Row>): Result<seq<JudgeExample>>
    decreases |rows|
  {
    if rows == [] then Ok([])
    else
      var prior := Extracted(rows[..|rows| - 1]);
      var row := rows[|rows| - 1];
      var flag := JudgeFlag(row);
      if prior.Err? then prior
      else if flag.Err? then Err(flag.error)
      else Ok(prior.value + if flag.value then [ToJudgeExample(row)] else [])
  }

  /** `extract_judge_examples` on the rows of the CSV, without the file I/O. */
  method ExtractJudgeExamples(rows: seq<Row>) returns (r: Result<seq<JudgeExample>>)
    ensures r == Extracted(rows)
  {
    var examples: seq<JudgeExample> := [];
    var i := 0;
    while i < |rows|
      invariant 0 <= i <= |rows|
      invariant Extracted(rows[..i]) == Ok(examples)
    {
      ExtractedStep(rows, i);
      var flag := JudgeFlag(rows[i]);
      if flag.Err? {
        ExtractedStopsAtError(rows, i + 1);
        return Err(flag.error);
      }
      if flag.value {
        examples := examples + [ToJudgeExample(rows[i])];
      } else {
        assert examples + [] == examples;
      }
      i := i + 1;
    }
    assert rows[..|rows|] == rows;
    return Ok(examples);
  }

  /** Extracting one more row extends the extraction of the rows before it. */
  lemma ExtractedStep(rows: seq<Row>, i: nat)
    requires i < |rows|
    ensures var prior := Extracted(rows[..i]); var flag := JudgeFlag(rows[i]);
      Extracted(rows[..i + 1])
      == if prior.Err? then prior
         else if flag.Err? then Err(flag.error)
         else Ok(prior.value + if flag.value then [ToJudgeExample(rows[i])] else [])
  {
    var p := rows[..i + 1];
    assert p[..|p| - 1] == rows[..i];
    assert p[|p| - 1] == rows[i];
  }

  /** Once a prefix raises, the whole extraction raises the same error. */
  lemma {:induction false} ExtractedStopsAtError(rows: seq<Row>, n: nat)
    requires n <= |rows| && Extracted(rows[..n]).Err?
    ensures Extracted(rows) == Extracted(rows[..n])
    decreases |rows| - n
  {
    if n < |rows| {
      assert rows[..n + 1][..n] == rows[..n];
      ExtractedStopsAtError(rows, n + 1);
    } else {
      assert rows[..n] == rows;
    }
  }

  /** The examples built from `rows`, one per row and in the same order. */
  function Examples(rows: seq<Row>): (r: seq<JudgeExample>)
    ensures |r| == |rows| && forall i :: 0 <= i < |rows| ==> r[i] == ToJudgeExample(rows[i])
  {
    seq(|rows|, i requires 0 <= i < |rows| => ToJudgeExample(rows[i]))
  }

  /**
   * When no `judge_example` cell is `None`, the extraction is the selected
   * rows, in CSV order, each shaped into an example.
   */
  lemma {:induction false} ExtractedSelects(rows: seq<Row>)
    requires forall i :: 0 <= i < |rows| ==> Get(rows[i], "judge_example", Some("")).Some?
    ensures Extracted(rows) == Ok(Examples(Filter(rows, IsJudgeRow)))
    decreases |rows|
  {
    if rows != [] {
      var init := rows[..|rows| - 1];
      var last := rows[|rows| - 1];
      ExtractedSelects(init);
      assert Filter(rows, IsJudgeRow) == Filter(init, IsJudgeRow) + if IsJudgeRow(last) then [last] else [];
      var prefix := Examples(Filter(init, IsJudgeRow));
      if IsJudgeRow(last) {
        assert Examples(Filter(rows, IsJudgeRow)) == prefix + [ToJudgeExample(last)];
      } else {
        assert JudgeFlag(last) == Ok(false);
        assert Filter(rows, IsJudgeRow) == Filter(init, IsJudgeRow);
        assert Extracted(rows) == Ok(prefix + []);
        assert prefix + [] == prefix;
      }
    }
  }

  /** The extraction raises exactly when some row's `judge_example` cell is `None`. */
  lemma {:induction false} ExtractedRaises(rows: seq<Row>)
    ensures Extracted(rows).Err? <==> exists i :: 0 <= i < |rows| && Get(rows[i], "judge_example", Some("")).None?
    ensures Extracted(rows).Err? ==> Extracted(rows).error == AttributeError
    decreases |rows|
  {
    if rows != [] {
      var init := rows[..|rows| - 1];
      ExtractedRaises(init);
      if exists i :: 0 <= i < |init| && Get(init[i], "judge_example", Some("")).None? {
        var i :| 0 <= i < |init| && Get(init[i], "judge_example", Some("")).None?;
        assert rows[i] == init[i];
      }
      if exists i :: 0 <= i < |rows| && Get(rows[i], "judge_example", Some("")).None? {
        var i :| 0 <= i < |rows| && Get(rows[i], "judge_example", Some("")).None?;
        if i < |init| {
          assert init[i] == rows[i];
        }
      }
    }
  }

  /** `TRUE` and `Yes` select a row; a cell with surrounding spaces does not, since nothing is stripped. */
  lemma FlagSpellings()
    ensures JudgeFlag(map["judge_example" := Some("TRUE")]) == Ok(true)
    ensures JudgeFlag(map["judge_example" := Some("Yes")]) == Ok(true)
    ensures JudgeFlag(map["judge_example" := Some(" true")]) == Ok(false)
  {
    LowerIs("TRUE", "true");
    LowerIs("Yes", "yes");
    assert |Lower(" true")| == 5;
  }
}
