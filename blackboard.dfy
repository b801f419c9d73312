/**
 * The research blackboard: research summaries merged newest-first and page
 * findings appended oldest-first, rendered as one text and stored as a
 * two-key dict.
 */
module BlackboardSchema {
  import opened Basics
  import opened Strings
  import opened Values
  import opened PageFindingsSchema

  /** The two text fields of a blackboard, as a value. */
  datatype Board = Board(pageFindings: string, researchFindings: string)

  const EMPTY_BOARD := Board("", "")

  const RESEARCH_HEADING := "Research Summary:\n"
  const PAGES_HEADING := "\nPage Findings:\n"
  const SECTION_SEP := "\n\n"
  const PRIOR_SEP := "\n\nPrior Research:\n"

  // ---------------------------------------------------------------------------
  // to_string

  /** The sections that `to_string` joins: research first, then pages; an empty field has no section. */
  function Sections(b: Board): seq<string> {
    (if b.researchFindings != "" then [RESEARCH_HEADING + b.researchFindings] else [])
    + (if b.pageFindings != "" then [PAGES_HEADING + b.pageFindings] else [])
  }

  /** `Blackboard.to_string`. */
  function Render(b: Board): (r: string)
    ensures r == "" <==> b.researchFindings == "" && b.pageFindings == ""
    ensures b.researchFindings != "" && b.pageFindings != "" ==>
      r == (RESEARCH_HEADING + b.researchFindings) + SECTION_SEP + (PAGES_HEADING + b.pageFindings)
    ensures b.researchFindings != "" && b.pageFindings == "" ==> r == RESEARCH_HEADING + b.researchFindings
    ensures b.researchFindings == "" && b.pageFindings != "" ==> r == PAGES_HEADING + b.pageFindings
  {
    var parts := Sections(b);
    assert |parts| == 2 ==> parts[1..] == [parts[1]] && Join(SECTION_SEP, parts) == parts[0] + SECTION_SEP + parts[1];
    Join(SECTION_SEP, parts)
  }

  // ---------------------------------------------------------------------------
  // add_research_findings

  /** The research text after `add_research_findings(incoming)` on a field holding `prior`. */
  function MergeResearch(prior: string, incoming: string): (r: string)
    ensures incoming == "" ==> r == prior
    ensures prior == "" ==> r == incoming
    ensures incoming != "" && prior != "" ==> r == incoming + PRIOR_SEP + prior
    ensures |r| >= |prior| && r[|r| - |prior|..] == prior
    ensures StartsWith(r, incoming)
  {
    if incoming == "" then prior
    else if prior == "" then incoming
    else incoming + PRIOR_SEP + prior
  }

  /** The research text after merging each of `news` in turn. */
  function MergeAll(prior: string, news: seq<string>): string
    decreases |news|
  {
    if news == [] then prior else MergeResearch(MergeAll(prior, news[..|news| - 1]), news[|news| - 1])
  }

  function Reverse(s: seq<string>): (r: seq<string>)
    ensures |r| == |s|
    decreases |s|
  {
    if s == [] then [] else [s[|s| - 1]] + Reverse(s[..|s| - 1])
  }

  predicate AllNonEmpty(s: seq<string>) {
    forall i :: 0 <= i < |s| ==> s[i] != ""
  }

  /**
   * Research summaries read newest first: after merging non-empty findings
   * f1, ..., fn into a non-empty field, the field is
   * fn, ..., f1 and the original text, separated by the prior-research heading.
   */
  lemma {:induction false} MergeAllNewestFirst(prior: string, news: seq<string>)
    requires prior != "" && AllNonEmpty(news)
    ensures MergeAll(prior, news) == Join(PRIOR_SEP, Reverse(news) + [prior])
    decreases |news|
  {
    if news != [] {
      var init := news[..|news| - 1];
      var last := news[|news| - 1];
      MergeAllNewestFirst(prior, init);
      var rest := Reverse(init) + [prior];
      assert Reverse(news) + [prior] == [last] + rest;
      assert ([last] + rest)[1..] == rest;
    }
  }

  // ---------------------------------------------------------------------------
  // add_page_findings

  /** A list element handed to `add_page_findings`. */
  datatype FindingItem =
    | FindingRecord(record: PageFindings)
    | FindingFields(fields: map<string, Value>)
    /** Anything that is neither a `PageFindings` nor a dict. */
    | FindingOther

  datatype Contribution = Adds(text: string) | Skips | Fails

  /** What one item adds to the page findings: its rendering after a newline, nothing, or a validation failure. */
  function ContributionOf(item: FindingItem): (c: Contribution)
    ensures item.FindingRecord? ==> c == Adds("\n" + ToString(item.record))
    ensures item.FindingOther? ==> c == Skips
    ensures item.FindingFields? ==>
      c == (if FromFields(item.fields).Ok? then Adds("\n" + ToString(FromFields(item.fields).value)) else Fails)
  {
    match item
    case FindingRecord(p) => Adds("\n" + ToString(p))
    case FindingFields(d) =>
      (match FromFields(d)
       case Ok(p) => Adds("\n" + ToString(p))
       case Err(_) => Fails)
    case FindingOther => Skips
  }

  /** The page text after processing `items` in order, and whether every item was accepted. */
  datatype Appended = Appended(text: string, ok: bool)

  function AppendItems(text: string, items: seq<FindingItem>): Appended
    decreases |items|
  {
    if items == [] then Appended(text, true)
    else
      match ContributionOf(items[0])
      case Adds(s) => AppendItems(text + s, items[1..])
      case Skips => AppendItems(text, items[1..])
      case Fails => Appended(text, false)
  }

  /** The text all items contribute, when none of them fails. */
  function Contributions(items: seq<FindingItem>): string
    decreases |items|
  {
    if items == [] then ""
    else
      match ContributionOf(items[0])
      case Adds(s) => s + Contributions(items[1..])
      case _ => Contributions(items[1..])
  }

  predicate NoneFails(items: seq<FindingItem>) {
    forall i :: 0 <= i < |items| ==> !ContributionOf(items[i]).Fails?
  }

  /** The old page text is always kept as a prefix. */
  lemma {:induction false} AppendItemsKeepsPrefix(text: string, items: seq<FindingItem>)
    ensures StartsWith(AppendItems(text, items).text, text)
    decreases |items|
  {
    if items != [] {
      match ContributionOf(items[0])
      case Adds(s) =>
        AppendItemsKeepsPrefix(text + s, items[1..]);
        assert (text + s)[..|text|] == text;
      case Skips => AppendItemsKeepsPrefix(text, items[1..]);
      case Fails =>
    }
  }

  /** When no item fails, each item's contribution is appended in list order. */
  lemma {:induction false} AppendItemsInOrder(text: string, items: seq<FindingItem>)
    requires NoneFails(items)
    ensures AppendItems(text, items) == Appended(text + Contributions(items), true)
    decreases |items|
  {
    if items != [] {
      assert !ContributionOf(items[0]).Fails?;
      assert NoneFails(items[1..]) by {
        forall i | 0 <= i < |items[1..]| ensures !ContributionOf(items[1..][i]).Fails? {
          assert items[1..][i] == items[i + 1];
        }
      }
      match ContributionOf(items[0])
      case Adds(s) =>
        AppendItemsInOrder(text + s, items[1..]);
        assert text + s + Contributions(items[1..]) == text + (s + Contributions(items[1..]));
      case Skips => AppendItemsInOrder(text, items[1..]);
    }
  }

  /** Processing a list is processing its first part and then the rest. */
  lemma {:induction false} AppendItemsSplit(text: string, xs: seq<FindingItem>, ys: seq<FindingItem>)
    ensures AppendItems(text, xs + ys) ==
      (var a := AppendItems(text, xs); if a.ok then AppendItems(a.text, ys) else a)
    decreases |xs|
  {
    if xs == [] {
      assert xs + ys == ys;
    } else {
      assert (xs + ys)[0] == xs[0];
      assert (xs + ys)[1..] == xs[1..] + ys;
      match ContributionOf(xs[0])
      case Adds(s) => AppendItemsSplit(text + s, xs[1..], ys);
      case Skips => AppendItemsSplit(text, xs[1..], ys);
      case Fails =>
    }
  }

  /** Neither a `PageFindings` nor a dict: the item is skipped and changes nothing. */
  lemma OtherItemSkipped(text: string, xs: seq<FindingItem>, ys: seq<FindingItem>)
    ensures AppendItems(text, xs + [FindingOther] + ys) == AppendItems(text, xs + ys)
  {
    AppendItemsSplit(text, xs, [FindingOther] + ys);
    AppendItemsSplit(text, xs, ys);
    assert xs + [FindingOther] + ys == xs + ([FindingOther] + ys);
    assert ([FindingOther] + ys)[1..] == ys;
  }

  /** A dict item is rendered exactly as the `PageFindings` record built from it. */
  lemma DictItemAsRecord(text: string, xs: seq<FindingItem>, d: map<string, Value>, ys: seq<FindingItem>)
    requires FromFields(d).Ok?
    ensures AppendItems(text, xs + [FindingFields(d)] + ys)
         == AppendItems(text, xs + [FindingRecord(FromFields(d).value)] + ys)
  {
    var rec := FindingRecord(FromFields(d).value);
    AppendItemsSplit(text, xs, [FindingFields(d)] + ys);
    AppendItemsSplit(text, xs, [rec] + ys);
    assert xs + [FindingFields(d)] + ys == xs + ([FindingFields(d)] + ys);
    assert xs + [rec] + ys == xs + ([rec] + ys);
    assert ([FindingFields(d)] + ys)[1..] == ys;
    assert ([rec] + ys)[1..] == ys;
  }

  /**
   * A dict that fails validation stops the processing with an exception;
   * the items before it have already been appended.
   */
  lemma InvalidDictStops(text: string, xs: seq<FindingItem>, d: map<string, Value>, ys: seq<FindingItem>)
    requires NoneFails(xs) && FromFields(d).Err?
    ensures AppendItems(text, xs + [FindingFields(d)] + ys) == Appended(text + Contributions(xs), false)
  {
    AppendItemsSplit(text, xs, [FindingFields(d)] + ys);
    AppendItemsInOrder(text, xs);
    assert xs + [FindingFields(d)] + ys == xs + ([FindingFields(d)] + ys);
  }

  // ---------------------------------------------------------------------------
  // to_dict and from_dict

  /** `Blackboard.to_dict`. */
  function ToDict(b: Board): (d: map<string, Value>)
    ensures d.Keys == {"page_findings", "research_findings"}
    ensures d["page_findings"] == VStr(b.pageFindings) && d["research_findings"] == VStr(b.researchFindings)
  {
    map["page_findings" := VStr(b.pageFindings), "research_findings" := VStr(b.researchFindings)]
  }

  /** `data.get(key, "")` validated as a `str` field. */
  function StrOrEmpty(d: map<string, Value>, key: string): (r: Result<string>)
    ensures key !in d ==> r == Ok("")
    ensures key in d ==> (r.Ok? <==> d[key].VStr?)
    ensures key in d && d[key].VStr? ==> r == Ok(d[key].s)
  {
    if key !in d then Ok("") else if d[key].VStr? then Ok(d[key].s) else Err(ValidationError)
  }

  /** `Blackboard.from_dict`: a missing key reads as `""`, a value that is not a string is refused. */
  function FromDict(d: map<string, Value>): (r: Result<Board>)
    ensures r.Ok? <==> StrOrEmpty(d, "page_findings").Ok? && StrOrEmpty(d, "research_findings").Ok?
    ensures r.Ok? ==> r.value == Board(StrOrEmpty(d, "page_findings").value, StrOrEmpty(d, "research_findings").value)
  {
    var pages := StrOrEmpty(d, "page_findings");
    var research := StrOrEmpty(d, "research_findings");
    if pages.Ok? && research.Ok? then Ok(Board(pages.value, research.value)) else Err(ValidationError)
  }

  /** Reading back the dict form gives the same blackboard. */
  lemma FromDictToDict(b: Board)
    ensures FromDict(ToDict(b)) == Ok(b)
  {
  }

  /** An empty dict gives the empty blackboard, which renders as the empty string. */
  lemma FromDictEmpty()
    ensures FromDict(map[]) == Ok(EMPTY_BOARD) && Render(EMPTY_BOARD) == ""
  {
  }

  // ---------------------------------------------------------------------------
  // The mutable object

  /** The pydantic `Blackboard` object, whose two fields the `add_*` methods update in place. */
  class Blackboard {
    var pageFindings: string
    var researchFindings: string

    constructor (pageFindings: string, researchFindings: string)
      ensures Snapshot() == Board(pageFindings, researchFindings)
    {
      this.pageFindings := pageFindings;
      this.researchFindings := researchFindings;
    }

    /** The current field values. */
    function Snapshot(): (b: Board)
      reads this
      ensures b.pageFindings == pageFindings && b.researchFindings == researchFindings
    {
      Board(pageFindings, researchFindings)
    }

    /** `to_string` of the current fields. */
    function ToText(): (r: string)
      reads this
      ensures r == "" <==> pageFindings == "" && researchFindings == ""
    {
      Render(Snapshot())
    }

    /**
     * `add_page_findings`: each item is appended in turn; a dict that fails
     * validation raises, leaving the items before it appended.
     */
    method AddPageFindings(findings: seq<FindingItem>) returns (error: Option<Error>)
      modifies this
      ensures researchFindings == old(researchFindings)
      ensures var a := AppendItems(old(pageFindings), findings);
        pageFindings == a.text && (error.None? <==> a.ok)
      ensures error.Some? ==> error.value == ValidationError
    {
      error := None;
      if |findings| == 0 {
        return;
      }
      var i := 0;
      while i < |findings|
        invariant 0 <= i <= |findings|
        invariant researchFindings == old(researchFindings)
        invariant AppendItems(old(pageFindings), findings) == AppendItems(pageFindings, findings[i..])
      {
        assert findings[i..][1..] == findings[i + 1..];
        match findings[i] {
          case FindingRecord(p) =>
            pageFindings := pageFindings + ("\n" + ToString(p));
          case FindingFields(d) =>
            var pf := FromFields(d);
            if pf.Err? {
              return Some(ValidationError);
            }
            pageFindings := pageFindings + ("\n" + ToString(pf.value));
          case FindingOther =>
        }
        i := i + 1;
      }
    }

    /** `add_research_findings`: new findings go in front of the prior ones. */
    method AddResearchFindings(findings: string)
      modifies this
      ensures pageFindings == old(pageFindings)
      ensures researchFindings == MergeResearch(old(researchFindings), findings)
    {
      if findings == "" {
        return;
      }
      if researchFindings != "" {
        researchFindings := findings + PRIOR_SEP + researchFindings;
      } else {
        researchFindings := findings;
      }
    }
  }
}
