/** The `PageFindings` record: what the researcher learned from one web page. */
module PageFindingsSchema {
  import opened Basics
  import opened Values

  datatype PageFindings = PageFindings(
    url: string,
    title: string,
    summary: string,
    pageFindings: string,
    interestingLinks: Option<string>,
    currentGoal: string)

  const URL_LABEL := "URL: "
  const TITLE_LABEL := "\nTitle: "
  const SUMMARY_LABEL := "\nSummary: "
  const FINDINGS_LABEL := "\nPage Findings: "
  const GOAL_LABEL := "\nCurrent Goal: "
  const END := "\n\n"

  /** The number of characters `ToString` adds around the five fields. */
  const OVERHEAD := |URL_LABEL| + |TITLE_LABEL| + |SUMMARY_LABEL| + |FINDINGS_LABEL| + |GOAL_LABEL| + |END|

  /** `PageFindings.to_string`: five labelled lines and a blank line; the interesting links are not rendered. */
  function ToString(p: PageFindings): (r: string)
    ensures |r| == |p.url| + |p.title| + |p.summary| + |p.pageFindings| + |p.currentGoal| + OVERHEAD
    ensures r[..|URL_LABEL|] == URL_LABEL
    ensures r[|r| - |END|..] == END
  {
    URL_LABEL + p.url + TITLE_LABEL + p.title + SUMMARY_LABEL + p.summary
      + FINDINGS_LABEL + p.pageFindings + GOAL_LABEL + p.currentGoal + END
  }

  /** Two records that differ only in their interesting links render alike. */
  lemma ToStringIgnoresLinks(p: PageFindings, links: Option<string>)
    ensures ToString(p.(interestingLinks := links)) == ToString(p)
  {
  }

  /** A field of type `str`: present, and holding a string. */
  function StrField(d: map<string, Value>, key: string): (r: Result<string>)
    ensures r.Ok? <==> key in d && d[key].VStr?
    ensures r.Ok? ==> r.value == d[key].s
  {
    if key in d && d[key].VStr? then Ok(d[key].s) else Err(ValidationError)
  }

  /**
   * `PageFindings(**d)`: every field is required (the `Optional[str]` links
   * field too, which may hold `None`); keys that are not fields are ignored.
   */
  function FromFields(d: map<string, Value>): (r: Result<PageFindings>)
    ensures r.Ok? <==>
      (forall k :: k in ["url", "title", "summary", "page_findings", "current_goal"] ==> k in d && d[k].VStr?)
      && "interesting_links" in d && (d["interesting_links"].VStr? || d["interesting_links"].VNone?)
    ensures r.Ok? ==>
      r.value.url == d["url"].s && r.value.title == d["title"].s && r.value.summary == d["summary"].s
      && r.value.pageFindings == d["page_findings"].s && r.value.currentGoal == d["current_goal"].s
      && r.value.interestingLinks == (if d["interesting_links"].VStr? then Some(d["interesting_links"].s) else None)
  {
    var url := StrField(d, "url");
    var title := StrField(d, "title");
    var summary := StrField(d, "summary");
    var findings := StrField(d, "page_findings");
    var goal := StrField(d, "current_goal");
    if url.Err? || title.Err? || summary.Err? || findings.Err? || goal.Err? then Err(ValidationError)
    else if "interesting_links" !in d then Err(ValidationError)
    else
      match d["interesting_links"]
      case VStr(s) => Ok(PageFindings(url.value, title.value, summary.value, findings.value, Some(s), goal.value))
      case VNone => Ok(PageFindings(url.value, title.value, summary.value, findings.value, None, goal.value))
      case _ => Err(ValidationError)
  }

  /** The dict form of a record, as `model_dump` would give it. */
  function ToFields(p: PageFindings): map<string, Value> {
    map[
      "url" := VStr(p.url), "title" := VStr(p.title), "summary" := VStr(p.summary),
      "page_findings" := VStr(p.pageFindings), "current_goal" := VStr(p.currentGoal),
      "interesting_links" := if p.interestingLinks.Some? then VStr(p.interestingLinks.value) else VNone]
  }

  /** Building a record from its own dict form gives the record back. */
  lemma FromFieldsToFields(p: PageFindings)
    ensures FromFields(ToFields(p)) == Ok(p)
  {
  }
}
