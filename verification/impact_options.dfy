/** The options of the impact tool: which sessions to read, which files to
    look at and how to print the report. */
module ImpactOptions {
  import opened Wrappers
  import opened Strs

  datatype OutputFormat = Plain | Json | GithubComment | Markdown

  /** `OutputFormat::as_str`: the canonical lower-case name. */
  function FormatName(f: OutputFormat): (s: string)
    ensures Lower(s) == s
  {
    match f
    case Plain => "plain"
    case Json => "json"
    case GithubComment => "github-comment"
    case Markdown => "markdown"
  }

  /** `OutputFormat::from_str`: case-insensitive, with `github` and `md` as
      short names; anything else is not a format. */
  function ParseFormat(s: string): (r: Option<OutputFormat>)
    ensures r.Some? <==> Lower(s) in {"plain", "json", "github-comment", "github", "markdown", "md"}
  {
    var l := Lower(s);
    if l == "plain" then Some(Plain)
    else if l == "json" then Some(Json)
    else if l == "github-comment" || l == "github" then Some(GithubComment)
    else if l == "markdown" || l == "md" then Some(Markdown)
    else None
  }

  /** Printing a format and parsing the name gives it back. */
  lemma {:induction false} FormatRoundTrip(f: OutputFormat)
    ensures ParseFormat(FormatName(f)) == Some(f)
  {
  }

  /** A name that parses prints back as the canonical name of the lowercased
      input, except for the two short names. */
  lemma {:induction false} ParseThenName(s: string)
    requires ParseFormat(s).Some?
    ensures Lower(s) != "github" && Lower(s) != "md" ==> FormatName(ParseFormat(s).value) == Lower(s)
    ensures Lower(s) == "github" ==> ParseFormat(s) == Some(GithubComment)
    ensures Lower(s) == "md" ==> ParseFormat(s) == Some(Markdown)
  {
  }

  /** Case does not matter. */
  lemma {:induction false} ParseIgnoresCase(s: string)
    ensures ParseFormat(Lower(s)) == ParseFormat(s)
  {
    LowerIdempotent(s);
  }

  /** Examples: upper-case and short names parse; other text does not. */
  lemma {:induction false} ParseExamples()
    ensures ParseFormat("JSON") == Some(Json)
    ensures ParseFormat("Md") == Some(Markdown)
    ensures ParseFormat("html") == None
    ensures ParseFormat("") == None
  {
    assert Lower("JSON") == "json";
    assert Lower("Md") == "md";
    assert Lower("html") == "html";
  }

  datatype AnalysisOptions = AnalysisOptions(
    sessionId: Option<string>,
    baseSessionId: Option<string>,
    headSessionId: Option<string>,
    targetFiles: seq<string>,
    outputFormat: OutputFormat,
    includeReferences: bool,
    includeRiskAssessment: bool,
    verbose: bool)

  /** `AnalysisOptions::default`: no sessions or target files, plain output,
      references and the risk assessment included, quiet. */
  function DefaultOptions(): (o: AnalysisOptions)
    ensures o.sessionId.None? && o.baseSessionId.None? && o.headSessionId.None?
    ensures o.targetFiles == [] && o.outputFormat == Plain
    ensures o.includeReferences && o.includeRiskAssessment && !o.verbose
  {
    AnalysisOptions(None, None, None, [], Plain, true, true, false)
  }
}
