/**
 * agent0_2.py: turns the screening report beside `posting.txt` into a Markdown verdict,
 * `screening_summary.md`, holding only the response's `markdown_content`. There is no skip
 * check and no exception handler: an existing summary is overwritten, and a failing service
 * call or a response without that field ends the process with status 1.
 */
module ScreeningSummary {
  import opened Json
  import opened Gemini
  import opened Paths
  import opened Pipeline
  import Store
  import Runner
  import Screening

  function TemplatePath(cwd: string): string
  {
    Join(Join(cwd, "prompts"), "screening-summary-prompt.txt")
  }

  function SummaryPath(postingDir: string): string
  {
    Join(Dirname(Screening.PostingPath(postingDir)), "screening_summary.md")
  }

  const DataHeader := "\n\n### SCREENING DATA:\n"

  /** Client, existence check of the report, the two reads, then the field write. */
  function Summarize(report: string, template: string, summary: string): (st: Stage)
    ensures st.output == summary && Unguarded(st)
    ensures Loaded(st.steps, 0) == [report, template] && Checked(st.steps, 0) == [report]
  {
    var st := Stage(
      [Connect, Require([report]), Load(report), Load(template)],
      texts => At(texts, 1) + DataHeader + At(texts, 0),
      summary,
      WriteField("markdown_content"),
      result => true);
    assert Loaded(st.steps, 3) == [template] && Checked(st.steps, 3) == [];
    assert Loaded(st.steps, 2) == [report, template] && Checked(st.steps, 2) == [];
    st
  }

  function SummarizeStage(postingDir: string, cwd: string): Stage
  {
    Summarize(Screening.ReportPath(postingDir), TemplatePath(cwd), SummaryPath(postingDir))
  }

  method Invoke(postingDir: string, fs: Store.FileSystem, client: Client, codec: Codec) returns (outcome: Outcome)
    modifies fs, client
    ensures var r := Exec(SummarizeStage(postingDir, fs.cwd), World(fs.cwd, old(fs.files), client.apiKey), client.answer, codec);
      outcome == r.outcome && fs.files == r.files && client.requests == old(client.requests) + r.asked
  {
    outcome := Runner.Run(SummarizeStage(postingDir, fs.cwd), fs, client, codec);
  }

  /** The summary sits beside `posting.txt`, next to the report it is made from, and the
      template comes from the `prompts` directory of the working directory. */
  lemma SummaryBesideReport(postingDir: string, cwd: string)
    ensures Dirname(SummaryPath(postingDir)) == Dirname(Screening.PostingPath(postingDir))
    ensures Dirname(Screening.ReportPath(postingDir)) == Dirname(Screening.PostingPath(postingDir))
    ensures Dirname(TemplatePath(cwd)) == Join(cwd, "prompts")
  {
    assert Dirname(SummaryPath(postingDir)) == Dirname(Screening.PostingPath(postingDir)) by {
      DirnameDirForm(Screening.PostingPath(postingDir));
      JoinSplits(Dirname(Screening.PostingPath(postingDir)), "screening_summary.md");
    }
    Screening.ReportBesidePosting(postingDir);
    TemplateInPrompts(cwd);
  }

  lemma TemplateInPrompts(cwd: string)
    ensures Dirname(TemplatePath(cwd)) == Join(cwd, "prompts")
  {
    JoinNamedDirForm(cwd, "prompts");
    JoinSplits(Join(cwd, "prompts"), "screening-summary-prompt.txt");
  }

  /** A missing report exits with status 1 before the template is read or the service asked. */
  lemma MissingReportExits(report: string, template: string, summary: string,
                           w: World, answer: string -> Reply, codec: Codec)
    requires w.apiKey && !Present(w, report)
    ensures Exec(Summarize(report, template, summary), w, answer, codec) == Run(Failed(MissingInput(report)), w.files, [])
    ensures ExitStatus(Exec(Summarize(report, template, summary), w, answer, codec).outcome) == 1
  {
    HaltsAtFirstBlock(Summarize(report, template, summary).steps, 0, w, [], 1);
  }

  /** The template is read without a check: when it is missing the process fails before inference. */
  lemma MissingTemplateExits(report: string, template: string, summary: string,
                             w: World, answer: string -> Reply, codec: Codec)
    requires w.apiKey && Present(w, report) && !Present(w, template)
    ensures Exec(Summarize(report, template, summary), w, answer, codec) == Run(Failed(MissingInput(template)), w.files, [])
    ensures ExitStatus(Exec(Summarize(report, template, summary), w, answer, codec).outcome) == 1
  {
    var st := Summarize(report, template, summary);
    HaltsAtFirstBlock(st.steps, 0, w, [], 3);
  }

  /** With both inputs present the request is the template, the header and the report; the
      summary file, whether or not it existed, ends up holding exactly `markdown_content`.
      A response that parses but lacks that text field leaves the file truncated to empty. */
  lemma WritesMarkdown(report: string, template: string, summary: string,
                       w: World, answer: string -> Reply, codec: Codec)
    requires w.apiKey && Present(w, report) && Present(w, template)
    ensures var r := Exec(Summarize(report, template, summary), w, answer, codec);
      var rq := Contents(w, template) + DataHeader + Contents(w, report);
      var k := Store.Key(w.cwd, summary);
      r.asked == [rq] &&
      match answer(rq)
      case Raised => r.outcome == Failed(InferenceFailure) && r.files == w.files
      case Returned(text) =>
        match codec.loads(text)
        case None => r.outcome == Failed(ParseFailure) && r.files == w.files
        case Some(result) =>
          match TextField(result, "markdown_content")
          case None => r.outcome == Failed(ResultShape) && r.files == w.files[k := ""]
          case Some(md) => r.outcome == Done && r.files == w.files[k := md]
  {
    var st := Summarize(report, template, summary);
    var d, t := Contents(w, report), Contents(w, template);
    assert Prepare(st.steps, 0, w, []) == Go([d, t]) by {
      assert [] + [d] == [d] && [d] + [t] == [d, t];
      assert Prepare(st.steps, 0, w, []) == Prepare(st.steps, 2, w, []);
      assert Prepare(st.steps, 2, w, []) == Prepare(st.steps, 3, w, [d]);
      assert Prepare(st.steps, 3, w, [d]) == Prepare(st.steps, 4, w, [d, t]);
    }
  }
}
