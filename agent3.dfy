/**
 * agent3.py: turns `candidate_evaluation.json` of one directory into `executive_summary.md`
 * in the same directory, holding the response's `markdown_content`. There is no skip check.
 * After the write the recommendation and fit percentage are printed; a response without them
 * exits with status 1 although the summary is already written.
 */
module ExecutiveSummary {
  import opened Wrappers
  import opened Json
  import opened Gemini
  import opened Paths
  import opened Pipeline
  import Store
  import Runner
  import CandidateEvaluation

  function BaseDir(cwd: string, dir: string): string
  {
    Abspath(cwd, dir)
  }

  function EvaluationPath(cwd: string, dir: string): string
  {
    Join(BaseDir(cwd, dir), "candidate_evaluation.json")
  }

  function SummaryPath(cwd: string, dir: string): string
  {
    Join(BaseDir(cwd, dir), "executive_summary.md")
  }

  const PromptPath := "prompts/executive-summary-prompt.txt"
  const DataHeader := "\n\n### CANDIDATE EVALUATION DATA:\n"
  /** The fields the console summary after the write indexes. */
  const Printed := ["recommendation", "fit_percentage"]

  /** Client, existence check of the evaluation, the two reads, the field write. */
  function Summarize(evaluation: string, summary: string): (st: Stage)
    ensures st.output == summary && Unguarded(st)
    ensures Loaded(st.steps, 0) == [evaluation, PromptPath] && Checked(st.steps, 0) == [evaluation]
  {
    var st := Stage(
      [Connect, Require([evaluation]), Load(evaluation), Load(PromptPath)],
      texts => At(texts, 1) + DataHeader + At(texts, 0),
      summary,
      WriteField("markdown_content"),
      result => HasFields(result, Printed));
    assert Loaded(st.steps, 3) == [PromptPath] && Checked(st.steps, 3) == [];
    assert Loaded(st.steps, 2) == [evaluation, PromptPath] && Checked(st.steps, 2) == [];
    st
  }

  function SummarizeStage(dir: string, cwd: string): Stage
  {
    Summarize(EvaluationPath(cwd, dir), SummaryPath(cwd, dir))
  }

  method Invoke(dir: string, fs: Store.FileSystem, client: Client, codec: Codec) returns (outcome: Outcome)
    modifies fs, client
    ensures var r := Exec(SummarizeStage(dir, fs.cwd), World(fs.cwd, old(fs.files), client.apiKey), client.answer, codec);
      outcome == r.outcome && fs.files == r.files && client.requests == old(client.requests) + r.asked
  {
    outcome := Runner.Run(SummarizeStage(dir, fs.cwd), fs, client, codec);
  }

  /** Input and output live in the one given directory. */
  lemma SameDirectory(cwd: string, dir: string)
    ensures Dirname(EvaluationPath(cwd, dir)) == BaseDir(cwd, dir)
    ensures Dirname(SummaryPath(cwd, dir)) == BaseDir(cwd, dir)
  {
    EvaluationInDirectory(cwd, dir);
    SummaryInDirectory(cwd, dir);
  }

  lemma EvaluationInDirectory(cwd: string, dir: string)
    ensures Dirname(EvaluationPath(cwd, dir)) == BaseDir(cwd, dir)
  {
    AbspathChild(cwd, dir, "candidate_evaluation.json");
  }

  lemma SummaryInDirectory(cwd: string, dir: string)
    ensures Dirname(SummaryPath(cwd, dir)) == BaseDir(cwd, dir)
  {
    AbspathChild(cwd, dir, "executive_summary.md");
  }

  /** The input is exactly the file the candidate evaluator writes when it is given no
      candidate directory. */
  lemma ReadsEvaluatorOutput(cwd: string, dir: string)
    ensures EvaluationPath(cwd, dir) == CandidateEvaluation.EvaluationPath(cwd, CandidateEvaluation.CandidateDir(dir, None))
  {
  }

  /** A missing evaluation exits with status 1 before the prompt is read or the service asked. */
  lemma MissingEvaluationExits(evaluation: string, summary: string, w: World, answer: string -> Reply, codec: Codec)
    requires w.apiKey && !Present(w, evaluation)
    ensures Exec(Summarize(evaluation, summary), w, answer, codec) == Run(Failed(MissingInput(evaluation)), w.files, [])
    ensures ExitStatus(Exec(Summarize(evaluation, summary), w, answer, codec).outcome) == 1
  {
    HaltsAtFirstBlock(Summarize(evaluation, summary).steps, 0, w, [], 1);
  }

  /** Once the evaluator has completed with its output at `evaluation`, a summary reading that
      file gets past its existence check: it reaches the service exactly when the prompt
      template exists. With `ReadsEvaluatorOutput` this links the two stages for a directory. */
  lemma EvaluationEnablesSummary(questions: string, posting: string, resume: string, evaluation: string,
                                 summary: string, w: World, answer: string -> Reply, codec: Codec,
                                 answer2: string -> Reply, codec2: Codec)
    requires w.apiKey
    requires Exec(CandidateEvaluation.Evaluate(questions, posting, resume, evaluation), w, answer, codec).outcome == Done
    ensures var w2 := w.(files := Exec(CandidateEvaluation.Evaluate(questions, posting, resume, evaluation), w, answer, codec).files);
      Present(w2, evaluation) &&
      (Exec(Summarize(evaluation, summary), w2, answer2, codec2).asked != [] <==> Present(w2, PromptPath))
  {
    var st := CandidateEvaluation.Evaluate(questions, posting, resume, evaluation);
    DoneWritesOutput(st, w, answer, codec);
    var w2 := w.(files := Exec(st, w, answer, codec).files);
    var su := Summarize(evaluation, summary);
    SkipIsSilent(su, w2, answer2, codec2);
    var e := Contents(w2, evaluation);
    assert Prepare(su.steps, 0, w2, []) == Prepare(su.steps, 3, w2, [e]) by {
      assert [] + [e] == [e];
      assert Prepare(su.steps, 0, w2, []) == Prepare(su.steps, 2, w2, []);
      assert Prepare(su.steps, 2, w2, []) == Prepare(su.steps, 3, w2, [e]);
    }
    if Present(w2, PromptPath) {
      assert Prepare(su.steps, 3, w2, [e]) == Go([e, Contents(w2, PromptPath)]);
    }
  }

  /** With both inputs present the request is template, header and evaluation; the summary,
      existing or not, then holds exactly `markdown_content`, and the run completes only when
      the response also carries the recommendation and the fit percentage. */
  lemma WritesMarkdown(evaluation: string, summary: string, w: World, answer: string -> Reply, codec: Codec)
    requires w.apiKey && Present(w, evaluation) && Present(w, PromptPath)
    ensures var r := Exec(Summarize(evaluation, summary), w, answer, codec);
      var rq := Contents(w, PromptPath) + DataHeader + Contents(w, evaluation);
      var k := Store.Key(w.cwd, summary);
      r.asked == [rq] &&
      match answer(rq)
      case Raised => r.outcome == Failed(InferenceFailure) && r.files == w.files
      case Returned(text) =>
        match codec.loads(text)
        case None => r.outcome == Failed(ParseFailure) && r.files == w.files
        case Some(result) =>
          match TextField(result, "markdown_content")
          case None => r.outcome == Failed(ResultShape) && r.files == w.files[k := ""]
          case Some(md) =>
            r.files == w.files[k := md] &&
            (r.outcome == Done <==> HasFields(result, Printed))
  {
    var st := Summarize(evaluation, summary);
    var e, t := Contents(w, evaluation), Contents(w, PromptPath);
    assert Prepare(st.steps, 0, w, []) == Go([e, t]) by {
      assert [] + [e] == [e] && [e] + [t] == [e, t];
      assert Prepare(st.steps, 0, w, []) == Prepare(st.steps, 2, w, []);
      assert Prepare(st.steps, 2, w, []) == Prepare(st.steps, 3, w, [e]);
      assert Prepare(st.steps, 3, w, [e]) == Prepare(st.steps, 4, w, [e, t]);
    }
  }
}
