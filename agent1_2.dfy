/**
 * agent1_2.py: evaluates a candidate's resume against a posting's requirements and writes
 * `candidate_evaluation.json` into the candidate directory. The candidate directory defaults
 * to the posting directory. All four inputs are checked before anything is read; there is no
 * skip check, so an existing evaluation is overwritten.
 */
module CandidateEvaluation {
  import opened Wrappers
  import opened Json
  import opened Gemini
  import opened Paths
  import opened Pipeline
  import Store
  import Runner

  /** `args.candidate_directory if args.candidate_directory else args.posting_directory`:
      an omitted or empty argument falls back to the posting directory. */
  function CandidateDir(postingArg: string, candidateArg: Option<string>): string
  {
    if candidateArg.Some? && candidateArg.value != "" then candidateArg.value else postingArg
  }

  function PostingBase(cwd: string, postingArg: string): string
  {
    Abspath(cwd, postingArg)
  }

  function CandidateBase(cwd: string, candidateDir: string): string
  {
    Abspath(cwd, candidateDir)
  }

  function QuestionsPath(cwd: string, postingArg: string): string
  {
    Join(PostingBase(cwd, postingArg), "questions.json")
  }

  function PostingPath(cwd: string, postingArg: string): string
  {
    Join(PostingBase(cwd, postingArg), "posting.txt")
  }

  function ResumePath(cwd: string, candidateDir: string): string
  {
    Join(CandidateBase(cwd, candidateDir), "resume.md")
  }

  function EvaluationPath(cwd: string, candidateDir: string): string
  {
    Join(CandidateBase(cwd, candidateDir), "candidate_evaluation.json")
  }

  const PromptPath := "prompts/candidate-evaluator-prompt.txt"
  const RequirementsHeader := "\n\n### REQUIREMENTS:\n"
  const ResumeHeader := "\n\n### RESUME:\n"
  const PostingHeader := "\n\n### POSTING CONTEXT:\n"

  /** Client, the four-path existence loop, the four reads, the open-then-parse write. */
  function Evaluate(questions: string, posting: string, resume: string, evaluation: string): (st: Stage)
    ensures st.output == evaluation && Unguarded(st)
    ensures Loaded(st.steps, 0) == [questions, resume, posting, PromptPath]
    ensures Checked(st.steps, 0) == [questions, posting, resume, PromptPath]
  {
    var st := Stage(
      [Connect, Require([questions, posting, resume, PromptPath]),
       Load(questions), Load(resume), Load(posting), Load(PromptPath)],
      texts => At(texts, 3) + RequirementsHeader + At(texts, 0) + ResumeHeader + At(texts, 1)
                + PostingHeader + At(texts, 2),
      evaluation,
      DumpOnOpen,
      result => true);
    assert Loaded(st.steps, 5) == [PromptPath] && Checked(st.steps, 5) == [];
    assert Loaded(st.steps, 4) == [posting, PromptPath] && Checked(st.steps, 4) == [];
    assert Loaded(st.steps, 3) == [resume, posting, PromptPath] && Checked(st.steps, 3) == [];
    assert Loaded(st.steps, 2) == [questions, resume, posting, PromptPath] && Checked(st.steps, 2) == [];
    st
  }

  function EvaluateStage(postingArg: string, candidateArg: Option<string>, cwd: string): Stage
  {
    var candidateDir := CandidateDir(postingArg, candidateArg);
    Evaluate(QuestionsPath(cwd, postingArg), PostingPath(cwd, postingArg),
             ResumePath(cwd, candidateDir), EvaluationPath(cwd, candidateDir))
  }

  method Invoke(postingArg: string, candidateArg: Option<string>, fs: Store.FileSystem, client: Client, codec: Codec)
    returns (outcome: Outcome)
    modifies fs, client
    ensures var r := Exec(EvaluateStage(postingArg, candidateArg, fs.cwd), World(fs.cwd, old(fs.files), client.apiKey), client.answer, codec);
      outcome == r.outcome && fs.files == r.files && client.requests == old(client.requests) + r.asked
  {
    outcome := Runner.Run(EvaluateStage(postingArg, candidateArg, fs.cwd), fs, client, codec);
  }

  /** Without a candidate argument the candidate directory is the posting directory. */
  lemma DefaultsToPostingDir(cwd: string, postingArg: string, candidateArg: Option<string>)
    ensures candidateArg == None || candidateArg == Some("") ==>
      CandidateBase(cwd, CandidateDir(postingArg, candidateArg)) == PostingBase(cwd, postingArg)
    ensures candidateArg.Some? && candidateArg.value != "" ==>
      CandidateBase(cwd, CandidateDir(postingArg, candidateArg)) == Abspath(cwd, candidateArg.value)
  {
  }

  /** Questions and posting are read from the posting directory. */
  lemma PostingInputs(cwd: string, postingArg: string)
    ensures Dirname(QuestionsPath(cwd, postingArg)) == PostingBase(cwd, postingArg)
    ensures Dirname(PostingPath(cwd, postingArg)) == PostingBase(cwd, postingArg)
  {
    AbspathChild(cwd, postingArg, "questions.json");
    AbspathChild(cwd, postingArg, "posting.txt");
  }

  /** The resume is read from, and the evaluation written to, the candidate directory. */
  lemma CandidateFiles(cwd: string, candidateDir: string)
    ensures Dirname(ResumePath(cwd, candidateDir)) == CandidateBase(cwd, candidateDir)
    ensures Dirname(EvaluationPath(cwd, candidateDir)) == CandidateBase(cwd, candidateDir)
  {
    AbspathChild(cwd, candidateDir, "resume.md");
    AbspathChild(cwd, candidateDir, "candidate_evaluation.json");
  }

  /** Any of the four inputs missing ends the run with status 1, naming the first missing one
      in the order questions, posting, resume, template, before the service is asked. */
  lemma MissingInputExits(questions: string, posting: string, resume: string, evaluation: string,
                          w: World, answer: string -> Reply, codec: Codec)
    requires w.apiKey
    requires !Present(w, questions) || !Present(w, posting) || !Present(w, resume) || !Present(w, PromptPath)
    ensures var missing := FirstMissing(w, [questions, posting, resume, PromptPath]);
      missing.Some? &&
      Exec(Evaluate(questions, posting, resume, evaluation), w, answer, codec)
        == Run(Failed(MissingInput(missing.value)), w.files, [])
    ensures ExitStatus(Exec(Evaluate(questions, posting, resume, evaluation), w, answer, codec).outcome) == 1
  {
    var ps := [questions, posting, resume, PromptPath];
    assert !(forall j :: 0 <= j < |ps| ==> Present(w, ps[j])) by {
      assert ps[0] == questions && ps[1] == posting && ps[2] == resume && ps[3] == PromptPath;
    }
    HaltsAtFirstBlock(Evaluate(questions, posting, resume, evaluation).steps, 0, w, [], 1);
  }

  /** With every input present the checks pass and the four texts are read in the order
      questions, resume, posting, template. */
  lemma ReadsInputs(questions: string, posting: string, resume: string, evaluation: string, w: World)
    requires w.apiKey
    requires Present(w, questions) && Present(w, posting) && Present(w, resume) && Present(w, PromptPath)
    ensures Prepare(Evaluate(questions, posting, resume, evaluation).steps, 0, w, [])
      == Go([Contents(w, questions), Contents(w, resume), Contents(w, posting), Contents(w, PromptPath)])
  {
    var st := Evaluate(questions, posting, resume, evaluation);
    assert FirstMissing(w, [questions, posting, resume, PromptPath]) == None;
    assert forall j :: 0 <= j < |st.steps| ==> Passes(st.steps[j], w);
    ReadsWhenAllPass(st.steps, w);
  }

  /** With every input present the request is template, requirements, resume and posting under
      their headers, whether or not an evaluation exists; the evaluation is then overwritten
      with the parsed response, or truncated to empty when the response does not parse. */
  lemma EvaluatesCandidate(questions: string, posting: string, resume: string, evaluation: string,
                           w: World, answer: string -> Reply, codec: Codec)
    requires w.apiKey
    requires Present(w, questions) && Present(w, posting) && Present(w, resume) && Present(w, PromptPath)
    ensures var r := Exec(Evaluate(questions, posting, resume, evaluation), w, answer, codec);
      var rq := Contents(w, PromptPath) + RequirementsHeader + Contents(w, questions) + ResumeHeader
                + Contents(w, resume) + PostingHeader + Contents(w, posting);
      var k := Store.Key(w.cwd, evaluation);
      r.asked == [rq] &&
      match answer(rq)
      case Raised => r.outcome == Failed(InferenceFailure) && r.files == w.files
      case Returned(text) =>
        match codec.loads(text)
        case None => r.outcome == Failed(ParseFailure) && r.files == w.files[k := ""]
        case Some(result) => r.outcome == Done && r.files == w.files[k := codec.dumps(result)]
  {
    ReadsInputs(questions, posting, resume, evaluation, w);
  }
}
