/**
 * agent2.py: the single-directory evaluator. Every path is formed in `dirname` of the
 * argument string, so an argument without a trailing separator names its parent directory.
 * There are no existence checks: the first missing file ends the process before inference.
 * The evaluation is overwritten on every run.
 */
module LegacyEvaluation {
  import opened Wrappers
  import opened Json
  import opened Gemini
  import opened Paths
  import opened Pipeline
  import Store
  import Runner
  import CandidateEvaluation

  /** `os.path.dirname(args.posting_directory)` */
  function Directory(arg: string): string
  {
    Dirname(arg)
  }

  function QuestionsPath(arg: string): string
  {
    Join(Directory(arg), "questions.json")
  }

  function PostingPath(arg: string): string
  {
    Join(Directory(arg), "posting.txt")
  }

  function ResumePath(arg: string): string
  {
    Join(Directory(arg), "resume.md")
  }

  function EvaluationPath(arg: string): string
  {
    Join(Directory(arg), "candidate_evaluation.json")
  }

  /** Client, four unchecked reads, the open-then-parse write. */
  function Evaluate(questions: string, posting: string, resume: string, evaluation: string): (st: Stage)
    ensures st.output == evaluation && Unguarded(st)
    ensures Loaded(st.steps, 0) == [questions, resume, posting, CandidateEvaluation.PromptPath]
    ensures Checked(st.steps, 0) == []
  {
    var st := Stage(
      [Connect, Load(questions), Load(resume), Load(posting), Load(CandidateEvaluation.PromptPath)],
      texts => At(texts, 3) + CandidateEvaluation.RequirementsHeader + At(texts, 0)
                + CandidateEvaluation.ResumeHeader + At(texts, 1)
                + CandidateEvaluation.PostingHeader + At(texts, 2),
      evaluation,
      DumpOnOpen,
      result => true);
    assert Loaded(st.steps, 4) == [CandidateEvaluation.PromptPath] && Checked(st.steps, 4) == [];
    assert Loaded(st.steps, 3) == [posting, CandidateEvaluation.PromptPath] && Checked(st.steps, 3) == [];
    assert Loaded(st.steps, 2) == [resume, posting, CandidateEvaluation.PromptPath] && Checked(st.steps, 2) == [];
    assert Loaded(st.steps, 1) == [questions, resume, posting, CandidateEvaluation.PromptPath] && Checked(st.steps, 1) == [];
    st
  }

  function EvaluateStage(arg: string): Stage
  {
    Evaluate(QuestionsPath(arg), PostingPath(arg), ResumePath(arg), EvaluationPath(arg))
  }

  method Invoke(arg: string, fs: Store.FileSystem, client: Client, codec: Codec) returns (outcome: Outcome)
    modifies fs, client
    ensures var r := Exec(EvaluateStage(arg), World(fs.cwd, old(fs.files), client.apiKey), client.answer, codec);
      outcome == r.outcome && fs.files == r.files && client.requests == old(client.requests) + r.asked
  {
    outcome := Runner.Run(EvaluateStage(arg), fs, client, codec);
  }

  /** For `arg` formed as `dir/name`, `dirname(arg)` is `dir`, the parent of the named directory. */
  lemma DirectoryIsParent(dir: string, name: string)
    requires DirForm(dir) && NoSlash(name)
    ensures Directory(Join(dir, name)) == dir
  {
    JoinSplits(dir, name);
  }

  /** A plain name joined onto `Directory(arg)` lies directly in it. */
  lemma InDirectory(arg: string, name: string)
    requires NoSlash(name)
    ensures Dirname(Join(Directory(arg), name)) == Directory(arg)
  {
    DirnameDirForm(arg);
    JoinSplits(Directory(arg), name);
  }

  /** All four files sit directly in `Directory(arg)`. */
  lemma FilesInDirectory(arg: string)
    ensures Dirname(QuestionsPath(arg)) == Directory(arg)
    ensures Dirname(PostingPath(arg)) == Directory(arg)
    ensures Dirname(ResumePath(arg)) == Directory(arg)
    ensures Dirname(EvaluationPath(arg)) == Directory(arg)
  {
    InDirectory(arg, "questions.json");
    InDirectory(arg, "posting.txt");
    InDirectory(arg, "resume.md");
    InDirectory(arg, "candidate_evaluation.json");
  }

  /** An argument with a trailing separator names the directory itself, and only such an
      argument does: any other non-empty argument is cut back to its parent. */
  lemma TrailingSeparatorNamesDir(dir: string, arg: string)
    requires dir != [] && dir[|dir| - 1] != '/'
    ensures Directory(dir + "/") == dir
    ensures arg != [] && arg[|arg| - 1] != '/' ==> Directory(arg) != arg
  {
    assert Join(dir, "") == dir + "/";
    JoinSplits(dir, "");
  }

  /** The first missing file among questions, resume, posting and template, in that order,
      ends the process before inference; no existence check precedes the reads. */
  lemma MissingInputExits(questions: string, posting: string, resume: string, evaluation: string,
                          w: World, answer: string -> Reply, codec: Codec)
    requires w.apiKey
    requires !Present(w, questions) || !Present(w, resume) || !Present(w, posting)
             || !Present(w, CandidateEvaluation.PromptPath)
    ensures var missing := FirstMissing(w, [questions, resume, posting, CandidateEvaluation.PromptPath]);
      missing.Some? &&
      Exec(Evaluate(questions, posting, resume, evaluation), w, answer, codec)
        == Run(Failed(MissingInput(missing.value)), w.files, [])
    ensures ExitStatus(Exec(Evaluate(questions, posting, resume, evaluation), w, answer, codec).outcome) == 1
  {
    var steps := Evaluate(questions, posting, resume, evaluation).steps;
    var ps := [questions, resume, posting, CandidateEvaluation.PromptPath];
    assert !(forall j :: 0 <= j < |ps| ==> Present(w, ps[j])) by {
      assert ps[0] == questions && ps[1] == resume && ps[2] == posting && ps[3] == CandidateEvaluation.PromptPath;
    }
    assert forall j :: 0 <= j < |ps| ==> steps[1 + j] == Load(ps[j]);
    LoadsHaltAtFirstMissing(steps, 1, w, [], ps);
  }

  /** With every file present the four texts are read in the order questions, resume,
      posting, template. */
  lemma ReadsInputs(questions: string, posting: string, resume: string, evaluation: string, w: World)
    requires w.apiKey
    requires Present(w, questions) && Present(w, posting) && Present(w, resume)
             && Present(w, CandidateEvaluation.PromptPath)
    ensures Prepare(Evaluate(questions, posting, resume, evaluation).steps, 0, w, [])
      == Go([Contents(w, questions), Contents(w, resume), Contents(w, posting), Contents(w, CandidateEvaluation.PromptPath)])
  {
    var st := Evaluate(questions, posting, resume, evaluation);
    var q, p, c, t := Contents(w, questions), Contents(w, posting), Contents(w, resume), Contents(w, CandidateEvaluation.PromptPath);
    assert [] + [q] == [q] && [q] + [c] == [q, c] && [q, c] + [p] == [q, c, p] && [q, c, p] + [t] == [q, c, p, t];
    assert Prepare(st.steps, 0, w, []) == Prepare(st.steps, 1, w, []);
    assert Prepare(st.steps, 1, w, []) == Prepare(st.steps, 2, w, [q]);
    assert Prepare(st.steps, 2, w, [q]) == Prepare(st.steps, 3, w, [q, c]);
    assert Prepare(st.steps, 3, w, [q, c]) == Prepare(st.steps, 4, w, [q, c, p]);
    assert Prepare(st.steps, 4, w, [q, c, p]) == Prepare(st.steps, 5, w, [q, c, p, t]);
  }

  /** With every file present the request has the fixed order template, requirements, resume,
      posting; the evaluation is written only after the service returns, and overwrites. */
  lemma EvaluatesCandidate(questions: string, posting: string, resume: string, evaluation: string,
                           w: World, answer: string -> Reply, codec: Codec)
    requires w.apiKey
    requires Present(w, questions) && Present(w, posting) && Present(w, resume)
             && Present(w, CandidateEvaluation.PromptPath)
    ensures var r := Exec(Evaluate(questions, posting, resume, evaluation), w, answer, codec);
      var rq := Contents(w, CandidateEvaluation.PromptPath) + CandidateEvaluation.RequirementsHeader
                + Contents(w, questions) + CandidateEvaluation.ResumeHeader + Contents(w, resume)
                + CandidateEvaluation.PostingHeader + Contents(w, posting);
      var k := Store.Key(w.cwd, evaluation);
      r.asked == [rq] &&
      match answer(rq)
      case Raised => r.outcome == Failed(InferenceFailure) && r.files == w.files
      case Returned(text) =>
        match codec.loads(text)
        case None => r.outcome == Failed(ParseFailure) && r.files == w.files[k := ""]
        case Some(result) => r.outcome == Done && r.files == w.files[k := codec.dumps(result)]
  {
    ReadsInputs(questions, posting, resume, evaluation, w);
  }
}
