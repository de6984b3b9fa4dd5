/**
 * agent1_1.py: extracts the binary requirements of a posting into `questions.json`, in the
 * directory of the absolute `posting.txt`. The client is constructed before the skip check,
 * so the check is only reached when credentials are found. The output file is opened for
 * writing before the response is parsed.
 */
module RequirementExtraction {
  import opened Json
  import opened Gemini
  import opened Paths
  import opened Pipeline
  import Store
  import Runner

  function PostingPath(postingDir: string): string
  {
    Join(postingDir, "posting.txt")
  }

  function QuestionsPath(cwd: string, postingDir: string): string
  {
    Join(Dirname(Abspath(cwd, PostingPath(postingDir))), "questions.json")
  }

  const PromptPath := "prompts/job-requirement-analyzer-prompt.txt"
  const PostingHeader := "\n\n[JOB POSTING]:\n"

  /** Client, skip, the prompt and the posting read without checks, the open-then-parse write. */
  function Extract(posting: string, questions: string): (st: Stage)
    ensures st.output == questions && SkipGuarded(st)
    ensures Loaded(st.steps, 0) == [PromptPath, posting] && Checked(st.steps, 0) == []
  {
    var st := Stage(
      [Connect, SkipIfExists(questions), Load(PromptPath), Load(posting)],
      texts => At(texts, 0) + PostingHeader + At(texts, 1),
      questions,
      DumpOnOpen,
      result => true);
    assert Loaded(st.steps, 3) == [posting] && Checked(st.steps, 3) == [];
    assert Loaded(st.steps, 2) == [PromptPath, posting] && Checked(st.steps, 2) == [];
    assert st.steps[0] == Connect && st.steps[1] == SkipIfExists(st.output);
    st
  }

  function ExtractStage(postingDir: string, cwd: string): Stage
  {
    Extract(PostingPath(postingDir), QuestionsPath(cwd, postingDir))
  }

  method Invoke(postingDir: string, fs: Store.FileSystem, client: Client, codec: Codec) returns (outcome: Outcome)
    modifies fs, client
    ensures var r := Exec(ExtractStage(postingDir, fs.cwd), World(fs.cwd, old(fs.files), client.apiKey), client.answer, codec);
      outcome == r.outcome && fs.files == r.files && client.requests == old(client.requests) + r.asked
  {
    outcome := Runner.Run(ExtractStage(postingDir, fs.cwd), fs, client, codec);
  }

  /** `questions.json` is named `questions.json` and lies in the directory of `abspath(posting.txt)`. */
  lemma QuestionsBesidePosting(cwd: string, postingDir: string)
    ensures Dirname(QuestionsPath(cwd, postingDir)) == Dirname(Abspath(cwd, PostingPath(postingDir)))
    ensures Basename(QuestionsPath(cwd, postingDir)) == "questions.json"
  {
    DirnameDirForm(Abspath(cwd, PostingPath(postingDir)));
    JoinSplits(Dirname(Abspath(cwd, PostingPath(postingDir))), "questions.json");
  }

  /** The client comes first: without credentials the run fails even when the output exists. */
  lemma ClientBeforeSkip(posting: string, questions: string, w: World, answer: string -> Reply, codec: Codec)
    requires !w.apiKey
    ensures Exec(Extract(posting, questions), w, answer, codec) == Run(Failed(NoCredentials), w.files, [])
    ensures ExitStatus(Exec(Extract(posting, questions), w, answer, codec).outcome) == 1
  {
  }

  /** An existing `questions.json` ends the run with no read, no service call and no write. */
  lemma SkipsExistingQuestions(posting: string, questions: string, w: World, answer: string -> Reply, codec: Codec)
    requires w.apiKey && Present(w, questions)
    ensures Exec(Extract(posting, questions), w, answer, codec) == Run(Skipped, w.files, [])
    ensures ExitStatus(Exec(Extract(posting, questions), w, answer, codec).outcome) == 0
  {
    HaltsAtFirstBlock(Extract(posting, questions).steps, 0, w, [], 1);
  }

  /** A missing prompt or posting ends the process before the service is asked; the prompt is
      read first. */
  lemma MissingInputExits(posting: string, questions: string, w: World, answer: string -> Reply, codec: Codec)
    requires w.apiKey && !Present(w, questions)
    requires !Present(w, PromptPath) || !Present(w, posting)
    ensures Exec(Extract(posting, questions), w, answer, codec)
      == Run(Failed(MissingInput(if !Present(w, PromptPath) then PromptPath else posting)), w.files, [])
    ensures ExitStatus(Exec(Extract(posting, questions), w, answer, codec).outcome) == 1
  {
    var k := if !Present(w, PromptPath) then 2 else 3;
    HaltsAtFirstBlock(Extract(posting, questions).steps, 0, w, [], k);
  }

  /** The request is the prompt, the `[JOB POSTING]` header and the posting. A response is
      written whole once it parses; one that does not parse leaves `questions.json` empty, since
      the file was opened for writing first. A raising call writes nothing. */
  lemma ExtractsRequirements(posting: string, questions: string, w: World, answer: string -> Reply, codec: Codec)
    requires w.apiKey && !Present(w, questions)
    requires Present(w, PromptPath) && Present(w, posting)
    ensures var r := Exec(Extract(posting, questions), w, answer, codec);
      var rq := Contents(w, PromptPath) + PostingHeader + Contents(w, posting);
      var k := Store.Key(w.cwd, questions);
      r.asked == [rq] &&
      match answer(rq)
      case Raised => r.outcome == Failed(InferenceFailure) && r.files == w.files
      case Returned(text) =>
        match codec.loads(text)
        case None => r.outcome == Failed(ParseFailure) && r.files == w.files[k := ""]
        case Some(result) => r.outcome == Done && r.files == w.files[k := codec.dumps(result)]
  {
    var st := Extract(posting, questions);
    var t, p := Contents(w, PromptPath), Contents(w, posting);
    assert Prepare(st.steps, 0, w, []) == Go([t, p]) by {
      assert [] + [t] == [t] && [t] + [p] == [t, p];
      assert Prepare(st.steps, 0, w, []) == Prepare(st.steps, 2, w, []);
      assert Prepare(st.steps, 2, w, []) == Prepare(st.steps, 3, w, [t]);
      assert Prepare(st.steps, 3, w, [t]) == Prepare(st.steps, 4, w, [t, p]);
    }
  }

  /** The empty file a parse failure leaves behind is honoured by the skip check: every later
      run skips and the requirement set stays empty until someone deletes it. */
  lemma EmptyQuestionsBlockRerun(posting: string, questions: string, w: World, answer: string -> Reply, codec: Codec,
                                 answer2: string -> Reply, codec2: Codec)
    requires w.apiKey && !Present(w, questions)
    requires Present(w, PromptPath) && Present(w, posting)
    requires var rq := Contents(w, PromptPath) + PostingHeader + Contents(w, posting);
      answer(rq).Returned? && codec.loads(answer(rq).text).None?
    ensures var first := Exec(Extract(posting, questions), w, answer, codec);
      first.outcome == Failed(ParseFailure) &&
      Store.Key(w.cwd, questions) in first.files && first.files[Store.Key(w.cwd, questions)] == "" &&
      Exec(Extract(posting, questions), w.(files := first.files), answer2, codec2) == Run(Skipped, first.files, [])
  {
    ExtractsRequirements(posting, questions, w, answer, codec);
    RerunSkips(Extract(posting, questions), w, answer, codec, answer2, codec2, 1);
  }
}
