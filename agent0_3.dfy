/**
 * agent0_3.py: profiles the product behind a job posting into `product_profile.json`, all
 * under the absolute posting directory. An existing profile skips the stage. A user-provided
 * `product_info.txt` is optional context; when it is missing or empty the request carries a
 * fixed placeholder instead.
 */
module ProductProfile {
  import opened Json
  import opened Gemini
  import opened Paths
  import opened Pipeline
  import Store
  import Runner

  function BaseDir(cwd: string, postingDir: string): string
  {
    Abspath(cwd, postingDir)
  }

  function PostingPath(cwd: string, postingDir: string): string
  {
    Join(BaseDir(cwd, postingDir), "posting.txt")
  }

  function ContextPath(cwd: string, postingDir: string): string
  {
    Join(BaseDir(cwd, postingDir), "product_info.txt")
  }

  function ProfilePath(cwd: string, postingDir: string): string
  {
    Join(BaseDir(cwd, postingDir), "product_profile.json")
  }

  const TemplatePath := "prompts/product-profiler-prompt.txt"
  const PostingHeader := "\n\n### JOB POSTING:\n"
  const ContextHeader := "\n\n### USER-PROVIDED PRODUCT CONTEXT:\n"
  const NoContext := "No additional context provided."
  const Instruction := "\n\nINSTRUCTION: Use ONLY the provided Job Posting and Product Context. If details are missing, state 'Not specified' rather than hallucinating."

  /** The extra context as it enters the request: `extra_context if extra_context else ...`. */
  function ContextSection(extra: string): string
  {
    if extra != "" then extra else NoContext
  }

  /** Skip, client, the posting, the optional context, the template, the whole-result write. */
  function Profile(posting: string, context: string, profile: string): (st: Stage)
    ensures st.output == profile && SkipGuarded(st)
    ensures Loaded(st.steps, 0) == [posting, context, TemplatePath] && Checked(st.steps, 0) == []
  {
    var st := Stage(
      [SkipIfExists(profile), Connect, Load(posting), LoadOptional(context), Load(TemplatePath)],
      texts => At(texts, 2) + PostingHeader + At(texts, 0) + ContextHeader + ContextSection(At(texts, 1)) + Instruction,
      profile,
      DumpParsed,
      result => true);
    assert Loaded(st.steps, 4) == [TemplatePath] && Checked(st.steps, 4) == [];
    assert Loaded(st.steps, 3) == [context, TemplatePath] && Checked(st.steps, 3) == [];
    assert Loaded(st.steps, 2) == [posting, context, TemplatePath] && Checked(st.steps, 2) == [];
    assert st.steps[0] == SkipIfExists(st.output);
    st
  }

  function ProfileStage(postingDir: string, cwd: string): Stage
  {
    Profile(PostingPath(cwd, postingDir), ContextPath(cwd, postingDir), ProfilePath(cwd, postingDir))
  }

  method Invoke(postingDir: string, fs: Store.FileSystem, client: Client, codec: Codec) returns (outcome: Outcome)
    modifies fs, client
    ensures var r := Exec(ProfileStage(postingDir, fs.cwd), World(fs.cwd, old(fs.files), client.apiKey), client.answer, codec);
      outcome == r.outcome && fs.files == r.files && client.requests == old(client.requests) + r.asked
  {
    outcome := Runner.Run(ProfileStage(postingDir, fs.cwd), fs, client, codec);
  }

  /** The posting, the context and the profile all lie directly in `abspath(posting_dir)`,
      which is absolute when the working directory is. */
  lemma AllUnderBase(cwd: string, postingDir: string)
    ensures var base := BaseDir(cwd, postingDir);
      Dirname(PostingPath(cwd, postingDir)) == base &&
      Dirname(ContextPath(cwd, postingDir)) == base &&
      Dirname(ProfilePath(cwd, postingDir)) == base &&
      Basename(ProfilePath(cwd, postingDir)) == "product_profile.json"
    ensures IsAbsolute(cwd) ==> IsAbsolute(BaseDir(cwd, postingDir))
  {
    var base := BaseDir(cwd, postingDir);
    NormpathShape(Join(cwd, postingDir));
    JoinSplits(base, "posting.txt");
    JoinSplits(base, "product_info.txt");
    JoinSplits(base, "product_profile.json");
  }

  /** An existing profile ends the run with no read, no service call and no write. */
  lemma SkipsExistingProfile(posting: string, context: string, profile: string,
                             w: World, answer: string -> Reply, codec: Codec)
    requires Present(w, profile)
    ensures Exec(Profile(posting, context, profile), w, answer, codec) == Run(Skipped, w.files, [])
    ensures ExitStatus(Exec(Profile(posting, context, profile), w, answer, codec).outcome) == 0
  {
  }

  /** A missing posting or template exits with status 1 before inference; the context never does. */
  lemma MissingInputExits(posting: string, context: string, profile: string,
                          w: World, answer: string -> Reply, codec: Codec)
    requires !Present(w, profile) && w.apiKey
    requires !Present(w, posting) || !Present(w, TemplatePath)
    ensures Exec(Profile(posting, context, profile), w, answer, codec)
      == Run(Failed(MissingInput(if !Present(w, posting) then posting else TemplatePath)), w.files, [])
    ensures ExitStatus(Exec(Profile(posting, context, profile), w, answer, codec).outcome) == 1
  {
    var st := Profile(posting, context, profile);
    var k := if !Present(w, posting) then 2 else 4;
    HaltsAtFirstBlock(st.steps, 0, w, [], k);
  }

  /** With posting and template present the request is template, posting, context section and
      instruction; the context section is the file's text when the file exists and is not
      empty, and the placeholder otherwise. The profile then holds the parsed result. */
  lemma ProfilesProduct(posting: string, context: string, profile: string,
                        w: World, answer: string -> Reply, codec: Codec)
    requires !Present(w, profile) && w.apiKey
    requires Present(w, posting) && Present(w, TemplatePath)
    ensures var r := Exec(Profile(posting, context, profile), w, answer, codec);
      var extra := if Present(w, context) && Contents(w, context) != "" then Contents(w, context) else NoContext;
      var rq := Contents(w, TemplatePath) + PostingHeader + Contents(w, posting) + ContextHeader + extra + Instruction;
      var k := Store.Key(w.cwd, profile);
      r.asked == [rq] &&
      match answer(rq)
      case Raised => r.outcome == Failed(InferenceFailure) && r.files == w.files
      case Returned(text) =>
        match codec.loads(text)
        case None => r.outcome == Failed(ParseFailure) && r.files == w.files
        case Some(result) => r.outcome == Done && r.files == w.files[k := codec.dumps(result)]
  {
    ProfileReads(posting, context, profile, w);
  }

  /** The reads of a run that gets past the skip check: posting, context (empty when absent)
      and template. */
  lemma ProfileReads(posting: string, context: string, profile: string, w: World)
    requires !Present(w, profile) && w.apiKey
    requires Present(w, posting) && Present(w, TemplatePath)
    ensures Prepare(Profile(posting, context, profile).steps, 0, w, []) ==
      Go([Contents(w, posting), if Present(w, context) then Contents(w, context) else "", Contents(w, TemplatePath)])
  {
    var st := Profile(posting, context, profile);
    var p, t := Contents(w, posting), Contents(w, TemplatePath);
    var c := if Present(w, context) then Contents(w, context) else "";
    assert [] + [p] == [p] && [p] + [c] == [p, c] && [p, c] + [t] == [p, c, t];
    assert Prepare(st.steps, 0, w, []) == Prepare(st.steps, 2, w, []);
    assert Prepare(st.steps, 2, w, []) == Prepare(st.steps, 3, w, [p]);
    assert Prepare(st.steps, 3, w, [p]) == Prepare(st.steps, 4, w, [p, c]);
    assert Prepare(st.steps, 4, w, [p, c]) == Prepare(st.steps, 5, w, [p, c, t]);
  }
}
