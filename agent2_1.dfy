/**
 * agent2_1.py: audits a candidate against a posting using the resume and the detailed STAR
 * experiences, and writes the result under a file name unique to the (candidate, posting)
 * pair: the lowercased candidate directory name, then a slug of the posting directory's path
 * relative to `postings/`. The skip check comes before the client; all five inputs are
 * mandatory and checked before any is read.
 */
module RoleAlignment {
  import opened Json
  import opened Gemini
  import opened Paths
  import opened Pipeline
  import Store
  import Runner
  import CandidateEvaluation

  // ---------------------------------------------------------------------------------------
  // The slug: `re.sub(r'[^a-zA-Z0-9]', '_', rel_job_path).lower()`.

  predicate IsAsciiAlnum(c: char)
  {
    'a' <= c <= 'z' || 'A' <= c <= 'Z' || '0' <= c <= '9'
  }

  /** `str.lower` on one character, for the ASCII range. */
  function LowerChar(c: char): char
  {
    if 'A' <= c <= 'Z' then (c as int - 'A' as int + 'a' as int) as char else c
  }

  /** `str.lower`, for the ASCII range. */
  function Lower(s: string): string
  {
    if s == [] then [] else [LowerChar(s[0])] + Lower(s[1..])
  }

  /** `re.sub(r'[^a-zA-Z0-9]', '_', s)`: every other character becomes one underscore. */
  function Substitute(s: string): string
  {
    if s == [] then [] else [if IsAsciiAlnum(s[0]) then s[0] else '_'] + Substitute(s[1..])
  }

  /** The slug maps the relative path character by character: same length, ASCII letters and
      digits kept in place (lowercased), everything else an underscore. */
  function JobSlug(rel: string): (slug: string)
    ensures |slug| == |rel|
    ensures forall i :: 0 <= i < |rel| ==> slug[i] == SlugChar(rel[i])
  {
    SubstitutePointwise(rel);
    LowerPointwise(Substitute(rel));
    Lower(Substitute(rel))
  }

  /** What the slug makes of one character. */
  function SlugChar(c: char): char
  {
    if IsAsciiAlnum(c) then LowerChar(c) else '_'
  }

  predicate InSlugAlphabet(c: char)
  {
    'a' <= c <= 'z' || '0' <= c <= '9' || c == '_'
  }

  lemma {:induction false} LowerPointwise(s: string)
    ensures |Lower(s)| == |s|
    ensures forall i :: 0 <= i < |s| ==> Lower(s)[i] == LowerChar(s[i])
  {
    if s != [] {
      LowerPointwise(s[1..]);
    }
  }

  lemma {:induction false} SubstitutePointwise(s: string)
    ensures |Substitute(s)| == |s|
    ensures forall i :: 0 <= i < |s| ==> Substitute(s)[i] == (if IsAsciiAlnum(s[i]) then s[i] else '_')
  {
    if s != [] {
      SubstitutePointwise(s[1..]);
    }
  }

  /** Every slug character is a lowercase ASCII letter, a digit or an underscore. */
  lemma SlugAlphabet(rel: string)
    ensures forall i :: 0 <= i < |JobSlug(rel)| ==> InSlugAlphabet(JobSlug(rel)[i])
  {
  }

  /** Slugging a slug changes nothing. */
  lemma SlugIdempotent(rel: string)
    ensures JobSlug(JobSlug(rel)) == JobSlug(rel)
  {
    var s := JobSlug(rel);
    assert forall i :: 0 <= i < |s| ==> JobSlug(s)[i] == s[i];
  }

  /** Two relative paths get the same slug exactly when they have the same length and agree,
      position by position, up to the case of letters and the identity of non-alphanumerics. */
  lemma SlugEqualIff(a: string, b: string)
    ensures JobSlug(a) == JobSlug(b) <==>
      |a| == |b| && forall i :: 0 <= i < |a| ==> SlugChar(a[i]) == SlugChar(b[i])
  {
    if |a| == |b| && forall i :: 0 <= i < |a| ==> SlugChar(a[i]) == SlugChar(b[i]) {
      assert forall i :: 0 <= i < |a| ==> JobSlug(a)[i] == JobSlug(b)[i];
    }
    if JobSlug(a) == JobSlug(b) {
      assert forall i :: 0 <= i < |a| ==> SlugChar(a[i]) == JobSlug(a)[i];
    }
  }

  /** Characters equal up to case are alike to the slug. */
  lemma SlugCharOfLower(c: char, d: char)
    requires LowerChar(c) == LowerChar(d)
    ensures SlugChar(c) == SlugChar(d)
  {
  }

  /** Strings that agree position by position up to the case of ASCII letters. */
  predicate SameUpToCase(a: string, b: string)
  {
    |a| == |b| && forall i :: 0 <= i < |a| ==> LowerChar(a[i]) == LowerChar(b[i])
  }

  /** Relative paths that differ only in the case of letters share a slug, so their postings
      share one alignment file per candidate. */
  lemma CaseCollapses(a: string, b: string)
    ensures SameUpToCase(a, b) ==> JobSlug(a) == JobSlug(b)
  {
    if SameUpToCase(a, b) {
      forall i | 0 <= i < |a|
        ensures SlugChar(a[i]) == SlugChar(b[i])
      {
        SlugCharOfLower(a[i], b[i]);
      }
      SlugEqualIff(a, b);
    }
  }

  /** The slug of a joined path is the join of the slugs: the separator becomes an underscore
      like any other punctuation. */
  lemma SlugConcat(a: string, b: string)
    ensures JobSlug(a + b) == JobSlug(a) + JobSlug(b)
  {
    assert forall i :: 0 <= i < |a + b| ==> JobSlug(a + b)[i] == (JobSlug(a) + JobSlug(b))[i];
  }

  /** A string that agrees with the slug of `s` character by character is that slug. */
  lemma SlugOf(s: string, t: string)
    requires |s| == |t| && forall i :: 0 <= i < |s| ==> SlugChar(s[i]) == t[i]
    ensures JobSlug(s) == t
  {
  }

  const ExamplePath := "VLS/Dept-Name/Senior Eng!"
  const ExampleSlug := "vls_dept_name_senior_eng_"

  /** The example the source gives for its slug rule: the separators, the hyphen, the space
      and the exclamation mark each become one underscore, and the letters are lowercased. */
  lemma DocumentedExample()
    ensures JobSlug(ExamplePath) == ExampleSlug
  {
    SlugOf(ExamplePath, ExampleSlug);
  }

  // ---------------------------------------------------------------------------------------
  // Addressing.

  /** `os.path.normpath(os.path.abspath(arg))` */
  function BaseDir(cwd: string, arg: string): string
  {
    Normpath(Abspath(cwd, arg))
  }

  function PostingsRoot(cwd: string): string
  {
    Abspath(cwd, "postings")
  }

  function RelJobPath(cwd: string, postingArg: string): (rel: string)
    ensures rel != []
  {
    Relpath(cwd, BaseDir(cwd, postingArg), PostingsRoot(cwd))
  }

  /** `abspath("postings")` from a normalised working directory. */
  lemma PostingsRootRooted(c: seq<string>)
    requires CleanSegments(c)
    ensures PostingsRoot(Rooted(c)) == Rooted(c + ["postings"])
  {
    assert JoinAll(["postings"]) == "postings";
    JoinRooted(c, ["postings"]);
    NormpathRooted(c + ["postings"]);
  }

  /** The normalised absolute posting directory for the argument `postings/<rel>`. */
  lemma BaseDirRooted(c: seq<string>, rel: seq<string>)
    requires CleanSegments(c) && CleanSegments(rel) && rel != []
    ensures BaseDir(Rooted(c), JoinAll(["postings"] + rel)) == Rooted(c + ["postings"] + rel)
  {
    var a := c + ["postings"];
    assert c + (["postings"] + rel) == a + rel;
    JoinRooted(c, ["postings"] + rel);
    NormpathRooted(a + rel);
  }

  /** For a posting directory given as `postings/<rel>` from a normalised working directory,
      with `rel` made of ordinary components, the relative job path is `rel` itself. */
  lemma RelJobPathBelowPostings(c: seq<string>, rel: seq<string>)
    requires CleanSegments(c) && CleanSegments(rel) && rel != []
    ensures RelJobPath(Rooted(c), JoinAll(["postings"] + rel)) == JoinAll(rel)
  {
    var a := c + ["postings"];
    PostingsRootRooted(c);
    BaseDirRooted(c, rel);
    JoinRooted(a, rel);
    RelpathOfJoin(Rooted(c), a, rel);
  }

  const ExampleComponents := ["VLS", "Dept-Name", "Senior Eng!"]

  /** The example's posting directory below `postings/`, component by component. */
  lemma ExampleComponentsClean()
    ensures CleanSegments(ExampleComponents)
  {
  }

  /** Joined, the example's components give the documented posting path. */
  lemma ExampleComponentsJoin()
    ensures JoinAll(ExampleComponents) == ExamplePath
  {
    assert ExampleComponents[1..] == ["Dept-Name", "Senior Eng!"];
    assert ExampleComponents[1..][1..] == ["Senior Eng!"];
    assert JoinAll(["Dept-Name", "Senior Eng!"]) == "Dept-Name/Senior Eng!";
  }

  /** The documented example end to end: run from a normalised working directory on the posting
      directory `postings/VLS/Dept-Name/Senior Eng!`, the slug is `vls_dept_name_senior_eng_`. */
  lemma DocumentedAlignmentSlug(c: seq<string>)
    requires CleanSegments(c)
    ensures JobSlug(RelJobPath(Rooted(c), JoinAll(["postings"] + ExampleComponents))) == ExampleSlug
  {
    ExampleComponentsClean();
    ExampleComponentsJoin();
    RelJobPathBelowPostings(c, ExampleComponents);
    DocumentedExample();
  }

  /** The candidate directory's last component, lowercased but not slugged. */
  function CandidateName(cwd: string, candidateArg: string): string
  {
    Lower(Basename(BaseDir(cwd, candidateArg)))
  }

  const AlignmentSuffix := "_role_alignment.json"

  /** `f"{candidate_name}_{job_slug}_role_alignment.json"` for a directory name and a
      relative job path. */
  function ArtifactName(dirName: string, rel: string): (name: string)
    ensures NoSlash(dirName) ==> NoSlash(name)
  {
    NamePlain(Lower(dirName), JobSlug(rel));
    LowerKeepsSlash(dirName);
    Lower(dirName) + "_" + JobSlug(rel) + AlignmentSuffix
  }

  lemma NamePlain(n: string, g: string)
    requires forall i :: 0 <= i < |g| ==> InSlugAlphabet(g[i])
    ensures NoSlash(n) ==> NoSlash(n + "_" + g + AlignmentSuffix)
  {
    if NoSlash(n) {
      assert NoSlash(g) by {
        assert forall i :: 0 <= i < |g| ==> g[i] != '/';
      }
      NoSlashConcat(n, "_");
      NoSlashConcat(n + "_", g);
      NoSlashConcat(n + "_" + g, AlignmentSuffix);
    }
  }

  function FileName(cwd: string, postingArg: string, candidateArg: string): string
  {
    ArtifactName(Basename(BaseDir(cwd, candidateArg)), RelJobPath(cwd, postingArg))
  }

  function AlignmentDir(cwd: string, candidateArg: string): string
  {
    Join(BaseDir(cwd, candidateArg), "role_alignments")
  }

  function AlignmentPath(cwd: string, postingArg: string, candidateArg: string): string
  {
    Join(AlignmentDir(cwd, candidateArg), FileName(cwd, postingArg, candidateArg))
  }

  function QuestionsPath(cwd: string, postingArg: string): string
  {
    Join(BaseDir(cwd, postingArg), "questions.json")
  }

  function PostingPath(cwd: string, postingArg: string): string
  {
    Join(BaseDir(cwd, postingArg), "posting.txt")
  }

  function ResumePath(cwd: string, candidateArg: string): string
  {
    Join(BaseDir(cwd, candidateArg), "resume.md")
  }

  function ExperiencesPath(cwd: string, candidateArg: string): string
  {
    Join(BaseDir(cwd, candidateArg), "experiences.md")
  }

  const ExperiencesHeader := "\n\n### DETAILED STAR EXPERIENCES:\n"

  /** Skip check, client, the five-path existence loop, the five reads, the open-then-parse
      write. */
  function Align(questions: string, posting: string, resume: string, experiences: string, alignment: string): (st: Stage)
    ensures st.output == alignment && SkipGuarded(st)
    ensures Loaded(st.steps, 0) == [questions, resume, experiences, posting, CandidateEvaluation.PromptPath]
    ensures Checked(st.steps, 0) == [questions, posting, resume, experiences, CandidateEvaluation.PromptPath]
  {
    var prompt := CandidateEvaluation.PromptPath;
    var st := Stage(
      [SkipIfExists(alignment), Connect,
       Require([questions, posting, resume, experiences, prompt]),
       Load(questions), Load(resume), Load(experiences), Load(posting), Load(prompt)],
      texts => At(texts, 4) + CandidateEvaluation.RequirementsHeader + At(texts, 0)
                + CandidateEvaluation.ResumeHeader + At(texts, 1) + ExperiencesHeader + At(texts, 2)
                + CandidateEvaluation.PostingHeader + At(texts, 3),
      alignment,
      DumpOnOpen,
      result => true);
    assert Loaded(st.steps, 7) == [prompt] && Checked(st.steps, 7) == [];
    assert Loaded(st.steps, 6) == [posting, prompt] && Checked(st.steps, 6) == [];
    assert Loaded(st.steps, 5) == [experiences, posting, prompt] && Checked(st.steps, 5) == [];
    assert Loaded(st.steps, 4) == [resume, experiences, posting, prompt] && Checked(st.steps, 4) == [];
    assert Loaded(st.steps, 3) == [questions, resume, experiences, posting, prompt] && Checked(st.steps, 3) == [];
    assert st.steps[1] == Connect && st.steps[2] == Require([questions, posting, resume, experiences, prompt]);
    assert Checked(st.steps, 2) == [questions, posting, resume, experiences, prompt];
    assert Loaded(st.steps, 1) == Loaded(st.steps, 3);
    assert Checked(st.steps, 1) == Checked(st.steps, 2);
    assert st.steps[0] == SkipIfExists(st.output);
    st
  }

  function AlignStage(postingArg: string, candidateArg: string, cwd: string): Stage
  {
    Align(QuestionsPath(cwd, postingArg), PostingPath(cwd, postingArg), ResumePath(cwd, candidateArg),
          ExperiencesPath(cwd, candidateArg), AlignmentPath(cwd, postingArg, candidateArg))
  }

  method Invoke(postingArg: string, candidateArg: string, fs: Store.FileSystem, client: Client, codec: Codec)
    returns (outcome: Outcome)
    modifies fs, client
    ensures var r := Exec(AlignStage(postingArg, candidateArg, fs.cwd), World(fs.cwd, old(fs.files), client.apiKey), client.answer, codec);
      outcome == r.outcome && fs.files == r.files && client.requests == old(client.requests) + r.asked
  {
    outcome := Runner.Run(AlignStage(postingArg, candidateArg, fs.cwd), fs, client, codec);
  }

  lemma {:induction false} LowerKeepsSlash(s: string)
    ensures NoSlash(Lower(s)) <==> NoSlash(s)
  {
    LowerPointwise(s);
    assert forall c :: LowerChar(c) == '/' <==> c == '/';
    if NoSlash(s) {
      assert forall i :: 0 <= i < |s| ==> Lower(s)[i] != '/';
    } else {
      var i :| 0 <= i < |s| && s[i] == '/';
      assert Lower(s)[i] == '/';
    }
  }

  /** The output is `<candidate>/role_alignments/<name>_<slug>_role_alignment.json`, with the
      candidate name lowercased. */
  lemma AlignmentLocation(cwd: string, postingArg: string, candidateArg: string)
    ensures Dirname(AlignmentPath(cwd, postingArg, candidateArg)) == AlignmentDir(cwd, candidateArg)
    ensures Basename(AlignmentPath(cwd, postingArg, candidateArg)) == FileName(cwd, postingArg, candidateArg)
    ensures Dirname(AlignmentDir(cwd, candidateArg)) == BaseDir(cwd, candidateArg)
  {
    JoinNamedDirForm(BaseDir(cwd, candidateArg), "role_alignments");
    JoinSplits(AlignmentDir(cwd, candidateArg), FileName(cwd, postingArg, candidateArg));
    NormpathShape(Abspath(cwd, candidateArg));
    JoinSplits(BaseDir(cwd, candidateArg), "role_alignments");
  }

  /** Two candidate directories whose names differ only in case share every output file name. */
  lemma CandidateCaseCollapses(a: string, b: string, rel: string)
    ensures SameUpToCase(a, b) ==> ArtifactName(a, rel) == ArtifactName(b, rel)
  {
    if SameUpToCase(a, b) {
      LowerPointwise(a);
      LowerPointwise(b);
      assert Lower(a) == Lower(b);
    }
  }

  /** The underscore that joins the two parts also occurs inside them, so different
      (candidate, posting) pairs can share a file name. */
  lemma PairsCanCollide()
    ensures ArtifactName("a_b", "c") == ArtifactName("a", "b_c")
  {
    assert Lower("a_b") == "a_b" by { LowerPointwise("a_b"); }
    assert Lower("a") == "a" by { LowerPointwise("a"); }
    assert JobSlug("c") == "c";
    assert JobSlug("b_c") == "b_c";
    assert "a_b" + "_" + "c" == "a" + "_" + "b_c";
  }

  /** An existing alignment ends the run before the client, any read, the service or any write. */
  lemma SkipsExistingAlignment(questions: string, posting: string, resume: string, experiences: string,
                               alignment: string, w: World, answer: string -> Reply, codec: Codec)
    requires Present(w, alignment)
    ensures Exec(Align(questions, posting, resume, experiences, alignment), w, answer, codec) == Run(Skipped, w.files, [])
    ensures ExitStatus(Exec(Align(questions, posting, resume, experiences, alignment), w, answer, codec).outcome) == 0
  {
  }

  /** Any of the five inputs missing, experiences included, ends the run with status 1 before
      the service is asked, naming the first missing one in the order questions, posting,
      resume, experiences, template. */
  lemma MissingInputExits(questions: string, posting: string, resume: string, experiences: string,
                          alignment: string, w: World, answer: string -> Reply, codec: Codec)
    requires w.apiKey && !Present(w, alignment)
    requires !Present(w, questions) || !Present(w, posting) || !Present(w, resume)
             || !Present(w, experiences) || !Present(w, CandidateEvaluation.PromptPath)
    ensures var missing := FirstMissing(w, [questions, posting, resume, experiences, CandidateEvaluation.PromptPath]);
      missing.Some? &&
      Exec(Align(questions, posting, resume, experiences, alignment), w, answer, codec)
        == Run(Failed(MissingInput(missing.value)), w.files, [])
    ensures ExitStatus(Exec(Align(questions, posting, resume, experiences, alignment), w, answer, codec).outcome) == 1
  {
    var ps := [questions, posting, resume, experiences, CandidateEvaluation.PromptPath];
    assert !(forall j :: 0 <= j < |ps| ==> Present(w, ps[j])) by {
      assert ps[0] == questions && ps[1] == posting && ps[2] == resume && ps[3] == experiences;
      assert ps[4] == CandidateEvaluation.PromptPath;
    }
    HaltsAtFirstBlock(Align(questions, posting, resume, experiences, alignment).steps, 0, w, [], 2);
  }

  /** With no alignment yet and every input present, the checks pass and the five texts are
      read in the order questions, resume, experiences, posting, template. */
  lemma ReadsInputs(questions: string, posting: string, resume: string, experiences: string,
                    alignment: string, w: World)
    requires w.apiKey && !Present(w, alignment)
    requires Present(w, questions) && Present(w, posting) && Present(w, resume)
             && Present(w, experiences) && Present(w, CandidateEvaluation.PromptPath)
    ensures Prepare(Align(questions, posting, resume, experiences, alignment).steps, 0, w, [])
      == Go([Contents(w, questions), Contents(w, resume), Contents(w, experiences),
             Contents(w, posting), Contents(w, CandidateEvaluation.PromptPath)])
  {
    var st := Align(questions, posting, resume, experiences, alignment);
    assert FirstMissing(w, [questions, posting, resume, experiences, CandidateEvaluation.PromptPath]) .None?;
    assert Prepare(st.steps, 0, w, []) == Prepare(st.steps, 1, w, []);
    assert Prepare(st.steps, 1, w, []) == Prepare(st.steps, 2, w, []);
    assert Prepare(st.steps, 2, w, []) == Prepare(st.steps, 3, w, []);
    ReadsInOrder(st.steps, w, questions, resume, experiences, posting, CandidateEvaluation.PromptPath);
  }

  /** Five reads of present files at the end of the steps load the five texts in order. */
  lemma ReadsInOrder(steps: seq<Step>, w: World, a: string, b: string, c: string, d: string, e: string)
    requires |steps| == 8
    requires steps[3] == Load(a) && steps[4] == Load(b) && steps[5] == Load(c)
             && steps[6] == Load(d) && steps[7] == Load(e)
    requires Present(w, a) && Present(w, b) && Present(w, c) && Present(w, d) && Present(w, e)
    ensures Prepare(steps, 3, w, []) == Go([Contents(w, a), Contents(w, b), Contents(w, c), Contents(w, d), Contents(w, e)])
  {
    var ta, tb, tc, td, te := Contents(w, a), Contents(w, b), Contents(w, c), Contents(w, d), Contents(w, e);
    assert [] + [ta] == [ta] && [ta] + [tb] == [ta, tb] && [ta, tb] + [tc] == [ta, tb, tc]
      && [ta, tb, tc] + [td] == [ta, tb, tc, td] && [ta, tb, tc, td] + [te] == [ta, tb, tc, td, te];
    assert Prepare(steps, 3, w, []) == Prepare(steps, 4, w, [ta]);
    assert Prepare(steps, 4, w, [ta]) == Prepare(steps, 5, w, [ta, tb]);
    assert Prepare(steps, 5, w, [ta, tb]) == Prepare(steps, 6, w, [ta, tb, tc]);
    assert Prepare(steps, 6, w, [ta, tb, tc]) == Prepare(steps, 7, w, [ta, tb, tc, td]);
    assert Prepare(steps, 7, w, [ta, tb, tc, td]) == Prepare(steps, 8, w, [ta, tb, tc, td, te]);
  }

  /** With no alignment yet and every input present the request is template, requirements,
      resume, experiences and posting under their headers; the alignment is written only after
      the service returns, and is left empty when the response does not parse. */
  lemma AuditsAlignment(questions: string, posting: string, resume: string, experiences: string,
                        alignment: string, w: World, answer: string -> Reply, codec: Codec)
    requires w.apiKey && !Present(w, alignment)
    requires Present(w, questions) && Present(w, posting) && Present(w, resume)
             && Present(w, experiences) && Present(w, CandidateEvaluation.PromptPath)
    ensures var r := Exec(Align(questions, posting, resume, experiences, alignment), w, answer, codec);
      var rq := Contents(w, CandidateEvaluation.PromptPath) + CandidateEvaluation.RequirementsHeader
                + Contents(w, questions) + CandidateEvaluation.ResumeHeader + Contents(w, resume)
                + ExperiencesHeader + Contents(w, experiences)
                + CandidateEvaluation.PostingHeader + Contents(w, posting);
      var k := Store.Key(w.cwd, alignment);
      r.asked == [rq] &&
      match answer(rq)
      case Raised => r.outcome == Failed(InferenceFailure) && r.files == w.files
      case Returned(text) =>
        match codec.loads(text)
        case None => r.outcome == Failed(ParseFailure) && r.files == w.files[k := ""]
        case Some(result) => r.outcome == Done && r.files == w.files[k := codec.dumps(result)]
  {
    ReadsInputs(questions, posting, resume, experiences, alignment, w);
  }

  /** Once a run has left the alignment behind, completed or with an unparsable response, every
      later run for the pair is a skip, whatever the inputs or the service say by then. */
  lemma AlignedPairSkips(questions: string, posting: string, resume: string, experiences: string,
                         alignment: string, w: World, answer: string -> Reply, codec: Codec,
                         answer2: string -> Reply, codec2: Codec)
    requires w.apiKey
    requires var first := Exec(Align(questions, posting, resume, experiences, alignment), w, answer, codec);
      first.outcome == Done || first.outcome == Failed(ParseFailure)
    ensures var first := Exec(Align(questions, posting, resume, experiences, alignment), w, answer, codec);
      Exec(Align(questions, posting, resume, experiences, alignment), w.(files := first.files), answer2, codec2)
        == Run(Skipped, first.files, [])
  {
    var st := Align(questions, posting, resume, experiences, alignment);
    var first := Exec(st, w, answer, codec);
    DoneWritesOutput(st, w, answer, codec);
    SkipIsSilent(st, w, answer, codec);
    RerunSkips(st, w, answer, codec, answer2, codec2, 0);
  }
}
