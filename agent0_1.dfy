/**
 * agent0_1.py: screens a job posting against the master screening questions and stores the
 * parsed list of screening results as `screening_report.json` beside `posting.txt`. The stage
 * is skipped when the report already exists, before the client is constructed. After the
 * write, the number of red flags (results answered "Yes") is counted for the console.
 */
module Screening {
  import opened Wrappers
  import opened Json
  import opened Gemini
  import opened Paths
  import opened Pipeline
  import Store
  import Runner
  import Schemas

  function PostingPath(postingDir: string): string
  {
    Join(postingDir, "posting.txt")
  }

  function ReportPath(postingDir: string): string
  {
    Join(Dirname(PostingPath(postingDir)), "screening_report.json")
  }

  function QuestionsPath(cwd: string): string
  {
    Join(Join(cwd, "prompts"), "screening_questions_master.json")
  }

  function TemplatePath(cwd: string): string
  {
    Join(Join(cwd, "prompts"), "job-screening-prompt.txt")
  }

  const QuestionsHeader := "\n\n### MASTER SCREENING QUESTIONS (JSON):\n"
  const PostingHeader := "\n\n### JOB POSTING TO ANALYZE:\n"

  /** The steps of `main` over its four paths: skip, client, the three reads inside one try,
      then the whole-result write. */
  function Screen(report: string, questions: string, template: string, posting: string): (st: Stage)
    ensures st.output == report && SkipGuarded(st)
    ensures Loaded(st.steps, 0) == [questions, template, posting] && Checked(st.steps, 0) == []
  {
    var st := Stage(
      [SkipIfExists(report), Connect, Load(questions), Load(template), Load(posting)],
      texts => At(texts, 1) + QuestionsHeader + At(texts, 0) + PostingHeader + At(texts, 2),
      report,
      DumpParsed,
      results => RedFlagCount(results).Some?);
    assert Loaded(st.steps, 4) == [posting] && Checked(st.steps, 4) == [];
    assert Loaded(st.steps, 3) == [template, posting] && Checked(st.steps, 3) == [];
    assert Loaded(st.steps, 2) == [questions, template, posting] && Checked(st.steps, 2) == [];
    assert st.steps[0] == SkipIfExists(st.output);
    st
  }

  function ScreenStage(postingDir: string, cwd: string): Stage
  {
    Screen(ReportPath(postingDir), QuestionsPath(cwd), TemplatePath(cwd), PostingPath(postingDir))
  }

  method Invoke(postingDir: string, fs: Store.FileSystem, client: Client, codec: Codec) returns (outcome: Outcome)
    modifies fs, client
    ensures var r := Exec(ScreenStage(postingDir, fs.cwd), World(fs.cwd, old(fs.files), client.apiKey), client.answer, codec);
      outcome == r.outcome && fs.files == r.files && client.requests == old(client.requests) + r.asked
  {
    outcome := Runner.Run(ScreenStage(postingDir, fs.cwd), fs, client, codec);
  }

  // ---------------------------------------------------------------------------------------
  // The red-flag count of line 79.

  /** `q['answer']` can be evaluated. */
  predicate Answered(q: Json)
  {
    q.Object? && "answer" in q.fields
  }

  predicate IsRedFlag(q: Json)
  {
    Answered(q) && q.fields["answer"] == Str(Schemas.AnswerLabel(Schemas.Yes))
  }

  /** `len([q for q in items if q['answer'] == 'Yes'])`, None when some `q['answer']` raises. */
  function CountYes(items: seq<Json>): Option<nat>
  {
    if items == [] then Some(0)
    else if !Answered(items[0]) then None
    else match CountYes(items[1..])
      case None => None
      case Some(n) => Some((if IsRedFlag(items[0]) then 1 else 0) + n)
  }

  /** The count over whatever `json.loads` produced: iterating a dict yields its keys and a
      string its characters, and indexing either with 'answer' raises, so only an empty one
      counts as zero; other values are not iterable. */
  function RedFlagCount(results: Json): (r: Option<nat>)
    ensures results.Array? ==>
      (r.Some? <==> forall k :: 0 <= k < |results.items| ==> Answered(results.items[k]))
    ensures results.Array? && r.Some? ==> r.value <= |results.items|
    ensures results.Array? && r.Some? ==>
      (r.value == 0 <==> forall k :: 0 <= k < |results.items| ==> !IsRedFlag(results.items[k]))
    ensures !results.Array? && r.Some? ==> r.value == 0
  {
    match results
    case Array(items) => RedFlagCountBounds(items); CountYes(items)
    case Object(fields) => if fields == map[] then Some(0) else None
    case Str(s) => if s == "" then Some(0) else None
    case _ => None
  }

  /** The count exists exactly when every result has an answer; it lies between 0 and the
      number of results, is 0 exactly when no result says "Yes", and equals the number of
      results exactly when all of them do. */
  lemma {:induction false} RedFlagCountBounds(items: seq<Json>)
    ensures CountYes(items).Some? <==> forall k :: 0 <= k < |items| ==> Answered(items[k])
    ensures CountYes(items).Some? ==>
      var c := CountYes(items).value;
      c <= |items| &&
      (c == 0 <==> forall k :: 0 <= k < |items| ==> !IsRedFlag(items[k])) &&
      (c == |items| <==> forall k :: 0 <= k < |items| ==> IsRedFlag(items[k]))
  {
    if items != [] {
      var rest := items[1..];
      RedFlagCountBounds(rest);
      assert forall k :: 1 <= k < |items| ==> items[k] == rest[k - 1];
      if CountYes(items).Some? {
        var c := CountYes(items).value;
        var n := CountYes(rest).value;
        if c == |items| {
          assert n == |rest|;
        }
      }
    }
  }

  /** The count splits over a concatenation of result lists. */
  lemma {:induction false} CountYesAppend(a: seq<Json>, b: seq<Json>)
    requires CountYes(a).Some? && CountYes(b).Some?
    ensures CountYes(a + b) == Some(CountYes(a).value + CountYes(b).value)
  {
    if a != [] {
      assert (a + b)[0] == a[0];
      assert (a + b)[1..] == a[1..] + b;
      CountYesAppend(a[1..], b);
    } else {
      assert a + b == b;
    }
  }

  // ---------------------------------------------------------------------------------------
  // The stage.

  /** The report is in the same directory as the posting it screens. */
  lemma ReportBesidePosting(postingDir: string)
    ensures Dirname(ReportPath(postingDir)) == Dirname(PostingPath(postingDir))
  {
    DirnameDirForm(PostingPath(postingDir));
    JoinSplits(Dirname(PostingPath(postingDir)), "screening_report.json");
  }

  /** An existing report ends the run before the client, any read, the service or any write. */
  lemma SkipsExistingReport(report: string, questions: string, template: string, posting: string,
                            w: World, answer: string -> Reply, codec: Codec)
    requires Present(w, report)
    ensures Exec(Screen(report, questions, template, posting), w, answer, codec) == Run(Skipped, w.files, [])
    ensures ExitStatus(Exec(Screen(report, questions, template, posting), w, answer, codec).outcome) == 0
  {
  }

  /** A missing question set, template or posting exits with status 1 before the service is
      asked, naming the first missing one in the order they are read. */
  lemma MissingInputExits(report: string, questions: string, template: string, posting: string,
                          w: World, answer: string -> Reply, codec: Codec)
    requires !Present(w, report) && w.apiKey
    requires !Present(w, questions) || !Present(w, template) || !Present(w, posting)
    ensures var missing := FirstMissing(w, [questions, template, posting]);
      missing.Some? &&
      Exec(Screen(report, questions, template, posting), w, answer, codec)
        == Run(Failed(MissingInput(missing.value)), w.files, [])
    ensures ExitStatus(Exec(Screen(report, questions, template, posting), w, answer, codec).outcome) == 1
  {
    var steps := Screen(report, questions, template, posting).steps;
    var ps := [questions, template, posting];
    assert !(forall j :: 0 <= j < |ps| ==> Present(w, ps[j])) by {
      assert ps[0] == questions && ps[1] == template && ps[2] == posting;
    }
    assert forall j :: 0 <= j < |ps| ==> steps[2 + j] == Load(ps[j]);
    assert Prepare(steps, 0, w, []) == Prepare(steps, 2, w, []);
    LoadsHaltAtFirstMissing(steps, 2, w, [], ps);
  }

  /** With every input present, the one request is the template, then the master questions,
      then the posting, under their fixed headers; the report then holds the parsed result
      unchanged, and the run fails only when the service raises, the response does not parse,
      or the red-flag count raises after the write. */
  lemma ScreensPosting(report: string, questions: string, template: string, posting: string,
                       w: World, answer: string -> Reply, codec: Codec)
    requires !Present(w, report) && w.apiKey
    requires Present(w, questions) && Present(w, template) && Present(w, posting)
    ensures var r := Exec(Screen(report, questions, template, posting), w, answer, codec);
      var rq := Contents(w, template) + QuestionsHeader + Contents(w, questions)
                + PostingHeader + Contents(w, posting);
      var k := Store.Key(w.cwd, report);
      r.asked == [rq] &&
      match answer(rq)
      case Raised => r.outcome == Failed(InferenceFailure) && r.files == w.files
      case Returned(text) =>
        match codec.loads(text)
        case None => r.outcome == Failed(ParseFailure) && r.files == w.files
        case Some(results) =>
          r.files == w.files[k := codec.dumps(results)] &&
          r.outcome == (if RedFlagCount(results).Some? then Done else Failed(ResultShape))
  {
    var st := Screen(report, questions, template, posting);
    var q, t, p := Contents(w, questions), Contents(w, template), Contents(w, posting);
    assert Prepare(st.steps, 0, w, []) == Go([q, t, p]) by {
      assert Prepare(st.steps, 0, w, []) == Prepare(st.steps, 2, w, []);
      assert [] + [q] == [q] && [q] + [t] == [q, t] && [q, t] + [p] == [q, t, p];
      assert Prepare(st.steps, 2, w, []) == Prepare(st.steps, 3, w, [q]);
      assert Prepare(st.steps, 3, w, [q]) == Prepare(st.steps, 4, w, [q, t]);
      assert Prepare(st.steps, 4, w, [q, t]) == Prepare(st.steps, 5, w, [q, t, p]);
    }
  }
}
