/**
 * agent1_3.py: writes the executive summary of one candidate into the posting directory's
 * `summaries/` folder, from the evaluation stored under `evaluations/`, both named after the
 * candidate directory's last component. The client is created first; there is no skip check.
 * After the write the recommendation and fit percentage are printed, then the sorted listing
 * of every summary of the posting.
 */
module PostingSummary {
  import opened Json
  import opened Gemini
  import opened Paths
  import opened Pipeline
  import Store
  import Runner
  import Sorting
  import ExecutiveSummary

  function PostingBase(cwd: string, postingArg: string): string
  {
    Abspath(cwd, postingArg)
  }

  /** `os.path.basename(base_candidate_dir)`, not lowercased. */
  function CandidateName(cwd: string, candidateArg: string): string
  {
    Basename(Abspath(cwd, candidateArg))
  }

  const EvaluationSuffix := "_evaluation.json"
  const SummarySuffix := "_summary.md"

  function EvaluationPath(cwd: string, postingArg: string, candidateArg: string): string
  {
    Join(Join(PostingBase(cwd, postingArg), "evaluations"), CandidateName(cwd, candidateArg) + EvaluationSuffix)
  }

  function SummariesDir(cwd: string, postingArg: string): string
  {
    Join(PostingBase(cwd, postingArg), "summaries")
  }

  function SummaryPath(cwd: string, postingArg: string, candidateArg: string): string
  {
    Join(SummariesDir(cwd, postingArg), CandidateName(cwd, candidateArg) + SummarySuffix)
  }

  /** Client, evaluation check and read, template check and read, the field write. */
  function Summarize(evaluation: string, summary: string): (st: Stage)
    ensures st.output == summary && Unguarded(st)
    ensures Loaded(st.steps, 0) == [evaluation, ExecutiveSummary.PromptPath]
    ensures Checked(st.steps, 0) == [evaluation, ExecutiveSummary.PromptPath]
  {
    var st := Stage(
      [Connect, Require([evaluation]), Load(evaluation),
       Require([ExecutiveSummary.PromptPath]), Load(ExecutiveSummary.PromptPath)],
      texts => At(texts, 1) + ExecutiveSummary.DataHeader + At(texts, 0),
      summary,
      WriteField("markdown_content"),
      result => HasFields(result, ExecutiveSummary.Printed));
    assert Loaded(st.steps, 4) == [ExecutiveSummary.PromptPath] && Checked(st.steps, 4) == [];
    assert Loaded(st.steps, 3) == [ExecutiveSummary.PromptPath] && Checked(st.steps, 3) == [ExecutiveSummary.PromptPath];
    assert Loaded(st.steps, 2) == [evaluation, ExecutiveSummary.PromptPath] && Checked(st.steps, 2) == [ExecutiveSummary.PromptPath];
    st
  }

  function SummarizeStage(postingArg: string, candidateArg: string, cwd: string): Stage
  {
    Summarize(EvaluationPath(cwd, postingArg, candidateArg), SummaryPath(cwd, postingArg, candidateArg))
  }

  method Invoke(postingArg: string, candidateArg: string, fs: Store.FileSystem, client: Client, codec: Codec)
    returns (outcome: Outcome)
    modifies fs, client
    ensures var r := Exec(SummarizeStage(postingArg, candidateArg, fs.cwd), World(fs.cwd, old(fs.files), client.apiKey), client.answer, codec);
      outcome == r.outcome && fs.files == r.files && client.requests == old(client.requests) + r.asked
  {
    outcome := Runner.Run(SummarizeStage(postingArg, candidateArg, fs.cwd), fs, client, codec);
  }

  /** The evaluation is read from `evaluations/<name>_evaluation.json` of the posting directory. */
  lemma EvaluationLocation(cwd: string, postingArg: string, candidateArg: string)
    ensures Dirname(EvaluationPath(cwd, postingArg, candidateArg)) == Join(PostingBase(cwd, postingArg), "evaluations")
    ensures Basename(EvaluationPath(cwd, postingArg, candidateArg)) == CandidateName(cwd, candidateArg) + EvaluationSuffix
  {
    JoinNamedDirForm(PostingBase(cwd, postingArg), "evaluations");
    NoSlashConcat(CandidateName(cwd, candidateArg), EvaluationSuffix);
    JoinSplits(Join(PostingBase(cwd, postingArg), "evaluations"), CandidateName(cwd, candidateArg) + EvaluationSuffix);
  }

  /** The summary is written as `summaries/<name>_summary.md` of the posting directory. */
  lemma SummaryLocation(cwd: string, postingArg: string, candidateArg: string)
    ensures Dirname(SummaryPath(cwd, postingArg, candidateArg)) == SummariesDir(cwd, postingArg)
    ensures Basename(SummaryPath(cwd, postingArg, candidateArg)) == CandidateName(cwd, candidateArg) + SummarySuffix
  {
    JoinNamedDirForm(PostingBase(cwd, postingArg), "summaries");
    NoSlashConcat(CandidateName(cwd, candidateArg), SummarySuffix);
    JoinSplits(SummariesDir(cwd, postingArg), CandidateName(cwd, candidateArg) + SummarySuffix);
  }

  /** A missing evaluation exits with status 1 before the template is looked at or the service
      asked; a missing template exits with status 1 before the service is asked. */
  lemma MissingInputExits(evaluation: string, summary: string, w: World, answer: string -> Reply, codec: Codec)
    requires w.apiKey
    ensures !Present(w, evaluation) ==>
      Exec(Summarize(evaluation, summary), w, answer, codec) == Run(Failed(MissingInput(evaluation)), w.files, [])
    ensures Present(w, evaluation) && !Present(w, ExecutiveSummary.PromptPath) ==>
      Exec(Summarize(evaluation, summary), w, answer, codec)
        == Run(Failed(MissingInput(ExecutiveSummary.PromptPath)), w.files, [])
    ensures !Present(w, evaluation) || !Present(w, ExecutiveSummary.PromptPath) ==>
      ExitStatus(Exec(Summarize(evaluation, summary), w, answer, codec).outcome) == 1
  {
    var st := Summarize(evaluation, summary);
    if !Present(w, evaluation) {
      HaltsAtFirstBlock(st.steps, 0, w, [], 1);
    } else if !Present(w, ExecutiveSummary.PromptPath) {
      HaltsAtFirstBlock(st.steps, 0, w, [], 3);
    }
  }

  /** With both inputs present the request is template, header and evaluation; the summary,
      existing or not, then holds exactly `markdown_content`, and the run completes only when
      the response also carries the recommendation and the fit percentage. */
  lemma WritesMarkdown(evaluation: string, summary: string, w: World, answer: string -> Reply, codec: Codec)
    requires w.apiKey && Present(w, evaluation) && Present(w, ExecutiveSummary.PromptPath)
    ensures var r := Exec(Summarize(evaluation, summary), w, answer, codec);
      var rq := Contents(w, ExecutiveSummary.PromptPath) + ExecutiveSummary.DataHeader + Contents(w, evaluation);
      var k := Store.Key(w.cwd, summary);
      r.asked == [rq] &&
      match answer(rq)
      case Raised => r.outcome == Failed(InferenceFailure) && r.files == w.files
      case Returned(text) =>
        match codec.loads(text)
        case None => r.outcome == Failed(ParseFailure) && r.files == w.files
        case Some(result) =>
          match TextField(result, "markdown_content")
          case None => r.outcome == Failed(ResultShape) && r.files == w.files[k := ""]
          case Some(md) =>
            r.files == w.files[k := md] &&
            (r.outcome == Done <==> HasFields(result, ExecutiveSummary.Printed))
  {
    var st := Summarize(evaluation, summary);
    var e, t := Contents(w, evaluation), Contents(w, ExecutiveSummary.PromptPath);
    assert Prepare(st.steps, 0, w, []) == Go([e, t]) by {
      assert [] + [e] == [e] && [e] + [t] == [e, t];
      assert Prepare(st.steps, 0, w, []) == Prepare(st.steps, 2, w, []);
      assert Prepare(st.steps, 2, w, []) == Prepare(st.steps, 3, w, [e]);
      assert Prepare(st.steps, 3, w, [e]) == Prepare(st.steps, 5, w, [e, t]);
    }
  }

  // ---------------------------------------------------------------------------------------
  // The listing printed after a completed run.

  predicate EndsWith(s: string, suffix: string)
  {
    |suffix| <= |s| && s[|s| - |suffix|..] == suffix
  }

  /** `[f for f in entries if f.endswith("_summary.md")]`, in the order of `entries`. */
  function SummaryEntries(entries: seq<string>): (r: seq<string>)
    ensures forall f :: f in r <==> f in entries && EndsWith(f, SummarySuffix)
  {
    if entries == [] then []
    else (if EndsWith(entries[0], SummarySuffix) then [entries[0]] else []) + SummaryEntries(entries[1..])
  }

  /** `sorted(...)` of the filtered directory entries. */
  function Listing(entries: seq<string>): (r: seq<string>)
    ensures Sorting.Sorted(r)
    ensures forall f :: f in r <==> f in entries && EndsWith(f, SummarySuffix)
  {
    var s := SummaryEntries(entries);
    var r := Sorting.Sort(s);
    assert forall f :: f in r <==> f in multiset(r);
    assert forall f :: f in s <==> f in multiset(s);
    r
  }

  /** The listing is ascending, holds exactly the entries ending in `_summary.md`, and holds each
      of them as often as the directory does. */
  lemma {:induction false} ListingSpec(entries: seq<string>)
    ensures Sorting.Sorted(Listing(entries))
    ensures forall f :: f in Listing(entries) <==> f in entries && EndsWith(f, SummarySuffix)
    ensures forall f :: EndsWith(f, SummarySuffix) ==> multiset(Listing(entries))[f] == multiset(entries)[f]
    ensures forall f :: !EndsWith(f, SummarySuffix) ==> multiset(Listing(entries))[f] == 0
  {
    FilterCounts(entries);
    assert multiset(Listing(entries)) == multiset(SummaryEntries(entries));
  }

  lemma {:induction false} FilterCounts(entries: seq<string>)
    ensures forall f :: EndsWith(f, SummarySuffix) ==> multiset(SummaryEntries(entries))[f] == multiset(entries)[f]
    ensures forall f :: !EndsWith(f, SummarySuffix) ==> multiset(SummaryEntries(entries))[f] == 0
  {
    if entries != [] {
      FilterCounts(entries[1..]);
      assert entries == [entries[0]] + entries[1..];
    }
  }

  /** The names `os.listdir(dir)` returns for the files of the store: the last component of every
      key whose directory is `dir`. */
  function Entries(files: map<string, string>, dir: string): set<string>
  {
    set k | k in files && Dirname(k) == dir :: Basename(k)
  }

  /** After a completed run the listing, whatever order the directory reports its entries in,
      includes the summary just written. */
  lemma ListsWrittenSummary(postingArg: string, candidateArg: string, w: World,
                            answer: string -> Reply, codec: Codec, entries: seq<string>)
    requires IsAbsolute(w.cwd)
    requires Exec(SummarizeStage(postingArg, candidateArg, w.cwd), w, answer, codec).outcome == Done
    requires var files := Exec(SummarizeStage(postingArg, candidateArg, w.cwd), w, answer, codec).files;
      forall f :: f in entries <==> f in Entries(files, SummariesDir(w.cwd, postingArg))
    ensures CandidateName(w.cwd, candidateArg) + SummarySuffix in Listing(entries)
  {
    var st := SummarizeStage(postingArg, candidateArg, w.cwd);
    var r := Exec(st, w, answer, codec);
    var out := SummaryPath(w.cwd, postingArg, candidateArg);
    DoneWritesOutput(st, w, answer, codec);
    NormpathShape(Join(w.cwd, postingArg));
    assert IsAbsolute(out);
    assert Store.Key(w.cwd, out) == out;
    SummaryLocation(w.cwd, postingArg, candidateArg);
    var name := CandidateName(w.cwd, candidateArg) + SummarySuffix;
    assert name in Entries(r.files, SummariesDir(w.cwd, postingArg));
    assert EndsWith(name, SummarySuffix);
    ListingSpec(entries);
  }
}
