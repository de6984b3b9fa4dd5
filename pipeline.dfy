/**
 * The control flow every script's `main` shares, as a specification. Each script is one
 * `Stage`: a list of steps run in order before inference (the optional skip when the output
 * already exists, the construction of the client, existence checks and reads), the pieces the
 * request is concatenated from, the one output path, how the response is written there, and
 * whether the statements after the write complete. `Exec` gives the outcome of one run, the
 * files afterwards and the requests sent to the service.
 */
module Pipeline {
  import opened Wrappers
  import opened Json
  import opened Gemini
  import Store

  datatype Step =
    | SkipIfExists(path: string)  // `if os.path.exists(path): return`
    | Connect                     // `client = genai.Client()`
    | Require(paths: seq<string>) // `for p in paths: if not os.path.exists(p): sys.exit(1)`
    | Load(path: string)          // `open(path, "r").read()`; a missing file ends the run with status 1
    | LoadOptional(path: string)  // read when it exists, the empty string otherwise

  /** The i-th text loaded, the empty string when there is none. */
  function At(texts: seq<string>, i: nat): string
  {
    if i < |texts| then texts[i] else ""
  }

  /** How the response reaches the output file.
      DumpParsed: `json.loads` first, then `open(out, "w")` and `json.dump`.
      DumpOnOpen: `open(out, "w")` first, then `json.dump(json.loads(...))`.
      WriteField: `json.loads` first, then `open(out, "w")` and `f.write(result[field])`. */
  datatype Persist = DumpParsed | DumpOnOpen | WriteField(field: string)

  /** `compose` builds the request from the loaded texts, in the order they were loaded;
      `finish` says whether the statements after the write (console summaries that index into
      the result) complete without raising. */
  datatype Stage = Stage(
    steps: seq<Step>,
    compose: seq<string> -> string,
    output: string,
    persist: Persist,
    finish: Json -> bool)

  datatype Error =
    | NoCredentials
    | MissingInput(path: string)
    | InferenceFailure
    | ParseFailure
    | ResultShape

  datatype Outcome = Done | Skipped | Failed(error: Error)

  /** The process exit status: a skip is a normal return, every failure exits with 1. */
  function ExitStatus(o: Outcome): (status: int)
    ensures status == 0 <==> !o.Failed?
    ensures status == 0 || status == 1
  {
    if o.Failed? then 1 else 0
  }

  /** What a run can observe before it starts: the working directory, the files, and whether
      the client finds credentials. */
  datatype World = World(cwd: string, files: map<string, string>, apiKey: bool)

  predicate Present(w: World, path: string)
  {
    Store.Key(w.cwd, path) in w.files
  }

  function Contents(w: World, path: string): string
    requires Present(w, path)
  {
    w.files[Store.Key(w.cwd, path)]
  }

  /** The first of `paths` that does not exist, if any. */
  function FirstMissing(w: World, paths: seq<string>): (r: Option<string>)
    ensures r.None? <==> forall j :: 0 <= j < |paths| ==> Present(w, paths[j])
    ensures r.Some? ==> r.value in paths && !Present(w, r.value)
  {
    if paths == [] then None
    else if !Present(w, paths[0]) then Some(paths[0])
    else FirstMissing(w, paths[1..])
  }

  /** The path reported is the first missing one: it is missing and every path before it is
      present, and any path in that position is the one reported. */
  lemma {:induction false} FirstMissingIsFirst(w: World, paths: seq<string>)
    ensures FirstMissing(w, paths).Some? ==>
      exists j :: 0 <= j < |paths| && paths[j] == FirstMissing(w, paths).value &&
                  forall i :: 0 <= i < j ==> Present(w, paths[i])
    ensures forall j :: 0 <= j < |paths| && !Present(w, paths[j]) &&
                        (forall i :: 0 <= i < j ==> Present(w, paths[i])) ==>
      FirstMissing(w, paths) == Some(paths[j])
  {
    if paths != [] {
      var rest := paths[1..];
      FirstMissingIsFirst(w, rest);
      if Present(w, paths[0]) {
        if FirstMissing(w, paths).Some? {
          var k :| 0 <= k < |rest| && rest[k] == FirstMissing(w, rest).value &&
                   forall i :: 0 <= i < k ==> Present(w, rest[i]);
          assert paths[k + 1] == FirstMissing(w, paths).value;
          assert forall i :: 0 <= i < k + 1 ==> Present(w, paths[i]) by {
            forall i | 0 <= i < k + 1 ensures Present(w, paths[i]) {
              if i > 0 { assert paths[i] == rest[i - 1]; }
            }
          }
        }
        forall j | 0 <= j < |paths| && !Present(w, paths[j]) && (forall i :: 0 <= i < j ==> Present(w, paths[i]))
          ensures FirstMissing(w, paths) == Some(paths[j])
        {
          assert j > 0;
          assert rest[j - 1] == paths[j];
          assert forall i :: 0 <= i < j - 1 ==> rest[i] == paths[i + 1];
        }
      } else {
        assert paths[0] == FirstMissing(w, paths).value;
      }
    }
  }

  datatype Phase = Go(texts: seq<string>) | Halt(outcome: Outcome)

  /** The paths steps[i..] read, mandatory and optional, in step order. */
  function Loaded(steps: seq<Step>, i: nat): seq<string>
    requires i <= |steps|
    decreases |steps| - i
  {
    if i == |steps| then []
    else match steps[i]
      case Load(p) => [p] + Loaded(steps, i + 1)
      case LoadOptional(p) => [p] + Loaded(steps, i + 1)
      case _ => Loaded(steps, i + 1)
  }

  /** The paths steps[i..] check for existence before reading, in the order they are checked. */
  function Checked(steps: seq<Step>, i: nat): seq<string>
    requires i <= |steps|
    decreases |steps| - i
  {
    if i == |steps| then []
    else match steps[i]
      case Require(ps) => ps + Checked(steps, i + 1)
      case _ => Checked(steps, i + 1)
  }

  /** The stage checks its own output before it reads anything or asks the service: only the
      construction of the client may come first. */
  predicate SkipGuarded(st: Stage)
  {
    exists i :: 0 <= i < |st.steps| && st.steps[i] == SkipIfExists(st.output) &&
                forall j :: 0 <= j < i ==> st.steps[j] == Connect
  }

  /** The stage has no skip check at all. */
  predicate Unguarded(st: Stage)
  {
    forall i :: 0 <= i < |st.steps| ==> !st.steps[i].SkipIfExists?
  }

  /** What reading `path` yields: its contents, or the empty string of an absent optional file. */
  function TextOf(w: World, path: string): string
  {
    if Present(w, path) then Contents(w, path) else ""
  }

  /** Reading `paths` one after the other: one text per path, in the order of the paths. */
  function TextsOf(w: World, paths: seq<string>): (texts: seq<string>)
    ensures |texts| == |paths|
  {
    if paths == [] then [] else [TextOf(w, paths[0])] + TextsOf(w, paths[1..])
  }

  lemma {:induction false} TextsOfPointwise(w: World, paths: seq<string>)
    ensures forall i :: 0 <= i < |paths| ==> TextsOf(w, paths)[i] == TextOf(w, paths[i])
  {
    if paths != [] {
      TextsOfPointwise(w, paths[1..]);
    }
  }

  /** Runs steps[i..] after `texts` were loaded: either every step passes and the loaded texts
      are returned in order, or the first step that does not pass ends the run. */
  function Prepare(steps: seq<Step>, i: nat, w: World, texts: seq<string>): (ph: Phase)
    requires i <= |steps|
    ensures ph.Halt? ==> ph.outcome == Skipped || ph.outcome == Failed(NoCredentials) ||
                         (ph.outcome.Failed? && ph.outcome.error.MissingInput?)
    decreases |steps| - i
  {
    if i == |steps| then Go(texts)
    else match steps[i]
      case SkipIfExists(p) =>
        if Present(w, p) then Halt(Skipped) else Prepare(steps, i + 1, w, texts)
      case Connect =>
        if w.apiKey then Prepare(steps, i + 1, w, texts) else Halt(Failed(NoCredentials))
      case Require(ps) =>
        (match FirstMissing(w, ps)
         case None => Prepare(steps, i + 1, w, texts)
         case Some(p) => Halt(Failed(MissingInput(p))))
      case Load(p) =>
        if Present(w, p) then Prepare(steps, i + 1, w, texts + [Contents(w, p)])
        else Halt(Failed(MissingInput(p)))
      case LoadOptional(p) =>
        Prepare(steps, i + 1, w, texts + [if Present(w, p) then Contents(w, p) else ""])
  }

  lemma TextsOfCons(w: World, p: string, ps: seq<string>)
    ensures TextsOf(w, [p] + ps) == [TextOf(w, p)] + TextsOf(w, ps)
  {
    assert ([p] + ps)[1..] == ps;
  }

  /** The texts step i adds when it passes. */
  function StepTexts(step: Step, w: World): seq<string>
  {
    match step
    case Load(p) => [TextOf(w, p)]
    case LoadOptional(p) => [TextOf(w, p)]
    case _ => []
  }

  /** One passing step: the run goes on with the step's text appended. */
  lemma PrepareStep(steps: seq<Step>, i: nat, w: World, texts: seq<string>)
    requires i < |steps|
    ensures Prepare(steps, i, w, texts).Go? ==>
      Prepare(steps, i, w, texts) == Prepare(steps, i + 1, w, texts + StepTexts(steps[i], w))
    ensures Loaded(steps, i) == (match steps[i] case Load(p) => [p] case LoadOptional(p) => [p] case _ => [])
                                + Loaded(steps, i + 1)
  {
    match steps[i]
    case SkipIfExists(_) => assert texts + [] == texts;
    case Connect => assert texts + [] == texts;
    case Require(_) => assert texts + [] == texts;
    case Load(_) =>
    case LoadOptional(_) =>
  }

  /** A run that gets through its steps has read the files of its read steps, in step order. */
  lemma {:induction false} LoadsInStepOrder(steps: seq<Step>, i: nat, w: World, texts: seq<string>)
    requires i <= |steps|
    ensures Prepare(steps, i, w, texts).Go? ==>
      Prepare(steps, i, w, texts).texts == texts + TextsOf(w, Loaded(steps, i))
    decreases |steps| - i
  {
    if i == |steps| {
      assert texts + [] == texts;
    } else if Prepare(steps, i, w, texts).Go? {
      var rest := Loaded(steps, i + 1);
      var t := texts + StepTexts(steps[i], w);
      PrepareStep(steps, i, w, texts);
      LoadsInStepOrder(steps, i + 1, w, t);
      if steps[i].Load? || steps[i].LoadOptional? {
        TextsOfCons(w, steps[i].path, rest);
        assert t + TextsOf(w, rest) == texts + ([TextOf(w, steps[i].path)] + TextsOf(w, rest));
      } else {
        assert t == texts + [];
      }
    }
  }

  /** When every step passes, the run goes on with the texts of the files read, in step order. */
  lemma ReadsWhenAllPass(steps: seq<Step>, w: World)
    requires forall j :: 0 <= j < |steps| ==> Passes(steps[j], w)
    ensures Prepare(steps, 0, w, []) == Go(TextsOf(w, Loaded(steps, 0)))
    ensures forall i :: 0 <= i < |Loaded(steps, 0)| ==> TextsOf(w, Loaded(steps, 0))[i] == TextOf(w, Loaded(steps, 0)[i])
  {
    GoesIffAllPass(steps, 0, w, []);
    LoadsInStepOrder(steps, 0, w, []);
    TextsOfPointwise(w, Loaded(steps, 0));
    assert [] + TextsOf(w, Loaded(steps, 0)) == TextsOf(w, Loaded(steps, 0));
  }

  /** The steps before inference let the run through exactly when every one of them passes. */
  lemma {:induction false} GoesIffAllPass(steps: seq<Step>, i: nat, w: World, texts: seq<string>)
    requires i <= |steps|
    ensures Prepare(steps, i, w, texts).Go? <==> forall j :: i <= j < |steps| ==> Passes(steps[j], w)
    decreases |steps| - i
  {
    if i < |steps| {
      var next := match steps[i]
        case Load(p) => if Present(w, p) then texts + [Contents(w, p)] else texts
        case LoadOptional(p) => texts + [TextOf(w, p)]
        case _ => texts;
      GoesIffAllPass(steps, i + 1, w, next);
    }
  }

  /** What the write puts in the output file for a parsed result, when it succeeds. */
  function Written(st: Stage, result: Json, codec: Codec): Option<string>
  {
    match st.persist
    case WriteField(f) => TextField(result, f)
    case _ => Some(codec.dumps(result))
  }

  function Finish(st: Stage, result: Json): Outcome
  {
    if st.finish(result) then Done else Failed(ResultShape)
  }

  /** The outcome and the files after the service replied. */
  function Respond(st: Stage, w: World, reply: Reply, codec: Codec): (Outcome, map<string, string>)
  {
    var k := Store.Key(w.cwd, st.output);
    match reply
    case Raised => (Failed(InferenceFailure), w.files)
    case Returned(text) =>
      var parsed := codec.loads(text);
      if parsed.None? then
        (Failed(ParseFailure), if st.persist.DumpOnOpen? then w.files[k := ""] else w.files)
      else
        match Written(st, parsed.value, codec)
        case None => (Failed(ResultShape), w.files[k := ""])
        case Some(s) => (Finish(st, parsed.value), w.files[k := s])
  }

  datatype Run = Run(outcome: Outcome, files: map<string, string>, asked: seq<string>)

  /** One run of a stage in world `w`, the service answering with `answer`. */
  function Exec(st: Stage, w: World, answer: string -> Reply, codec: Codec): (r: Run)
    ensures |r.asked| <= 1
    ensures r.asked != [] ==> r.asked == [st.compose(TextsOf(w, Loaded(st.steps, 0)))]
  {
    LoadsInStepOrder(st.steps, 0, w, []);
    assert [] + TextsOf(w, Loaded(st.steps, 0)) == TextsOf(w, Loaded(st.steps, 0));
    match Prepare(st.steps, 0, w, [])
    case Halt(o) => Run(o, w.files, [])
    case Go(texts) =>
      var request := st.compose(texts);
      var (o, files) := Respond(st, w, answer(request), codec);
      Run(o, files, [request])
  }

  // ---------------------------------------------------------------------------------------
  // Properties every stage has.

  /** A run touches no file but its own output. */
  lemma WritesOnlyOutput(st: Stage, w: World, answer: string -> Reply, codec: Codec, k: string)
    requires k != Store.Key(w.cwd, st.output)
    ensures var r := Exec(st, w, answer, codec);
      (k in r.files <==> k in w.files) && (k in w.files ==> r.files[k] == w.files[k])
  {
  }

  /** Nothing is written unless the service was asked once and returned a response. */
  lemma WriteOnlyAfterReply(st: Stage, w: World, answer: string -> Reply, codec: Codec)
    ensures var r := Exec(st, w, answer, codec);
      r.files != w.files ==> |r.asked| == 1 && answer(r.asked[0]).Returned?
  {
  }

  /** A skip sends nothing and writes nothing; so does every run that ends before inference,
      and such a run never completes. The service is asked exactly when the run gets past its
      checks and loads, and only then can a failure concern the response. */
  lemma SkipIsSilent(st: Stage, w: World, answer: string -> Reply, codec: Codec)
    ensures var r := Exec(st, w, answer, codec);
      (r.outcome == Skipped ==> r.files == w.files && r.asked == []) &&
      (r.asked == [] ==> r.files == w.files && r.outcome != Done) &&
      (r.asked != [] <==> Prepare(st.steps, 0, w, []).Go?) &&
      (r.outcome in {Failed(InferenceFailure), Failed(ParseFailure), Failed(ResultShape)} ==> r.asked != [])
  {
  }

  /** A completed run has written its output key, and so has every run that asked the service
      and exits with status 0; a failed service call writes nothing. */
  lemma DoneWritesOutput(st: Stage, w: World, answer: string -> Reply, codec: Codec)
    ensures var r := Exec(st, w, answer, codec);
      (r.outcome == Done ==> Store.Key(w.cwd, st.output) in r.files) &&
      (r.asked != [] && ExitStatus(r.outcome) == 0 ==> r.outcome == Done) &&
      (r.outcome == Failed(InferenceFailure) ==> r.files == w.files)
  {
  }

  /** The steps that are passed over without ending the run. */
  predicate Passes(step: Step, w: World)
  {
    match step
    case SkipIfExists(p) => !Present(w, p)
    case Connect => w.apiKey
    case Require(ps) => FirstMissing(w, ps).None?
    case Load(p) => Present(w, p)
    case LoadOptional(_) => true
  }

  /** The outcome when `step` does not pass. */
  function Stop(step: Step, w: World): Outcome
  {
    match step
    case SkipIfExists(_) => Skipped
    case Connect => Failed(NoCredentials)
    case Require(ps) => (match FirstMissing(w, ps) case Some(p) => Failed(MissingInput(p)) case None => Done)
    case Load(p) => Failed(MissingInput(p))
    case LoadOptional(_) => Done
  }

  /** The first step that does not pass decides the run, whatever follows it. */
  lemma {:induction false} HaltsAtFirstBlock(steps: seq<Step>, i: nat, w: World, texts: seq<string>, k: nat)
    requires i <= k < |steps|
    requires forall j :: i <= j < k ==> Passes(steps[j], w)
    requires !Passes(steps[k], w)
    ensures Prepare(steps, i, w, texts).Halt?
    ensures Prepare(steps, i, w, texts).outcome == Stop(steps[k], w)
    decreases k - i
  {
    if i < k {
      assert Passes(steps[i], w);
      match steps[i]
      case SkipIfExists(p) =>
        HaltsAtFirstBlock(steps, i + 1, w, texts, k);
      case Connect =>
        HaltsAtFirstBlock(steps, i + 1, w, texts, k);
      case Require(ps) =>
        HaltsAtFirstBlock(steps, i + 1, w, texts, k);
      case Load(p) =>
        HaltsAtFirstBlock(steps, i + 1, w, texts + [Contents(w, p)], k);
      case LoadOptional(p) =>
        HaltsAtFirstBlock(steps, i + 1, w, texts + [if Present(w, p) then Contents(w, p) else ""], k);
    }
  }

  /** Idempotence of a stage whose first steps (after constructing the client) check its own
      output: once a run has left the output file behind, every later run is a skip that sends
      nothing and changes nothing, whatever the service would answer this time. */
  lemma {:induction false} RerunSkips(st: Stage, w: World, answer: string -> Reply, codec: Codec,
                                      answer2: string -> Reply, codec2: Codec, i: nat)
    requires i < |st.steps| && st.steps[i] == SkipIfExists(st.output)
    requires forall j :: 0 <= j < i ==> st.steps[j] == Connect
    requires w.apiKey
    requires Store.Key(w.cwd, st.output) in Exec(st, w, answer, codec).files
    ensures var first := Exec(st, w, answer, codec);
      Exec(st, w.(files := first.files), answer2, codec2) == Run(Skipped, first.files, [])
  {
    var w2 := w.(files := Exec(st, w, answer, codec).files);
    HaltsAtFirstBlock(st.steps, 0, w2, [], i);
  }

  /** A run of reads stops at the first file that is missing, exactly as an existence check
      of the same files in the same order would. */
  lemma {:induction false} LoadsHaltAtFirstMissing(steps: seq<Step>, i: nat, w: World, texts: seq<string>,
                                                   paths: seq<string>)
    requires i + |paths| <= |steps|
    requires forall j :: 0 <= j < |paths| ==> steps[i + j] == Load(paths[j])
    requires FirstMissing(w, paths).Some?
    ensures Prepare(steps, i, w, texts) == Halt(Failed(MissingInput(FirstMissing(w, paths).value)))
    decreases |paths|
  {
    assert steps[i] == Load(paths[0]);
    if Present(w, paths[0]) {
      forall j | 0 <= j < |paths[1..]|
        ensures steps[i + 1 + j] == Load(paths[1..][j])
      {
        assert steps[i + (j + 1)] == Load(paths[j + 1]);
      }
      LoadsHaltAtFirstMissing(steps, i + 1, w, texts + [Contents(w, paths[0])], paths[1..]);
    }
  }
}
