/**
  * The body every script's `main` runs, written step by step over the file system and the
  * client: it walks the stage's steps in order (returning early on a skip, exiting on a missing
  * file), composes the request, calls the service once, and writes the output. Its
  * postcondition is that the run is exactly the one `Pipeline.Exec` describes.
  */
module Runner {
  import opened Wrappers
  import opened Json
  import opened Gemini
  import opened Pipeline
  import Store

  method Run(st: Stage, fs: Store.FileSystem, client: Client, codec: Codec) returns (outcome: Outcome)
    modifies fs, client
    ensures var r := Exec(st, World(fs.cwd, old(fs.files), client.apiKey), client.answer, codec);
            outcome == r.outcome && fs.files == r.files && client.requests == old(client.requests) + r.asked
  {
    ghost var w := World(fs.cwd, fs.files, client.apiKey);
    var texts: seq<string> := [];
    var i := 0;
    while i < |st.steps|
      invariant 0 <= i <= |st.steps|
      invariant fs.files == w.files && client.requests == old(client.requests)
      invariant Prepare(st.steps, i, w, texts) == Prepare(st.steps, 0, w, [])
    {
      match st.steps[i] {
        case SkipIfExists(p) =>
          var present := fs.Exists(p);
          if present {
            return Skipped;
          }
        case Connect =>
          if !client.apiKey {
            return Failed(NoCredentials);
          }
        case Require(ps) =>
          var j := 0;
          while j < |ps|
            invariant 0 <= j <= |ps|
            invariant FirstMissing(w, ps) == FirstMissing(w, ps[j..])
            invariant fs.files == w.files && client.requests == old(client.requests)
          {
            var present := fs.Exists(ps[j]);
            assert ps[j..][0] == ps[j] && ps[j..][1..] == ps[j + 1..];
            if !present {
              assert !Present(w, ps[j]);
              assert FirstMissing(w, ps[j..]) == Some(ps[j]);
              return Failed(MissingInput(ps[j]));
            }
            j := j + 1;
          }
        case Load(p) =>
          var text := fs.Read(p);
          if text.None? {
            return Failed(MissingInput(p));
          }
          texts := texts + [text.value];
        case LoadOptional(p) =>
          var extra := "";
          var present := fs.Exists(p);
          if present {
            var text := fs.Read(p);
            extra := text.value;
          }
          texts := texts + [extra];
      }
      i := i + 1;
    }
    var request := st.compose(texts);
    var reply := client.GenerateContent(request);
    if reply.Raised? {
      return Failed(InferenceFailure);
    }
    var parsed: Option<Json>;
    match st.persist {
      case DumpParsed =>
        parsed := codec.loads(reply.text);
        if parsed.None? {
          return Failed(ParseFailure);
        }
        fs.Write(st.output, codec.dumps(parsed.value));
      case DumpOnOpen =>
        fs.Write(st.output, "");
        parsed := codec.loads(reply.text);
        if parsed.None? {
          return Failed(ParseFailure);
        }
        fs.Write(st.output, codec.dumps(parsed.value));
      case WriteField(f) =>
        parsed := codec.loads(reply.text);
        if parsed.None? {
          return Failed(ParseFailure);
        }
        fs.Write(st.output, "");
        var text := TextField(parsed.value, f);
        if text.None? {
          return Failed(ResultShape);
        }
        fs.Write(st.output, text.value);
    }
    outcome := Finish(st, parsed.value);
  }
}
