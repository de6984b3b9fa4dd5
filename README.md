# Candidate screening tool: a verified model of its stages

The repository is nine command-line scripts (`agent*.py`). Each script is one stage of a
screening pipeline for job postings and candidates. A stage reads a few text files, composes
one request from a prompt template, fixed section headers and the file texts, sends it to the
Gemini text-generation service, and writes one artifact: a JSON file or a Markdown file
holding the response's `markdown_content` field.

The model keeps the parts of the scripts that are deterministic:

- **Artifact addressing.** The paths each script forms with `os.path` (module `Paths`, which
  follows CPython's `posixpath` algorithms on strings). This includes the job slug and the
  unique file name of the role-alignment stage (`RoleAlignment`).
- **The control flow of `main`.** `Pipeline` defines a stage descriptor: the steps before
  inference, how the request is composed, the single output path, how the response is
  written, and whether the console summary after the write completes. The steps are:
  - the skip check on an existing output;
  - the client construction;
  - an existence-check loop over the required paths;
  - the reads, and a read that is optional.

  `Pipeline.Exec` is the specification of one run: its outcome, the files afterwards and the
  requests sent. `Runner.Run` is the imperative body every `main` shares, written over a file
  system object (`Store.FileSystem`) and a client object (`Gemini.Client`). It is proved to
  perform exactly the run `Exec` describes.
- **Per-script modules.** Each has the script's paths, its descriptor, an `Invoke` method that
  runs it, and lemmas about that run. The lemmas cover:
  - skip behaviour;
  - missing inputs;
  - the exact request;
  - what is written on each kind of reply;
  - where the files lie.
- **The list logic.** The red-flag count (`Screening`) and the sorted summary listing
  (`PostingSummary` with `Sorting`).

The Gemini service is an unknown function `answer: string -> Reply`, held by the client.
Every property holds for every such function. `json.loads` and `json.dump` are likewise an
opaque `Codec`.

The code and the design description of the system disagree in four ways. The model follows
the code:

- **Writes overwrite.** The design describes a create-or-fail put. The scripts open the output
  with `"w"`, and five of them (agent0_2, agent1_2, agent1_3, agent2, agent3) have no skip check.
- **Writes can be partial.** The design promises no partial writes. In agent1_1, agent1_2,
  agent2 and agent2_1 the file is opened before the response is parsed, so a response that
  does not parse leaves an empty output (`DumpOnOpen`). A skip check later honours that empty
  file (`RequirementExtraction.EmptyQuestionsBlockRerun`, `RoleAlignment.AlignedPairSkips`).
  In agent0_2, agent1_3 and agent3 a response without `markdown_content` leaves an empty file
  too.
- **Case differences collapse.** The design says artifact keys differ whenever the identities
  differ in an alphanumeric character. The slug and the candidate name are lowercased, so
  identities that differ only in letter case share a key (`RoleAlignment.CaseCollapses`,
  `RoleAlignment.CandidateCaseCollapses`).
- **Posting–candidate pairs can collide.** The `_` that joins candidate name and slug also
  occurs inside both, so two different pairs can share one file name
  (`RoleAlignment.PairsCanCollide`).

One input has no producer among the nine scripts. agent1_3 reads
`evaluations/<name>_evaluation.json` under the absolute posting directory
(`PostingSummary.EvaluationLocation`), and its error message asks for agent1_2 to have run.
agent1_2 writes `candidate_evaluation.json` in the candidate directory instead
(`CandidateEvaluation.CandidateFiles`). The model keeps both paths as written, so no modelled
run of agent1_2 enables a run of agent1_3.

## Model

| member | source | states |
|---|---|---|
| Pipeline.FirstMissing | agent1_2.py:43-46 | the existence loop finds no missing path exactly when every path exists; a path it reports is one of the checked paths and does not exist |
| Pipeline.FirstMissingIsFirst | agent1_2.py:43-46 | the reported path is the first missing one: every path before it exists, and a missing path with every earlier path present is the one reported |
| Pipeline.Prepare | agent2_1.py:48-74 | the steps before inference stop a run only with a skip, with missing credentials, or with a missing input, never with completion |
| Pipeline.TextsOfPointwise | agent2_1.py:69-74 | the texts read are one per path, each the contents of its file, or empty for an absent optional file |
| Pipeline.LoadsInStepOrder | agent2_1.py:69-74 | a run that gets past the steps has read exactly the loaded paths, in step order, appended to what it had |
| Pipeline.GoesIffAllPass | agent2_1.py:48-74 | the steps let a run through to inference exactly when every one of them passes |
| Pipeline.ReadsWhenAllPass | agent2_1.py:48-74 | when every step passes, the texts handed to the request are the contents of the loaded paths in step order |
| Pipeline.WritesOnlyOutput | agent2_1.py:97-98 | a run leaves every file other than its own output as it was, neither creating nor deleting nor changing it |
| Pipeline.WriteOnlyAfterReply | agent2_1.py:86-98 | files change only when the service was asked exactly once and returned a response |
| Pipeline.SkipIsSilent | agent2_1.py:49-51 | a skip sends nothing and writes nothing; a run that sends nothing writes nothing and does not complete; the service is asked exactly when every check and read passed; a failure about the response implies a request was sent |
| Pipeline.DoneWritesOutput | agent2_1.py:86-100 | a completed run has written its output key; a raising service call writes nothing |
| Pipeline.HaltsAtFirstBlock | agent2_1.py:49-74 | the first step that does not pass decides the outcome, whatever follows it |
| Pipeline.RerunSkips | agent0_1.py:28-30 | once a run of a stage with a skip check has left the output behind, every later run skips, sends nothing and changes nothing, whatever the service answers |
| Pipeline.LoadsHaltAtFirstMissing | agent0_1.py:41-50 | unchecked reads stop at the first missing file, with the outcome an existence check of the same files in the same order gives |
| Pipeline.Exec | agent2_1.py:48-104 | a run sends at most one request, and the one it sends is the stage's composition of the texts of the loaded paths, in step order |
| Runner.Run | agent2_1.py:48-104 | walking the steps, composing, calling the service once and writing gives exactly the outcome, files and requests of `Pipeline.Exec` |
| Store.FileSystem.constructor | agent0_1.py:36 | a file system over an absolute working directory and the given files |
| Store.FileSystem.Exists | agent2_1.py:65 | true exactly when the path, resolved against the working directory, is a key of the store |
| Store.FileSystem.Read | agent2_1.py:70 | the contents under the resolved path, or nothing when the file does not exist |
| Store.FileSystem.Write | agent2_1.py:97 | creates or overwrites the one resolved key with the text and changes no other key |
| Gemini.Client.constructor | agent2_1.py:54 | a client with the given credentials and service behaviour, with no request sent yet |
| Gemini.Client.GenerateContent | agent2_1.py:87-95 | records the request, and returns the service's reply to that request |
| Paths.Join | agent0_1.py:23 | `os.path.join` of two parts: an absolute second part replaces the first; otherwise the result extends the first part |
| Paths.Basename | agent2_1.py:43 | `os.path.basename` never contains a separator |
| Paths.Dirname | agent0_1.py:24 | `os.path.dirname` is a prefix of its input, and a strictly shorter one when the input does not end in a separator |
| Paths.JoinSplits | agent0_1.py:23-25 | joining a plain name onto a directory in dirname form is undone by `dirname` and `basename`: `dirname` gives the directory back and `basename` the name |
| Paths.DirnameDirForm | agent0_1.py:24 | every `dirname` result is empty, all separators, or does not end in a separator |
| Paths.JoinNamedDirForm | agent0_2.py:26-27 | joining a name that does not end in a separator gives a path in dirname form |
| Paths.NormpathShape | agent2_1.py:25 | a `normpath` result is in dirname form, and it stays absolute when its input is absolute |
| Paths.AbspathChild | agent0_3.py:23-26 | a plain name joined onto an `abspath` result lies directly in that directory |
| Paths.Normpath | agent2_1.py:25 | `os.path.normpath` never gives the empty path (`.` for an empty input) |
| Paths.Abspath | agent2_1.py:25-27 | `os.path.abspath` against an absolute working directory is absolute |
| Paths.Relpath | agent2_1.py:31 | `os.path.relpath` never gives the empty path (`.` when the two paths are the same directory) |
| Paths.NormpathRooted | agent2_1.py:25 | an absolute path of ordinary components is already normal, and splitting it recovers its components |
| Paths.JoinRooted | agent2_1.py:27 | joining a relative path of ordinary components onto such an absolute path appends its components |
| Paths.RelpathOfJoin | agent2_1.py:31 | the path of `start/rel` relative to `start` is `rel`, for ordinary components |
| Screening.Invoke | agent0_1.py:17-85 | running `main` is the run the screening descriptor specifies over the paths of the posting directory and the working directory |
| Screening.Screen | agent0_1.py:27-80 | the stage checks its own report before anything else, then reads questions, template and posting in that order with no existence check |
| Screening.RedFlagCountBounds | agent0_1.py:79 | the count exists exactly when every result has an answer; it is at most the number of results, 0 exactly when no result says "Yes", and equal to the number of results exactly when all do |
| Screening.RedFlagCount | agent0_1.py:79 | over a list the count exists exactly when every result has an answer, is at most the number of results and is 0 exactly when none says "Yes"; over anything else it exists only as 0, for an empty dict or string |
| Screening.CountYesAppend | agent0_1.py:79 | the count of a concatenated result list is the sum of the counts of its parts |
| Screening.ReportBesidePosting | agent0_1.py:23-25 | the report is in the directory of `posting.txt` |
| Screening.SkipsExistingReport | agent0_1.py:28-30 | an existing report ends the run as a skip, exit status 0, with no client, read, request or write |
| Screening.MissingInputExits | agent0_1.py:41-50 | a missing question set, template or posting exits with status 1, naming the first missing one in read order, before any request and with no write |
| Screening.ScreensPosting | agent0_1.py:55-76 | the one request is template, questions header, questions, posting header, posting; the report holds the parsed result unchanged; the run fails when the service raises, when the response does not parse (no write), or when the red-flag count cannot be evaluated after the write |
| ScreeningSummary.Invoke | agent0_2.py:19-58 | running `main` is the run the descriptor specifies over the report beside `posting.txt` and the template under the working directory |
| ScreeningSummary.Summarize | agent0_2.py:26-58 | the stage has no skip check; it checks only the report, then reads report and template in that order |
| ScreeningSummary.SummaryBesideReport | agent0_2.py:22-27 | summary and report both lie in the directory of `posting.txt`; the template lies in `prompts` of the working directory |
| ScreeningSummary.MissingReportExits | agent0_2.py:29-31 | a missing report exits with status 1, naming that path, before the template is read or the service asked |
| ScreeningSummary.MissingTemplateExits | agent0_2.py:33-36 | with the report present, a missing template exits with status 1, naming that path, before inference |
| ScreeningSummary.WritesMarkdown | agent0_2.py:40-58 | the request is template, header, report; the summary then holds exactly `markdown_content`; it is emptied when that field is missing and untouched when the call raises or the response does not parse |
| ProductProfile.Invoke | agent0_3.py:17-83 | running `main` is the run the descriptor specifies over the paths under `abspath(posting_dir)` |
| ProductProfile.Profile | agent0_3.py:29-77 | the stage checks its own profile before anything else, then reads posting, optional context and template in that order with no existence check |
| ProductProfile.AllUnderBase | agent0_3.py:23-26 | posting, context and profile lie directly in `abspath(posting_dir)`, which is absolute when the working directory is; the profile is named `product_profile.json` |
| ProductProfile.SkipsExistingProfile | agent0_3.py:29-31 | an existing profile ends the run as a skip, exit status 0, with no read, request or write |
| ProductProfile.MissingInputExits | agent0_3.py:37-52 | a missing posting, else a missing template, exits with status 1, naming that path, before inference; the optional context never causes a failure |
| ProductProfile.ProfilesProduct | agent0_3.py:56-77 | the request is template, posting, context section and instruction; the section holds the context text when the file exists and is non-empty and the placeholder otherwise; the profile holds the parsed result |
| ProductProfile.ProfileReads | agent0_3.py:37-52 | past the skip check, the texts read are posting, context (empty when the file is absent) and template |
| RequirementExtraction.Invoke | agent1_1.py:15-51 | running `main` is the run the descriptor specifies over the posting path and `questions.json` beside its absolute form |
| RequirementExtraction.Extract | agent1_1.py:20-49 | the client comes first, then the check of its own output, then prompt and posting are read in that order with no existence check |
| RequirementExtraction.QuestionsBesidePosting | agent1_1.py:22-26 | `questions.json` lies in the directory of `abspath(posting.txt)` and is named `questions.json` |
| RequirementExtraction.ClientBeforeSkip | agent1_1.py:20-31 | the client is built first: without credentials the run exits with status 1 even when the output exists |
| RequirementExtraction.SkipsExistingQuestions | agent1_1.py:29-31 | an existing `questions.json` ends the run as a skip, exit status 0, with no read, request or write |
| RequirementExtraction.MissingInputExits | agent1_1.py:34-37 | a missing prompt, else a missing posting, exits with status 1, naming that path, before inference |
| RequirementExtraction.ExtractsRequirements | agent1_1.py:41-49 | the request is prompt, `[JOB POSTING]` header, posting; a parsed response is written whole; an unparsable one leaves the file empty; a raising call writes nothing |
| RequirementExtraction.EmptyQuestionsBlockRerun | agent1_1.py:48-49 | after an unparsable response the empty `questions.json` makes every later run a skip |
| Schemas.LabelsRoundTrip | agent1_2.py:12-14 | each literal field admits exactly its labels: decoding a label gives its value, and only labels decode |
| CandidateEvaluation.Invoke | agent1_2.py:17-83 | running `main` is the run the descriptor specifies over the posting and candidate directories |
| CandidateEvaluation.Evaluate | agent1_2.py:41-79 | the stage has no skip check; it checks questions, posting, resume and template in that order, then reads questions, resume, posting and template |
| CandidateEvaluation.DefaultsToPostingDir | agent1_2.py:28 | an omitted or empty candidate argument makes the candidate directory the posting directory; otherwise it is the argument's absolute form |
| CandidateEvaluation.PostingInputs | agent1_2.py:31-38 | questions and posting lie directly in the absolute posting directory |
| CandidateEvaluation.CandidateFiles | agent1_2.py:32-39 | resume and evaluation lie directly in the absolute candidate directory |
| CandidateEvaluation.MissingInputExits | agent1_2.py:43-46 | any of the four inputs missing exits with status 1, naming the first missing one in loop order, before inference and with no write |
| CandidateEvaluation.ReadsInputs | agent1_2.py:49-52 | with every input present the checks pass and the texts are read as questions, resume, posting, template |
| CandidateEvaluation.EvaluatesCandidate | agent1_2.py:56-83 | the request is template, requirements, resume, posting under their headers; the evaluation is overwritten with the parsed result, emptied by an unparsable response, untouched by a raising call |
| PostingSummary.Invoke | agent1_3.py:15-93 | running `main` is the run the descriptor specifies over the evaluation and summary paths of the pair |
| PostingSummary.Summarize | agent1_3.py:36-85 | the stage has no skip check; it checks and reads the evaluation, then checks and reads the template |
| PostingSummary.EvaluationLocation | agent1_3.py:27-34 | the input is `evaluations/<name>_evaluation.json` of the absolute posting directory, with the candidate name not lowercased |
| PostingSummary.SummaryLocation | agent1_3.py:74-79 | the output is `summaries/<name>_summary.md` of the absolute posting directory |
| PostingSummary.MissingInputExits | agent1_3.py:38-47 | a missing evaluation exits with status 1, naming that path, before the template is looked at; a missing template exits with status 1, naming that path, before inference |
| PostingSummary.WritesMarkdown | agent1_3.py:54-85 | the request is template, header, evaluation; the summary holds exactly `markdown_content` and is overwritten; the run completes exactly when recommendation and fit percentage are present |
| PostingSummary.SummaryEntries | agent1_3.py:88 | the filter keeps exactly the entries ending in `_summary.md` |
| PostingSummary.Listing | agent1_3.py:88 | the listing is ascending and holds exactly the entries ending in `_summary.md` |
| PostingSummary.ListingSpec | agent1_3.py:88 | the listing is ascending, holds exactly the entries ending in `_summary.md`, and holds each of them as often as the directory reports it |
| PostingSummary.ListsWrittenSummary | agent1_3.py:81-88 | after a completed run the listing of the summaries directory includes the summary just written |
| Sorting.Insert | agent1_3.py:88 | inserting into a sorted list keeps it sorted and adds exactly the one element |
| Sorting.Sort | agent1_3.py:88 | `sorted` returns an ascending permutation of its input |
| LegacyEvaluation.Invoke | agent2.py:17-52 | running `main` is the run the descriptor specifies over the paths in `dirname` of the argument |
| LegacyEvaluation.Evaluate | agent2.py:28-52 | the stage has no skip check and no existence check; it reads questions, resume, posting and template in that order |
| LegacyEvaluation.DirectoryIsParent | agent2.py:23 | for an argument `dir/name`, the files are looked for in `dir`, not in `name` |
| LegacyEvaluation.FilesInDirectory | agent2.py:23-26 | questions, posting, resume and evaluation all lie directly in `dirname` of the argument |
| LegacyEvaluation.TrailingSeparatorNamesDir | agent2.py:23 | an argument with a trailing separator names the directory itself, and any other non-empty argument is cut back to a strictly shorter path |
| LegacyEvaluation.MissingInputExits | agent2.py:29-32 | with no existence checks, the first missing file in read order ends the run with status 1 before inference, with no write |
| LegacyEvaluation.ReadsInputs | agent2.py:29-32 | with every file present the texts are read as questions, resume, posting, template |
| LegacyEvaluation.EvaluatesCandidate | agent2.py:36-52 | the request is template, requirements, resume, posting; the evaluation is overwritten with the parsed result, emptied by an unparsable response, untouched by a raising call |
| RoleAlignment.JobSlug | agent2_1.py:37 | the slug has the length of the relative job path, and each slug character is that path character lowercased when it is an ASCII letter or digit, `_` otherwise |
| RoleAlignment.SlugAlphabet | agent2_1.py:37 | every slug character is a lowercase ASCII letter, a digit or `_` |
| RoleAlignment.SlugIdempotent | agent2_1.py:37 | slugging a slug gives it back unchanged |
| RoleAlignment.SlugEqualIff | agent2_1.py:37 | two paths share a slug exactly when they have the same length and agree position by position up to letter case and the identity of other characters |
| RoleAlignment.SlugConcat | agent2_1.py:37 | the slug of a concatenation is the concatenation of the slugs |
| RoleAlignment.CaseCollapses | agent2_1.py:37 | any two relative paths that differ only in letter case get the same slug |
| RoleAlignment.DocumentedExample | agent2_1.py:36-37 | `VLS/Dept-Name/Senior Eng!` slugs to `vls_dept_name_senior_eng_` |
| RoleAlignment.RelJobPath | agent2_1.py:25-31 | the relative job path is never empty |
| RoleAlignment.RelJobPathBelowPostings | agent2_1.py:25-31 | for a posting directory given as `postings/<rel>` from a normalised working directory, the relative job path is `<rel>` itself |
| RoleAlignment.DocumentedAlignmentSlug | agent2_1.py:25-37 | run on `postings/VLS/Dept-Name/Senior Eng!`, the path `main` computes slugs to `vls_dept_name_senior_eng_` |
| RoleAlignment.ArtifactName | agent2_1.py:43-44 | the file name built from a directory name without a separator has no separator either |
| RoleAlignment.AlignmentLocation | agent2_1.py:40-45 | the output is `<candidate>/role_alignments/<lowercased name>_<slug>_role_alignment.json` |
| RoleAlignment.CandidateCaseCollapses | agent2_1.py:43-44 | any two candidate directory names that differ only in letter case give the same file name |
| RoleAlignment.PairsCanCollide | agent2_1.py:44 | two different name and slug pairs can give the same file name |
| RoleAlignment.Invoke | agent2_1.py:19-104 | running `main` is the run the descriptor specifies over the pair's paths |
| RoleAlignment.Align | agent2_1.py:48-98 | the stage checks its own output before anything else, checks questions, posting, resume, experiences and template in that order, then reads questions, resume, experiences, posting and template |
| RoleAlignment.SkipsExistingAlignment | agent2_1.py:49-51 | an existing alignment ends the run as a skip, exit status 0, before the client, any read, request or write |
| RoleAlignment.MissingInputExits | agent2_1.py:64-67 | any of the five inputs missing, experiences included, exits with status 1, naming the first missing one in loop order, before inference and with no write |
| RoleAlignment.ReadsInputs | agent2_1.py:64-74 | with no alignment and every input present the checks pass and the texts are read as questions, resume, experiences, posting, template |
| RoleAlignment.AuditsAlignment | agent2_1.py:78-98 | the request is template, requirements, resume, experiences, posting under their headers; the alignment is written only after the service returns, and is left empty by an unparsable response |
| RoleAlignment.AlignedPairSkips | agent2_1.py:49-51 | once a run has completed, or left an empty alignment behind, every later run for the pair is a skip |
| ExecutiveSummary.Invoke | agent3.py:15-68 | running `main` is the run the descriptor specifies over the one given directory |
| ExecutiveSummary.Summarize | agent3.py:27-64 | the stage has no skip check; it checks only the evaluation, then reads evaluation and template in that order |
| ExecutiveSummary.SameDirectory | agent3.py:23-24 | evaluation and summary lie directly in `abspath` of the given directory |
| ExecutiveSummary.ReadsEvaluatorOutput | agent3.py:24 | the input is the file agent1_2 writes when given no candidate directory |
| ExecutiveSummary.MissingEvaluationExits | agent3.py:28-30 | a missing evaluation exits with status 1, naming that path, before the template is read or the service asked |
| ExecutiveSummary.EvaluationEnablesSummary | agent3.py:28-35 | after a completed evaluator run, the summary finds its input and reaches the service exactly when the template exists |
| ExecutiveSummary.WritesMarkdown | agent3.py:39-64 | the request is template, header, evaluation; the summary holds exactly `markdown_content` and is overwritten; the run completes exactly when recommendation and fit percentage are present |

## Left out

- The Gemini call: model name, configuration and response schema are not modelled. The service is an arbitrary function from request to reply.
- JSON: `json.loads` and `json.dump(..., indent=4)` are opaque functions, so the exact text written is not modelled. The response schemas are not checked at run time; the code trusts the response, and only the literal enum fields are modelled, as datatypes (`Schemas`).
- The one-to-one match between requirements and evaluation records: the code never enforces it.
- `os.path.normpath`'s POSIX rule that keeps exactly two leading slashes is not modelled.
- The store does not normalise paths on lookup. A relative path is joined onto the working directory, so `a/./b` and `a/b` are different keys.
- `os.makedirs` is not modelled: directories are not store entries, and creating them cannot fail.
- Console output is not modelled, except where evaluating it can raise after the write:
  - the red-flag count in agent0_1;
  - the recommendation and fit percentage in agent1_3 and agent3.
- Floating-point fields (`fit_percentage`, `futility_score`) are only printed by the code, so they are not modelled.
- RoleAlignment.CandidateName: `str.lower` is modelled for ASCII only, so a non-ASCII capital in the candidate directory's name stays unchanged, where Python would lowercase it. The slug is not affected, because the substitution leaves only ASCII letters, digits and `_` before lowering.
- The `ValueError` branch of `os.path.relpath` (agent2_1.py:32-33) is not modelled. On POSIX it is raised only for an empty path, and both paths passed there are absolute.
- Exceptions: every exception that ends a script is one `Failed` outcome, with exit status 1 (`Pipeline.ExitStatus`); the exception's type and message are not modelled, and neither is argparse.
- The order of a failing `json.dump` and a half-written file is not modelled: a successful dump writes the whole text at once.
- Races and concurrency: between the existence check and the write another process could create the file. The model treats one run as atomic.
- The dependency order across stages is not a separate scheduler in the code. It exists as each script's input checks, and `ExecutiveSummary.EvaluationEnablesSummary` states it for the evaluator and summary pair.
- `os.listdir` is a parameter: `PostingSummary.ListsWrittenSummary` takes the reported entries, in any order, as those whose directory is the summaries directory.
