# A verified model of the benchmark CLI

The CLI (`cli/main.go`) runs a user's command on a remote machine and reports
how it performed. It works in these stages:

1. **Selecting the command.** The command comes from one positional argument, from
   `--command`, or from two or more positional words. In the last case the first
   word names a binary and is looked up; the rest are the command.
2. **Finding what the command depends on.** These are the binaries named by each
   `&&` segment and the files its arguments name.
3. **Staging.** The dependencies are copied into a fresh `.ib-*` temporary folder.
   The `--folder` tree can be copied there too, and the command's arguments are
   then rewritten to name the staged copies.
4. **Running.** The command runs either on an existing host (`--host`) or on a
   machine that Terraform provisions and later destroys. On a host it goes over
   ssh inside a generated `run_benchmark.sh`. With Terraform it goes through the
   `custom_command` variable.
5. **Reporting.** Only the output between the `BENCHMARK_START` and `BENCHMARK_END`
   sentinels is printed, without Terraform's progress noise and without the
   `Remote-Output:` tag.
6. **Cleaning up.** The temporary folder is removed.

The project also models the example benchmark that ships with the CLI:
`example/utils.js` validates the input and `example/helper.js` sums `1..n`.

## How the model is built

Each part of the source keeps its own form.

- **Loops become methods.**
  - The output filter's line loop.
  - The loop that collects binaries over `&&` segments.
  - The file-detection loop.
  - The two staging loops that fill the remapped-paths map.
  - The argument rewriter.
  - `calculate`'s counting loop.

  Each method is proved against a specification function on its inputs, and the
  promised properties are proved as lemmas about that function.
- **`contains` is a recursive function** (`Discovery.SliceContains`). Its loop
  changes no variable and only searches, so the function's contract states
  membership directly.
- **The run's stages are methods proved equal to functions.** `Staged` is the
  staging of a command, `Preparation` adds the command's selection, `StageRun`
  is the host or Terraform stage, and `RunOutcome` is the whole run.
- **`main` is a method** that returns the exit status and the trace of `Action`s
  it attempts, in order: the folder copy, the remote and Terraform steps, the
  script write, the prints, the warnings and the removal of the temporary
  folder. The copies of individual dependencies (`copyFile`), `os.MkdirAll`
  and `os.Getwd` are not `Action`s: only their outcomes, given as parameters,
  steer the run. A `Print(text)` holds the printed text without the newline
  that `fmt.Println` adds.
- **Every external call is a parameter.** This covers `exec.LookPath`,
  `os.Stat`, `filepath.*`, `copyFile`, `copyDir`, `os.MkdirTemp`, `os.Getwd`,
  ssh, scp, `os.WriteFile`, the Terraform install/init/apply/destroy calls and
  `os.RemoveAll`. Host lookups (`Machine`) are function-valued fields; the
  success of each run-time step is a field of `Outcomes`.
- **`Ordered(trace)`.** Each action has a rank in program text order, and an
  ordered trace lists its actions in increasing rank. Every run's trace is
  ordered, so no step is attempted twice and every step comes after the ones the
  source puts before it.

### Behaviour worth knowing

- **Output filter.**
  - There is a single filter, the sentinel window. The Terraform path reuses it,
    so the Terraform output is empty unless the provisioned machine prints
    `BENCHMARK_START`.
  - Removing the tag `Remote-Output:` keeps the space after it, so
    `Remote-Output: 42` reports ` 42` (`Remote.CustomCommandTagged`).
  - Only the first tag on a line is removed (`OutputFilter.StripTagFirst`).
- **Command selection and staging.**
  - With two or more positional words, the first word is looked up, and a failed
    lookup is fatal. But it is *not* part of the command that runs: that command
    is the remaining words joined by spaces (`Discovery.SelectDropsFirstWord`).
  - Binaries are collected only when the command contains `&&`. For a single
    command the inferred binary is only printed and is never staged.
  - The command is rewritten only when `--folder` is given. Without it, the
    staged dependencies are copied but the command still names the original
    paths (`Orchestrator.Run`).
  - The rewriter trims quotes from every argument after the first, so it is not
    the identity on quoted arguments. An argument made only of quotes disappears
    (`Staging.RewriteDropsEmptyQuotes`).
- **Host path.**
  - The host path copies the temporary folder with scp *before* it writes
    `run_benchmark.sh` into that folder. The model keeps this order:
    `RemoteMkdir`, `RemoteCopy`, `WriteScript`, `RunScript`.
  - A failed removal of the temporary folder is only logged, and the status
    stays 0.
- **Terraform path.**
  - A failed apply exits 1 with a hint to destroy by hand. It neither destroys
    nor removes the temporary folder.
  - A failed removal exits 1.
- **Every fatal exit** (`os.Exit`, `log.Fatalf`) leaves the temporary folder
  behind.

## Model

| member | source | states |
|---|---|---|
| `OutputFilter.FilterOutput` | cli/main.go:77-108 | the loop over the lines of the output computes `Filter(output)`, the state left after scanning all of its lines |
| `OutputFilter.ScanIsReference` | cli/main.go:77-108 | after any number of lines, the loop state is (capture flag, emitted text). The flag is on exactly when some earlier line held the start marker and no later one the end marker. The text is the emitted lines in input order, each with its tag stripped and followed by a newline |
| `OutputFilter.FilterIsReference` | cli/main.go:77-108 | the filtered output is exactly the emitted lines of the whole input, each followed by a newline |
| `OutputFilter.EmittedLinesOrigin` | cli/main.go:83-105 | at most one output line per input line, and every output line is an emitted input line with its tag stripped, which holds neither sentinel nor the `Still creating` noise |
| `OutputFilter.NoneEmitted` | cli/main.go:95-105 | when no line among the first n is emitted, the emitted text of those lines is empty |
| `OutputFilter.NoStartNoOutput` | cli/main.go:83-87 | output without a `BENCHMARK_START` line filters to nothing |
| `OutputFilter.FilterEndsWithNewline` | cli/main.go:104 | the filtered text is empty or ends with a newline |
| `OutputFilter.TerminatedEnd` | cli/main.go:104 | lines each written with a trailing newline give text that is empty or ends with a newline |
| `OutputFilter.StripTagKeepsRest` | cli/main.go:99-101 | a line starting with the tag reports exactly what follows the tag, the space included |
| `OutputFilter.StripTagFirst` | cli/main.go:100 | only the first occurrence of the tag is removed, and the text before and after it is kept |
| `OutputFilter.ScanFromAppend` | cli/main.go:81-106 | scanning two runs of lines one after the other is scanning their concatenation |
| `OutputFilter.ScanFromSnoc` | cli/main.go:81-106 | scanning one more line is one more loop iteration |
| `OutputFilter.ScanIdle` | cli/main.go:83-92 | while not capturing, lines without the start marker change nothing |
| `OutputFilter.ScanCapturing` | cli/main.go:95-105 | while capturing, plain lines are appended verbatim, each with a newline |
| `OutputFilter.StepStart` | cli/main.go:83-86 | the start marker turns capturing on and emits nothing |
| `OutputFilter.StepEnd` | cli/main.go:88-91 | the end marker turns capturing off and emits nothing |
| `OutputFilter.StepIdle` | cli/main.go:83-96 | outside the window, a line without the start marker is dropped |
| `OutputFilter.StepPlain` | cli/main.go:95-105 | inside the window, a plain line is copied with a newline |
| `OutputFilter.StepTagged` | cli/main.go:97-104 | inside the window, a line that starts with the tag is copied without the tag |
| `OutputFilter.StartBeforeEnd` | cli/main.go:83-91 | any line holding both sentinels starts capturing, whatever the state, because the start test comes first |
| `OutputFilter.WindowLines` | cli/main.go:78 | splitting at newlines gives the window's lines and the trailing text |
| `OutputFilter.ScanWindowOpen` | cli/main.go:83-105 | the start marker and then a plain line leave capturing on with that line emitted |
| `OutputFilter.ScanWindowTagged` | cli/main.go:83-105 | a further tagged line is emitted without its tag |
| `OutputFilter.ScanWindowClosed` | cli/main.go:83-105 | the end marker then closes the window and keeps what was emitted |
| `OutputFilter.ScanThenIdle` | cli/main.go:83-96 | once the window has closed, a further line without the start marker leaves the result unchanged |
| `OutputFilter.FilterWindow` | cli/main.go:77-108 | a sentinel window around a plain line and a tagged line filters to those two lines, the tag removed, whatever follows the window |
| `Discovery.SliceContains` | cli/main.go:646-653 | `contains` is true exactly when the item is an element of the slice |
| `Discovery.DistinctSnoc` | cli/main.go:257-259 | one more candidate appends its value unless that value is already present |
| `Discovery.DistinctNoDup` | cli/main.go:257-259 | the de-duplicating append never records a path twice |
| `Discovery.DistinctMembers` | cli/main.go:257-259 | a path is recorded exactly when some candidate yields it |
| `Discovery.DistinctPrefix` | cli/main.go:257-259 | paths are only appended: the list after a prefix of the candidates is a prefix of the final list |
| `Discovery.SelectCommand` | cli/main.go:197-239 | a usage error exactly when there are no positional arguments and no `--command`. A lookup error exactly when two or more words are given and the first is not found. Otherwise the command is the single argument, the `--command` text, or the later words joined by spaces, and the binary is the lookup of the first field, or of the first word |
| `Discovery.SelectDropsFirstWord` | cli/main.go:217-228 | with two or more words and a binary found, the command's fields are exactly the words after the first |
| `Discovery.SegmentBinaries` | cli/main.go:243-255 | one candidate per `&&` segment: the lookup of the first field of the trimmed segment |
| `Discovery.CollectBinaries` | cli/main.go:242-266 | the collected binaries are `BinariesToCopy` of the command: none without `&&`, otherwise the de-duplicated lookups of the segments' first fields |
| `Discovery.BinariesToCopyFacts` | cli/main.go:242-266 | no binaries without `&&`. With `&&`, a path is collected exactly when some segment's first field resolves to it, and never twice |
| `Discovery.SegmentsBinaries` | cli/main.go:244-265 | the segment loop yields the distinct lookups of the segments' first fields, in order |
| `Discovery.FileCandidates` | cli/main.go:270-288 | one candidate per field: the result of the detection test on that field |
| `Discovery.QuotedArgumentDetected` | cli/main.go:270-288 | a later argument that does not start with `-` is detected exactly when it names an existing file, and then as its absolute path. Wrapping it in quotes changes nothing |
| `Discovery.DetectFiles` | cli/main.go:269-290 | the detected files are `FilesToCopy` of the command: the de-duplicated candidates of its fields, in first-seen order |
| `Discovery.FilesToCopyFacts` | cli/main.go:269-290 | a path is detected exactly when an argument after the first, not starting with `-` before or after quote trimming, names an existing file with that absolute path; no path twice |
| `Staging.StageDependencies` | cli/main.go:304-350 | the map built is `StagedPaths`: a path is a key exactly when it is a collected binary or a detected file and its copy into the temporary folder succeeds. It maps to its base name |
| `Staging.Rewritten` | cli/main.go:398-425 | the first token is kept, and every later token is quote-trimmed, then re-rooted under the folder's base name or mapped to its staged name |
| `Staging.RewriteCommand` | cli/main.go:394-429 | a command with no fields is unchanged. Otherwise the result is the rewritten tokens joined by single spaces |
| `Staging.RewriteTokens` | cli/main.go:398-425 | the token loop builds exactly `Rewritten` of the fields |
| `Staging.TrimUnquoted` | cli/main.go:403 | trimming quotes leaves a token without quotes at its ends unchanged |
| `Staging.InertArgKept` | cli/main.go:403-425 | a token that is unquoted, not under the folder and not staged is left unchanged by the rewrite |
| `Staging.InertTokensKept` | cli/main.go:398-425 | later tokens that are unquoted, not under the folder and not staged come out of the loop unchanged |
| `Staging.RewriteKeepsInertCommand` | cli/main.go:394-429 | when no later token is quoted, under the folder or staged, the rewritten command has the same fields |
| `Staging.RewriteStagedArgument` | cli/main.go:416-420 | an argument whose absolute path was staged becomes that path's base name |
| `Staging.RewriteFolderArgument` | cli/main.go:403-413 | an argument under `--folder`, quoted or not, becomes the same relative path under the folder's base name |
| `Staging.RewriteResplits` | cli/main.go:394-429 | when every rewritten token is a field, splitting the new command gives back exactly those tokens |
| `Staging.RewriteDropsEmptyQuotes` | cli/main.go:403 | an argument made only of quotes is trimmed to nothing and disappears from the new command |
| `Remote.ScriptLinesInOrder` | cli/main.go:474-485 | the wrapper script consists of these lines, each ending in a newline: the shebang, the `cd`, the start sentinel, `Run 1`, the command, `Run 2`, the command, `Run 3`, the command and the end sentinel |
| `Remote.ScriptIsTerminated` | cli/main.go:474-485 | the wrapper script is its ten lines, each followed by a newline |
| `Remote.CommandRunsThreeTimes` | cli/main.go:474-485 | a command that is none of the fixed lines occupies exactly the fifth, seventh and ninth lines, so it runs three times and nowhere else |
| `Remote.LinesTerminated` | cli/main.go:78 | lines written each with a newline split back into those lines and a final empty piece |
| `Remote.RunLabelPlain` | cli/main.go:477-482 | the `Run k` labels pass the filter unchanged |
| `Remote.ReportPlain` | cli/main.go:477-482 | the labelled runs of plain output are plain |
| `Remote.ScanThroughWindow` | cli/main.go:81-106 | lines before the window are dropped, plain lines inside it are copied and lines after it are dropped |
| `Remote.TranscriptFiltersToReport` | cli/main.go:474-500 | the output of the script's run, with whatever the login prints around it, filters to exactly the three labelled runs. This holds when the runs' own output is plain |
| `Remote.CustomCommandTagged` | cli/main.go:579 | the echoed line `Remote-Output: <out>`, for an output holding neither sentinel nor the noise, is reported inside the window as ` <out>` (the space after the tag kept) and dropped outside it. `CustomCommand` is built from the tag the filter strips |
| `Orchestrator.RunOnHost` | cli/main.go:431-511 | the host stage computes `HostRun` for the wrapper script of the user and command and the filtered ssh output |
| `Orchestrator.HostOutcome` | cli/main.go:436-508 | a missing ssh key exits 1 before any step. The status is 0 exactly when mkdir, scp, the script write and the ssh run all succeed. Removal of the temporary folder is attempted exactly on status 0, after the output is printed; a failed removal is only logged |
| `Orchestrator.HostActions` | cli/main.go:448-508 | the host stage's steps are in program order, the script written is exactly the given one, and nothing is applied or destroyed |
| `Orchestrator.RunOnTerraform` | cli/main.go:513-642 | the Terraform stage computes `TerraformRun`. It applies the three variables (folder, instance type, `custom_command`), prints the filtered apply output and destroys with the first two variables |
| `Orchestrator.TerraformInit` | cli/main.go:538-559 | the reduced Init is tried exactly when the full Init fails. Apply is reached only after an Init succeeded. Two failures exit 1 with the hint to run init by hand |
| `Orchestrator.TerraformApplyFails` | cli/main.go:583-590 | a failed apply exits 1 with the warning that resources may exist, and neither destroys nor removes the temporary folder |
| `Orchestrator.TerraformActions` | cli/main.go:522-641 | the Terraform stage's actions are in program order |
| `Orchestrator.InitOrdered` | cli/main.go:522-559 | install, client creation and the Init attempts come in program order |
| `Orchestrator.TerraformApplyVars` | cli/main.go:573-583 | every apply uses exactly the given variables |
| `Orchestrator.TerraformCleanup` | cli/main.go:581-641 | the status is 0 or 1. Destroy happens exactly when apply succeeded. Removal is attempted exactly after a destroy, whatever its result. Status 0 exactly when destroy ran and removal succeeded. The output is printed before the destroy. The timeout and the error are each reported exactly when they happen |
| `Orchestrator.CompletedOrdered` | cli/main.go:581-641 | after a successful apply, the apply, print, destroy, report and removal follow in program order |
| `Orchestrator.CompletedCleanup` | cli/main.go:592-637 | after a successful apply the run applies, destroys and removes, prints before destroying and destroys before removing |
| `Orchestrator.CompletedReport` | cli/main.go:614-624 | the timeout warning appears exactly on a deadline, and the error warning exactly on any other destroy failure |
| `Orchestrator.StageFolder` | cli/main.go:352-429 | a command is produced exactly when the folder's absolute path resolves to a directory and both `MkdirAll` and the copy succeed. The command is then rewritten against the folder and its base name. The copy is attempted exactly when `MkdirAll` succeeds, from the absolute path to that same base name under the temporary folder |
| `Orchestrator.StageCommand` | cli/main.go:241-429 | staging computes `Staged`. It creates the temporary folder and at most copies the folder after it. Without `--folder` the command is unchanged. With it, the command is rewritten against the folder's base name and the map of staged dependencies: the collected binaries and detected files whose copy succeeded |
| `Orchestrator.StagedFacts` | cli/main.go:292-429 | `Staged` creates the temporary folder first and copies at most the folder after it. It yields the created folder and its absolute path, and the command unchanged without `--folder` or rewritten against the staged map with it |
| `Orchestrator.Prepare` | cli/main.go:190-429 | the preparation computes `Preparation`. A selection error stops before any action. The local steps are in program order. Without `--folder` no folder is copied and the command is the selected one. With `--folder` the command is the selected one rewritten against the staged map |
| `Orchestrator.StagedTrace` | cli/main.go:292-392 | the local staging's trace is in program order and copies a folder only as its second step |
| `Orchestrator.Run` | cli/main.go:188-642 | the run computes `RunOutcome`: a failed preparation exits 1 after its own actions, and otherwise the stage's actions follow the staging's and its status is the run's. The status is 0 or 1, and a selection error exits 1 doing nothing. Actions come in program order, none twice. Status 0 implies that removal of the temporary folder was attempted. The host path never applies or destroys. The Terraform path exits 0 exactly when it destroyed and removed. The script and the apply variables carry the prepared command: the selected one, rewritten with `--folder` |
| `Orchestrator.RunStage` | cli/main.go:431-642 | the stage computes `StageRun`: `HostRun` for the wrapper script of the command when `--host` is given, otherwise `TerraformRun` with the variables built from the command. Either way the actions are in program order and carry the given command |
| `Orchestrator.HostStage` | cli/main.go:431-511 | the host branch computes `HostRun` of the wrapper script of the given command. It exits 0 exactly when the ssh key is present and mkdir, scp, the script write and the ssh run succeed. It is in program order, attempts removal of the temporary folder on success, never applies or destroys, and any script it writes is that wrapper script |
| `Orchestrator.TerraformStage` | cli/main.go:513-642 | the Terraform branch computes `TerraformRun` with the variables built from the given command. It exits 0 or 1, in program order, succeeds exactly when it destroyed and removed, writes no script, and applies exactly those variables |
| `Orchestrator.TerraformOutcome` | cli/main.go:513-642 | the Terraform case table gives status 0 or 1, program order, attempted removal on success, success exactly when destroyed and removed, no script, and only the given variables applied |
| `Orchestrator.OrderedNoDup` | cli/main.go:188-642 | a run in program order attempts no action twice |
| `Orchestrator.OrderedUnique` | cli/main.go:188-642 | a run in program order attempts at most one action of each step |
| `Orchestrator.OrderedBefore` | cli/main.go:188-642 | in program order, a step written earlier is attempted before a step written later |
| `Orchestrator.WithinKinds` | cli/main.go:292-392 | local staging neither removes, applies nor destroys, and the remote stages copy no folder |
| `Orchestrator.WithinNoScript` | cli/main.go:513-642 | the Terraform stage writes no host script |
| `Example.ValidatePositiveInteger` | example/utils.js:7-11 | it returns exactly for a positive integer, safe or beyond `Number.MAX_SAFE_INTEGER`. Otherwise it throws `Expected a positive integer, got <value>` with the value as it prints, a TypeError for a Symbol or an object without a primitive conversion, or, passed on unchanged, the exception that the value's own conversion throws |
| `Example.ShowIntegerRoundTrip` | example/utils.js:9 | up to `Number.MAX_SAFE_INTEGER` in magnitude, the message shows an integer as its decimal digits, after a minus sign when negative. Reading the digits back gives the integer |
| `Example.NatToString` | example/utils.js:9 | a natural number prints as a non-empty string of digits |
| `Example.NatToStringRoundTrip` | example/utils.js:9 | reading the printed digits back gives the number |
| `Example.Calculate` | example/helper.js:9-18 | it throws exactly when validation throws, with what validation throws. It runs forever exactly for a positive integer beyond `Number.MAX_SAFE_INTEGER`. Otherwise it returns `1 + ... + n`, which is `n(n+1)/2` |
| `Example.CounterExact` | example/helper.js:13 | below 2^53 the loop counter's `i++` is exact: after k increments from 1 it is k + 1 |
| `Example.CounterStalls` | example/helper.js:13 | from 2^53 - 1 increments on, the counter stays at 2^53, so the test `i <= n` never fails for n of 2^53 or more |
| `Example.SumToClosedForm` | example/helper.js:13-16 | the loop's sum is `n(n+1)/2` |
| `Example.Benchmark` | example/main.js:9-10 | `calculate(10)` is 55 |
| `GoStrings.ContainsAt` | cli/main.go:83 | `Contains` holds exactly when some window of the text equals the pattern |
| `GoStrings.ShortNotContains` | cli/main.go:83 | a text shorter than the pattern does not contain it |
| `GoStrings.FirstCharAbsent` | cli/main.go:83 | a text without the pattern's first character does not contain it |
| `GoStrings.Split` | cli/main.go:243 | splitting always yields at least one piece |
| `GoStrings.JoinSplit` | cli/main.go:243 | joining the pieces with the separator gives the text back |
| `GoStrings.SplitJoinChar` | cli/main.go:78 | splitting a join of pieces free of the separator character gives the pieces back |
| `GoStrings.SplitCharCons` | cli/main.go:78 | a leading piece free of the separator character comes off whole |
| `GoStrings.SplitCharNone` | cli/main.go:78 | a text free of the separator character is a single piece |
| `GoStrings.WordLength` | cli/main.go:269 | the leading run of non-space characters ends at a space or at the end |
| `GoStrings.Fields` | cli/main.go:269 | every field is non-empty and free of spaces, and there are no more fields than characters |
| `GoStrings.FieldsEmpty` | cli/main.go:394-395 | a text has no fields exactly when it is all spaces |
| `GoStrings.FieldsLeadingWord` | cli/main.go:269 | a leading word followed by a space or the end is the first field |
| `GoStrings.FieldsJoin` | cli/main.go:427 | fields joined by single spaces split back into the same fields |
| `GoStrings.TrimLeftFunc` | cli/main.go:277 | only leading cut characters are removed, and the result starts with a kept character |
| `GoStrings.TrimRightFunc` | cli/main.go:277 | only trailing cut characters are removed, and the result ends with a kept character |
| `GoStrings.TrimFuncIdempotent` | cli/main.go:277 | trimming twice removes nothing more |
| `GoStrings.TrimFuncWrapped` | cli/main.go:277 | trimming removes exactly a wrapper of cut characters around a text whose ends are kept |
| `GoStrings.ReplaceFirstAbsent` | cli/main.go:100 | without an occurrence, replacing changes nothing |
| `GoStrings.ReplaceFirstAt` | cli/main.go:100 | only the first occurrence is replaced, and the text around it is kept |
| `Wrappers.MapGet` | cli/main.go:418-420 | a missing key reads as the empty string, and a present key as its value |

## Left out

- **Presentation.** Logging (`infoLog`, `debugLog`, `errorLog`, `successLog`), the
  spinner, colours, `--debug` and the debug dump of the destroy buffer are left
  out. None of them changes what is run or the exit status.
- **Flag parsing.** Flag parsing itself and `printUsageAndExit` are left out; a
  usage error is the `Usage` error of `Discovery.SelectCommand`.
- **File-system helpers.** `copyDir`, `copyFile`, `os.MkdirTemp`, `os.RemoveAll`,
  `os.Stat`, `os.Getwd` and `fileExists` are modelled by their results only.
  Their recursive walks are not modelled. The crash in `fileExists` when
  `os.Stat` fails for a reason other than a missing file is not modelled.
  `dirExists` is unused and left out.
- **Path functions.** `filepath.Abs`, `Base`, `Join`, `Rel` and `IsAbs` are
  parameters. Two dependencies with the same base name overwriting each other
  in the temporary folder is therefore not modelled.
- **ssh and scp.** ssh and scp are modelled by their success and output. Their
  argument vectors are not modelled. That includes the literal `tmpFolder/*`
  passed to scp, which no shell expands.
- **Terraform internals.** Installing Terraform 1.7.5, `tfexec` and the
  three-minute destroy deadline are outcomes given to the model.
- **Terraform directory.** `getTerraformDir` is left out (cli/main.go:112-128).
  It ends the run fatally, with status 1 and the temporary folder left behind,
  when `../aws` cannot be made absolute or does not exist. The model assumes the
  directory is present. The directory text inside the messages is also left
  out; only which warning appears is modelled.
- **Bytes as characters.** The ssh output and the apply buffer are byte strings
  in Go. The model reads them as sequences of characters, so output that is not
  valid UTF-8 is not represented.
- **Messages and output.** Message texts other than the `validatePositiveInteger`
  error and the wrapper script are left out. So is the print of the inferred
  binary path, which stages nothing.
- `Example.ValidatePositiveInteger`: an integer beyond `Number.MAX_SAFE_INTEGER`
  is known only by its sign and its printed text (JavaScript's shortest
  round-trip digits or exponent form); how JavaScript derives that text is not
  modelled.
- `Example.Calculate`: the sum is added exactly. For n up to
  `Number.MAX_SAFE_INTEGER` the true sum exceeds 2^53 once n is above about
  1.3 * 10^8, and the floating-point rounding of such sums is not modelled.
  Non-integer values and non-numbers are represented by their printed text.
- `Example.Calculate`: that the loop runs exactly `n` times is captured by its
  invariant and its termination measure. It is not a separate postcondition.
- **Other files.** `index.js` and the timing printout of `example/main.js`
  (`console.time`) are not part of this model.
