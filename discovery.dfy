/** Choosing the command and finding what it depends on (cli/main.go:190-290,
    646-653): the binaries named by the segments of a compound `&&` command,
    and the arguments that name existing files. */
module Discovery {
  import opened Wrappers
  import opened GoStrings
  import opened Machine

  /** `contains` (cli/main.go:646-653): a linear scan for `item`. */
  function SliceContains(slice: seq<string>, item: string): (r: bool)
    ensures r <==> item in slice
    decreases |slice|
  {
    if |slice| == 0 then false
    else if slice[0] == item then true
    else SliceContains(slice[1..], item)
  }

  // ---------------------------------------------------------------------
  // Appending each new value once, in the order first seen.

  /** The values of `cands`, first occurrences only, in order. */
  function Distinct<T(==)>(cands: seq<Option<T>>): seq<T>
    decreases |cands|
  {
    if |cands| == 0 then []
    else
      var prev := Distinct(cands[..|cands| - 1]);
      match cands[|cands| - 1]
      case None => prev
      case Some(x) => if x in prev then prev else prev + [x]
  }

/** One more candidate: its value is appended unless already present. */
  lemma DistinctSnoc<T>(cands: seq<Option<T>>, i: nat)
    requires i < |cands|
    ensures Distinct(cands[..i + 1]) ==
      match cands[i]
      case None => Distinct(cands[..i])
      case Some(x) => if x in Distinct(cands[..i]) then Distinct(cands[..i]) else Distinct(cands[..i]) + [x]
  {
    assert cands[..i + 1][..i] == cands[..i];
  }

  lemma {:induction false} DistinctNoDup<T>(cands: seq<Option<T>>)
    ensures NoDup(Distinct(cands))
    decreases |cands|
  {
    if |cands| > 0 {
      DistinctNoDup(cands[..|cands| - 1]);
    }
  }

  /** A value is kept exactly when some candidate holds it. */
  lemma {:induction false} DistinctMembers<T>(cands: seq<Option<T>>)
    ensures forall x :: x in Distinct(cands) <==> Some(x) in cands
    decreases |cands|
  {
    if |cands| > 0 {
      var init := cands[..|cands| - 1];
      DistinctMembers(init);
      assert cands == init + [cands[|cands| - 1]];
    }
  }

  /** Values are only ever appended: the result for a prefix of the
      candidates is a prefix of the result, so values keep the order in
      which they were first seen. */
  lemma {:induction false} DistinctPrefix<T>(cands: seq<Option<T>>, n: nat)
    requires n <= |cands|
    ensures |Distinct(cands[..n])| <= |Distinct(cands)|
    ensures Distinct(cands[..n]) == Distinct(cands)[..|Distinct(cands[..n])|]
    decreases |cands| - n
  {
    if n < |cands| {
      var init := cands[..|cands| - 1];
      assert init[..n] == cands[..n];
      DistinctPrefix(init, n);
    } else {
      assert cands[..n] == cands;
    }
  }

  // ---------------------------------------------------------------------
  // Choosing the command (cli/main.go:190-239).

  /** What the run goes on with: the command text, and the binary found for
      it (printed only; nothing else reads it). */
  datatype Selection = Selection(cmd: string, binaryPath: Option<string>)

  datatype SelectError =
    | Usage                        // printUsageAndExit
    | BinaryNotFound(name: string) // log.Fatalf "Binary %s not found in PATH"

  /** `exec.LookPath` of the command's first field; a failed lookup is only a warning. */
  function InferBinary(cmd: string, lookPath: string -> Option<string>): Option<string> {
    var parts := Fields(cmd);
    if |parts| > 0 then lookPath(parts[0]) else None
  }

  /** One positional argument is the whole command; two or more are a binary
      and the words of the command; with none, `--command` is used. */
  function SelectCommand(args: seq<string>, commandFlag: string, lookPath: string -> Option<string>)
    : (r: Result<Selection, SelectError>)
    ensures r.Err? <==> (|args| == 0 && commandFlag == "") || (|args| > 1 && lookPath(args[0]).None?)
    ensures r == Err(Usage) <==> |args| == 0 && commandFlag == ""
    ensures r.Ok? && |args| == 1 ==> r.value.cmd == args[0]
    ensures r.Ok? && |args| > 1 ==> r.value.cmd == Join(args[1..], " ") && r.value.binaryPath == lookPath(args[0])
    ensures r.Ok? && |args| == 0 ==> r.value.cmd == commandFlag
    ensures r.Ok? && |args| <= 1 ==> r.value.binaryPath == InferBinary(r.value.cmd, lookPath)
  {
    if |args| == 1 then
      Ok(Selection(args[0], InferBinary(args[0], lookPath)))
    else if |args| > 1 then
      match lookPath(args[0])
      case None => Err(BinaryNotFound(args[0]))
      case Some(path) => Ok(Selection(Join(args[1..], " "), Some(path)))
    else if commandFlag != "" then
      Ok(Selection(commandFlag, InferBinary(commandFlag, lookPath)))
    else
      Err(Usage)
  }

  /** With two or more positional words, the command is the words after the
      first: the looked-up binary is not part of what runs. */
  lemma SelectDropsFirstWord(args: seq<string>, commandFlag: string, lookPath: string -> Option<string>)
    requires |args| > 1 && lookPath(args[0]).Some?
    requires forall i :: 0 <= i < |args| ==> IsField(args[i])
    ensures SelectCommand(args, commandFlag, lookPath).Ok?
    ensures Fields(SelectCommand(args, commandFlag, lookPath).value.cmd) == args[1..]
  {
    FieldsJoin(args[1..]);
  }

  // ---------------------------------------------------------------------
  // Binaries of a compound command (cli/main.go:241-266).

  const AndOp: string := "&&"

  /** The binary one `&&` segment names: the lookup of the first field of the
      trimmed segment; empty segments are skipped. */
  function SegmentBinary(segment: string, lookPath: string -> Option<string>): Option<string> {
    var cmd := TrimSpace(segment);
    if cmd == "" then None else InferBinary(cmd, lookPath)
  }

  function SegmentBinaries(segments: seq<string>, lookPath: string -> Option<string>): (r: seq<Option<string>>)
    ensures |r| == |segments|
    ensures forall i :: 0 <= i < |segments| ==> r[i] == SegmentBinary(segments[i], lookPath)
  {
    seq(|segments|, i requires 0 <= i < |segments| => SegmentBinary(segments[i], lookPath))
  }

  /** `binariesToCopy`: filled only for a compound command, one resolved
      binary per segment at most, each recorded once, in first-seen order. */
  function BinariesToCopy(cmdToRun: string, lookPath: string -> Option<string>): seq<string> {
    if Contains(cmdToRun, AndOp) then Distinct(SegmentBinaries(Split(cmdToRun, AndOp), lookPath)) else []
  }

  /** The collection of cli/main.go:242-266. */
  method CollectBinaries(cmdToRun: string, lookPath: string -> Option<string>) returns (binaries: seq<string>)
    ensures binaries == BinariesToCopy(cmdToRun, lookPath)
  {
    binaries := [];
    if Contains(cmdToRun, AndOp) {
      var commands := Split(cmdToRun, AndOp);
      binaries := SegmentsBinaries(commands, lookPath);
    }
  }

  /** No binary is collected without `&&`; with it, a path is collected
      exactly when some segment's first field resolves to it, and only once. */
  lemma BinariesToCopyFacts(cmdToRun: string, lookPath: string -> Option<string>)
    ensures var binaries := BinariesToCopy(cmdToRun, lookPath);
      && (!Contains(cmdToRun, AndOp) ==> binaries == [])
      && NoDup(binaries)
      && (forall b :: b in binaries <==>
            Contains(cmdToRun, AndOp) && Some(b) in SegmentBinaries(Split(cmdToRun, AndOp), lookPath))
  {
    if Contains(cmdToRun, AndOp) {
      DistinctNoDup(SegmentBinaries(Split(cmdToRun, AndOp), lookPath));
      DistinctMembers(SegmentBinaries(Split(cmdToRun, AndOp), lookPath));
    }
  }

  /** The loop of cli/main.go:244-265 over the segments of the command. */
  method SegmentsBinaries(commands: seq<string>, lookPath: string -> Option<string>) returns (binaries: seq<string>)
    ensures binaries == Distinct(SegmentBinaries(commands, lookPath))
  {
    ghost var cands := SegmentBinaries(commands, lookPath);
    binaries := [];
    for i := 0 to |commands|
      invariant binaries == Distinct(cands[..i])
    {
      var cmd := TrimSpace(commands[i]);
      if cmd == "" {
        assert cands[i] == None;
        DistinctSnoc(cands, i);
        continue;
      }
      var cmdParts := Fields(cmd);
      if |cmdParts| > 0 {
        var binCmd := cmdParts[0];
        var inferred := lookPath(binCmd);
        assert cands[i] == inferred;
        DistinctSnoc(cands, i);
        if inferred.Some? {
          if !SliceContains(binaries, inferred.value) {
            binaries := binaries + [inferred.value];
          }
        }
      } else {
        assert cands[i] == None;
        DistinctSnoc(cands, i);
      }
    }
    assert cands[..|commands|] == cands;
  }

  // ---------------------------------------------------------------------
  // Files named by the command (cli/main.go:268-290).

  const Quotes: set<char> := {'\'', '"'}

  /** The absolute path recorded for field `i`: not the first field, not a
      flag before or after quote trimming, and naming an existing file. */
  function FileCandidate(i: nat, part: string, m: Machine): Option<string> {
    if HasPrefix(part, "-") || i == 0 then None
    else
      var p := Trim(part, Quotes);
      if !HasPrefix(p, "-") && m.fileExists(p) then m.abs(p) else None
  }

  /** A later argument without quotes at its ends and not starting with `-`
      is detected exactly when it names an existing file, as its absolute path. */
  lemma UnquotedCandidate(i: nat, w: string, m: Machine)
    requires i >= 1
    requires |w| > 0 && w[0] !in Quotes && w[|w| - 1] !in Quotes && w[0] != '-'
    ensures FileCandidate(i, w, m) == if m.fileExists(w) then m.abs(w) else None
  {
    assert !HasPrefix(w, "-") by { assert w[..1] != "-"; }
    assert Trim(w, Quotes) == w by {
      TrimSetWrapped([], w, [], Quotes);
      assert [] + w + [] == w;
    }
  }

  /** Quoting an argument does not change what is detected: `'f'`, `"f"`
      and `f` all name the file `f`. */
  lemma QuotedArgumentDetected(i: nat, w: string, q: char, m: Machine)
    requires i >= 1 && q in Quotes
    requires |w| > 0 && w[0] !in Quotes && w[|w| - 1] !in Quotes && w[0] != '-'
    ensures FileCandidate(i, [q] + w + [q], m) == FileCandidate(i, w, m)
    ensures FileCandidate(i, w, m) == if m.fileExists(w) then m.abs(w) else None
  {
    var p := [q] + w + [q];
    assert !HasPrefix(p, "-") by { assert p[0] == q; }
    assert Trim(p, Quotes) == w by {
      TrimSetWrapped([q], w, [q], Quotes);
    }
    assert !HasPrefix(w, "-") by { assert w[..1] != "-"; }
    UnquotedCandidate(i, w, m);
  }

  function FileCandidates(parts: seq<string>, m: Machine): (r: seq<Option<string>>)
    ensures |r| == |parts|
    ensures forall i :: 0 <= i < |parts| ==> r[i] == FileCandidate(i, parts[i], m)
  {
    seq(|parts|, i requires 0 <= i < |parts| => FileCandidate(i, parts[i], m))
  }

  /** `filesToCopy`: the absolute paths of the existing files the fields of
      the whole command name, each once, in first-seen order. */
  function FilesToCopy(cmdToRun: string, m: Machine): seq<string> {
    Distinct(FileCandidates(Fields(cmdToRun), m))
  }

  /** The detection loop of cli/main.go:269-290. */
  method DetectFiles(cmdToRun: string, m: Machine) returns (files: seq<string>)
    ensures files == FilesToCopy(cmdToRun, m)
  {
    files := [];
    var cmdParts := Fields(cmdToRun);
    ghost var cands := FileCandidates(cmdParts, m);
    for i := 0 to |cmdParts|
      invariant files == Distinct(cands[..i])
    {
      DistinctSnoc(cands, i);
      var part := cmdParts[i];
      if HasPrefix(part, "-") || i == 0 {
        continue;
      }
      part := Trim(part, Quotes);
      if (!HasPrefix(part, "-") && m.fileExists(part)) || (Contains(part, ".") && !HasPrefix(part, "-") && m.fileExists(part)) {
        var absPath := m.abs(part);
        if absPath.Some? {
          if !SliceContains(files, absPath.value) {
            files := files + [absPath.value];
          }
        }
      }
    }
    assert cands[..|cmdParts|] == cands;
  }

  /** A path is detected exactly when some field yields it as a candidate,
      and only once. */
  lemma FilesToCopyFacts(cmdToRun: string, m: Machine)
    ensures NoDup(FilesToCopy(cmdToRun, m))
    ensures forall f :: f in FilesToCopy(cmdToRun, m) <==> Some(f) in FileCandidates(Fields(cmdToRun), m)
  {
    DistinctNoDup(FileCandidates(Fields(cmdToRun), m));
    DistinctMembers(FileCandidates(Fields(cmdToRun), m));
  }
}
