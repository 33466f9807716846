/** Staging the command's dependencies in the temporary folder and rewriting
    the command so that it names the staged copies (cli/main.go:303-429). */
module Staging {
  import opened Wrappers
  import opened GoStrings
  import opened Machine
  import opened Discovery

  /** Copying `p` to `<tmpFolder>/<base name of p>` succeeds. */
  predicate Copied(m: Machine, tmpFolder: string, p: string) {
    m.copyFile(p, m.join(tmpFolder, m.base(p)))
  }

  /** `remappedPaths` (cli/main.go:303-350): binaries first, skipping those
      that are also detected files, then the files, skipping those already
      staged. A path is staged exactly when it is a dependency and its copy
      succeeds, and it is staged under its base name. */
  method StageDependencies(binaries: seq<string>, files: seq<string>, tmpFolder: string, m: Machine)
    returns (remapped: map<string, string>)
    ensures remapped == StagedPaths(binaries, files, tmpFolder, m)
    ensures forall p :: p in remapped <==> (p in binaries || p in files) && Copied(m, tmpFolder, p)
    ensures forall p :: p in remapped ==> remapped[p] == m.base(p)
  {
    remapped := map[];
    for i := 0 to |binaries|
      invariant forall p :: p in remapped <==> p in binaries[..i] && p !in files && Copied(m, tmpFolder, p)
      invariant forall p :: p in remapped ==> remapped[p] == m.base(p)
    {
      assert binaries[..i + 1] == binaries[..i] + [binaries[i]];
      var binary := binaries[i];
      if SliceContains(files, binary) {
        continue;
      }
      var binaryName := m.base(binary);
      var destPath := m.join(tmpFolder, binaryName);
      var ok := m.copyFile(binary, destPath);
      if ok {
        remapped := remapped[binary := binaryName];
      }
    }
    assert binaries[..|binaries|] == binaries;
    for j := 0 to |files|
      invariant forall p :: p in remapped <==>
        ((p in binaries && p !in files) || p in files[..j]) && Copied(m, tmpFolder, p)
      invariant forall p :: p in remapped ==> remapped[p] == m.base(p)
    {
      assert files[..j + 1] == files[..j] + [files[j]];
      var file := files[j];
      var fileName := m.base(file);
      var destPath := m.join(tmpFolder, fileName);
      if file in remapped {
        continue;
      }
      var ok := m.copyFile(file, destPath);
      if ok {
        remapped := remapped[file := fileName];
      }
    }
    assert files[..|files|] == files;
  }

  /** The map `StageDependencies` builds, as a set of pairs. */
  function StagedPaths(binaries: seq<string>, files: seq<string>, tmpFolder: string, m: Machine): map<string, string> {
    map p | p in binaries + files && Copied(m, tmpFolder, p) :: m.base(p)
  }

  // ---------------------------------------------------------------------
  // Rewriting the command (cli/main.go:393-429).

  /** What a later token of the command becomes: its quotes are trimmed; a
      path under the `--folder` argument becomes the same path under the
      folder's base name; a path whose absolute form was staged becomes the
      staged name; anything else stays as trimmed. */
  function RewriteArg(token: string, folderPath: string, folderName: string,
                      remapped: map<string, string>, m: Machine): string
  {
    var part := Trim(token, Quotes);
    if HasPrefix(part, folderPath) && m.rel(folderPath, part).Some? then
      m.join(folderName, m.rel(folderPath, part).value)
    else if m.abs(part).Some? && MapGet(remapped, m.abs(part).value) != "" then
      MapGet(remapped, m.abs(part).value)
    else
      part
  }

  /** The tokens of the rewritten command: the first verbatim, the rest
      through `RewriteArg`. */
  function Rewritten(parts: seq<string>, folderPath: string, folderName: string,
                     remapped: map<string, string>, m: Machine): (r: seq<string>)
    requires |parts| > 0
    ensures |r| == |parts| && r[0] == parts[0]
    ensures forall k :: 1 <= k < |parts| ==> r[k] == RewriteArg(parts[k], folderPath, folderName, remapped, m)
  {
    [parts[0]] + seq(|parts| - 1, k requires 0 <= k < |parts| - 1 =>
      RewriteArg(parts[k + 1], folderPath, folderName, remapped, m))
  }

  /** The adjusted `cmdToRun`: unchanged when it has no fields, otherwise
      the rewritten tokens joined by single spaces. */
  function RewrittenCommand(cmdToRun: string, folderPath: string, folderName: string,
                            remapped: map<string, string>, m: Machine): string
  {
    if Fields(cmdToRun) == [] then cmdToRun
    else Join(Rewritten(Fields(cmdToRun), folderPath, folderName, remapped, m), " ")
  }

  method RewriteCommand(cmdToRun: string, folderPath: string, folderName: string,
                        remapped: map<string, string>, m: Machine) returns (newCmdText: string)
    ensures newCmdText == RewrittenCommand(cmdToRun, folderPath, folderName, remapped, m)
  {
    newCmdText := cmdToRun;
    var cmdParts := Fields(cmdToRun);
    if |cmdParts| > 0 {
      var newCmd := RewriteTokens(cmdParts, folderPath, folderName, remapped, m);
      newCmdText := Join(newCmd, " ");
    }
  }

  /** The loop of cli/main.go:398-425 over the tokens after the first. */
  method RewriteTokens(cmdParts: seq<string>, folderPath: string, folderName: string,
                       remapped: map<string, string>, m: Machine) returns (newCmd: seq<string>)
    requires |cmdParts| > 0
    ensures newCmd == Rewritten(cmdParts, folderPath, folderName, remapped, m)
  {
    newCmd := [cmdParts[0]];
    for i := 1 to |cmdParts|
      invariant |newCmd| == i && newCmd[0] == cmdParts[0]
      invariant forall k :: 1 <= k < i ==> newCmd[k] == RewriteArg(cmdParts[k], folderPath, folderName, remapped, m)
    {
      var part := cmdParts[i];
      part := Trim(part, Quotes);
      if HasPrefix(part, folderPath) {
        var relPath := m.rel(folderPath, part);
        if relPath.Some? {
          var newPath := m.join(folderName, relPath.value);
          newCmd := newCmd + [newPath];
          continue;
        }
      }
      var absFilePath := m.abs(part);
      if absFilePath.Some? && MapGet(remapped, absFilePath.value) != "" {
        newCmd := newCmd + [MapGet(remapped, absFilePath.value)];
      } else {
        newCmd := newCmd + [part];
      }
    }
  }

  /** A token that needs no rewriting: no quote at either end, not under the
      folder (or not relative to it), and not a staged path. */
  predicate Inert(token: string, folderPath: string, remapped: map<string, string>, m: Machine) {
    |token| > 0 && token[0] !in Quotes && token[|token| - 1] !in Quotes
    && !(HasPrefix(token, folderPath) && m.rel(folderPath, token).Some?)
    && (m.abs(token).None? || MapGet(remapped, m.abs(token).value) == "")
  }

  lemma TrimUnquoted(token: string)
    requires |token| > 0 && token[0] !in Quotes && token[|token| - 1] !in Quotes
    ensures Trim(token, Quotes) == token
  {
    TrimFuncWrapped([], token, [], c => c in Quotes);
    assert [] + token + [] == token;
  }

  /** An inert token is rewritten to itself. */
  lemma InertArgKept(token: string, folderPath: string, folderName: string,
                     remapped: map<string, string>, m: Machine)
    requires Inert(token, folderPath, remapped, m)
    ensures RewriteArg(token, folderPath, folderName, remapped, m) == token
  {
    TrimUnquoted(token);
  }

  /** Inert later tokens are kept as they are. */
  lemma InertTokensKept(parts: seq<string>, folderPath: string, folderName: string,
                        remapped: map<string, string>, m: Machine)
    requires |parts| > 0
    requires forall k :: 1 <= k < |parts| ==> Inert(parts[k], folderPath, remapped, m)
    ensures Rewritten(parts, folderPath, folderName, remapped, m) == parts
  {
    var r := Rewritten(parts, folderPath, folderName, remapped, m);
    forall k | 1 <= k < |parts| ensures r[k] == parts[k] {
      InertArgKept(parts[k], folderPath, folderName, remapped, m);
    }
    assert |r| == |parts| && r[0] == parts[0];
  }

  /** A command whose later tokens are all inert keeps its words: the
      rewritten text differs at most in the spaces between them. */
  lemma RewriteKeepsInertCommand(cmdToRun: string, folderPath: string, folderName: string,
                                 remapped: map<string, string>, m: Machine)
    requires Fields(cmdToRun) != []
    requires forall k :: 1 <= k < |Fields(cmdToRun)| ==> Inert(Fields(cmdToRun)[k], folderPath, remapped, m)
    ensures Rewritten(Fields(cmdToRun), folderPath, folderName, remapped, m) == Fields(cmdToRun)
    ensures Fields(Join(Rewritten(Fields(cmdToRun), folderPath, folderName, remapped, m), " ")) == Fields(cmdToRun)
  {
    var parts := Fields(cmdToRun);
    InertTokensKept(parts, folderPath, folderName, remapped, m);
    assert Fields(Join(parts, " ")) == parts by {
      FieldsJoin(parts);
    }
  }

  /** A later token naming a staged dependency (and not under the folder)
      becomes that dependency's base name: the remote command names the copy
      in the temporary folder's root. */
  lemma RewriteStagedArgument(token: string, folderPath: string, folderName: string,
                              remapped: map<string, string>, m: Machine, a: string)
    requires |token| > 0 && token[0] !in Quotes && token[|token| - 1] !in Quotes
    requires !(HasPrefix(token, folderPath) && m.rel(folderPath, token).Some?)
    requires m.abs(token) == Some(a)
    requires a in remapped && remapped[a] == m.base(a) && m.base(a) != ""
    ensures RewriteArg(token, folderPath, folderName, remapped, m) == m.base(a)
  {
    TrimUnquoted(token);
  }

  /** A later token under the `--folder` argument is re-rooted at the
      folder's base name, whether or not it is quoted. */
  lemma RewriteFolderArgument(token: string, q: char, folderPath: string, folderName: string,
                              remapped: map<string, string>, m: Machine, relPath: string)
    requires q in Quotes
    requires |token| > 0 && token[0] !in Quotes && token[|token| - 1] !in Quotes
    requires HasPrefix(token, folderPath) && m.rel(folderPath, token) == Some(relPath)
    ensures RewriteArg(token, folderPath, folderName, remapped, m) == m.join(folderName, relPath)
    ensures RewriteArg([q] + token + [q], folderPath, folderName, remapped, m) == m.join(folderName, relPath)
  {
    TrimUnquoted(token);
    TrimFuncWrapped([q], token, [q], c => c in Quotes);
  }

  /** When every rewritten token is itself a field, splitting the new command
      gives back exactly the rewritten tokens: no argument is merged or lost. */
  lemma RewriteResplits(parts: seq<string>, folderPath: string, folderName: string,
                        remapped: map<string, string>, m: Machine)
    requires |parts| > 0
    requires forall k :: 0 <= k < |parts| ==> IsField(Rewritten(parts, folderPath, folderName, remapped, m)[k])
    ensures Fields(Join(Rewritten(parts, folderPath, folderName, remapped, m), " ")) ==
      Rewritten(parts, folderPath, folderName, remapped, m)
  {
    FieldsJoin(Rewritten(parts, folderPath, folderName, remapped, m));
  }

  /** A quote-only argument such as `''` is trimmed to nothing and vanishes
      from the rewritten command. */
  lemma RewriteDropsEmptyQuotes(w: string, q: char, folderPath: string, folderName: string,
                                remapped: map<string, string>, m: Machine)
    requires IsField(w) && q in Quotes && folderPath != ""
    requires m.abs("").None? || MapGet(remapped, m.abs("").value) == ""
    ensures RewriteArg([q, q], folderPath, folderName, remapped, m) == ""
    ensures Fields(Join(Rewritten([w, [q, q]], folderPath, folderName, remapped, m), " ")) == [w]
  {
    TrimFuncWrapped([q, q], [], [], c => c in Quotes);
    assert [q, q] + [] + [] == [q, q];
    var r := Rewritten([w, [q, q]], folderPath, folderName, remapped, m);
    assert r == [w, ""];
    assert Join(r, " ") == w + " ";
    FieldsLeadingWord(w, " ");
    assert Fields(" ") == [] by { FieldsEmpty(" "); }
  }
}
