/** The run of the CLI after flag parsing (cli/main.go:188-642): selecting the
    command, discovering and staging its dependencies, optionally copying the
    `--folder` tree and rewriting the command, then running it either on an
    existing host over ssh or on a machine provisioned with Terraform, and
    cleaning up. Each external step is a blocking call whose success is given
    by `Outcomes`; what the run does is the sequence of `Action`s it attempts
    and the exit status. */
module Orchestrator {
  import opened Wrappers
  import opened GoStrings
  import opened Machine
  import opened OutputFilter
  import opened Discovery
  import opened Staging
  import opened Remote

  /** The command-line flags (cli/main.go:178-184); `--debug` only affects logging. */
  datatype Flags = Flags(
    host: string,          // --host
    sshKey: string,        // --ssh-key
    sshUser: string,       // --ssh-user (default "ubuntu")
    folder: string,        // --folder
    command: string,       // --command
    instanceType: string   // --instance-type (default "t2.micro")
  )

  datatype DestroyOutcome = Destroyed | DeadlineExceeded | DestroyFailed

  /** How each external step turns out. Every step runs at most once per
      run, so one value per step suffices. */
  datatype Outcomes = Outcomes(
    makeTemp: Option<string>,     // os.MkdirTemp(".", ".ib-"): the folder created
    cwd: Option<string>,          // os.Getwd()
    statDir: string -> Option<bool>, // os.Stat(path): error, or whether it is a directory
    mkdirAll: bool,               // os.MkdirAll of the folder's copy
    copyDir: bool,                // copyDir of the folder
    sshKeyMissing: bool,          // os.Stat(--ssh-key) reports that it does not exist
    remoteMkdir: bool,            // ssh ... mkdir -p
    remoteCopy: bool,             // scp -r
    writeScript: bool,            // os.WriteFile(run_benchmark.sh)
    runScript: Option<string>,    // ssh ... bash run_benchmark.sh: its combined output
    install: bool,                // installing Terraform 1.7.5
    newTerraform: bool,           // tfexec.NewTerraform
    init: bool,                   // Init with Upgrade and ForceCopy
    initReduced: bool,            // Init with Upgrade only
    apply: Option<string>,        // terraform apply: what it wrote to the buffer
    destroy: DestroyOutcome,      // terraform destroy under its 3-minute deadline
    removeTemp: bool              // os.RemoveAll of the temporary folder
  )

  /** User-facing warnings whose presence matters to the outcome. */
  datatype Warning =
    | InitByHand          // "To fix this manually, try running: ... terraform init -upgrade"
    | ApplyLeftResources  // apply failed: "resources might have been created! Ensure to run ... destroy"
    | DestroyTimedOut     // destroy exceeded its deadline: "Manually destroy with ..."
    | DestroyErrored      // destroy failed: "Ensure to run ... terraform destroy"

  datatype Action =
    | CreateTemp
    | CopyFolder(src: string, dst: string)
    | RemoteMkdir
    | RemoteCopy
    | WriteScript(content: string)
    | RunScript
    | Print(text: string)
    | InstallTerraform
    | NewTerraform
    | Init(reduced: bool)
    | Apply(vars: seq<string>)
    | Destroy(vars: seq<string>)
    | Warn(warning: Warning)
    | RemoveTemp(path: string)

  /** Where each action comes in the program text: every run attempts its
      actions in this order. */
  function Rank(a: Action): nat {
    match a
    case CreateTemp => 0
    case CopyFolder(_, _) => 1
    case RemoteMkdir => 2
    case RemoteCopy => 3
    case WriteScript(_) => 4
    case RunScript => 5
    case InstallTerraform => 6
    case NewTerraform => 7
    case Init(reduced) => if reduced then 9 else 8
    case Warn(w) =>
      (match w
       case InitByHand => 10
       case ApplyLeftResources => 12
       case DestroyTimedOut => 15
       case DestroyErrored => 16)
    case Apply(_) => 11
    case Print(_) => 13
    case Destroy(_) => 14
    case RemoveTemp(_) => 17
  }

  /** The actions are attempted in program order (so none twice). */
  predicate Ordered(trace: seq<Action>) {
    forall i, j :: 0 <= i < j < |trace| ==> Rank(trace[i]) < Rank(trace[j])
  }

  predicate Removes(trace: seq<Action>) {
    exists i :: 0 <= i < |trace| && trace[i].RemoveTemp?
  }

  predicate Destroys(trace: seq<Action>) {
    exists i :: 0 <= i < |trace| && trace[i].Destroy?
  }

  predicate Applies(trace: seq<Action>) {
    exists i :: 0 <= i < |trace| && trace[i].Apply?
  }

  predicate CopiesFolder(trace: seq<Action>) {
    exists i :: 0 <= i < |trace| && trace[i].CopyFolder?
  }

  /** `a` is attempted, and later `b`. */
  predicate Before(trace: seq<Action>, a: Action, b: Action) {
    exists i, j :: 0 <= i < j < |trace| && trace[i] == a && trace[j] == b
  }

  /** Program order attempts no action twice. */
  lemma OrderedNoDup(trace: seq<Action>)
    requires Ordered(trace)
    ensures NoDup(trace)
  {
  }

  /** Program order attempts at most one action of each rank. */
  lemma OrderedUnique(trace: seq<Action>, a: Action, b: Action)
    requires Ordered(trace) && a in trace && b in trace && Rank(a) == Rank(b)
    ensures a == b
  {
    var i :| 0 <= i < |trace| && trace[i] == a;
    var j :| 0 <= j < |trace| && trace[j] == b;
  }

  /** Every action of `trace` ranks from `lo` to `hi`. */
  predicate Within(trace: seq<Action>, lo: nat, hi: nat) {
    forall i :: 0 <= i < |trace| ==> lo <= Rank(trace[i]) <= hi
  }

  /** Two stages in program order, the second ranked after the first, are
      in program order together. */
  lemma Sequenced(a: seq<Action>, b: seq<Action>, lo: nat, k: nat, hi: nat)
    requires lo <= k <= hi && Ordered(a) && Within(a, lo, k) && Ordered(b) && Within(b, k + 1, hi)
    ensures Ordered(a + b) && Within(a + b, lo, hi)
  {
    var t := a + b;
    forall i | 0 <= i < |t| ensures lo <= Rank(t[i]) <= hi {
      if i < |a| {
        assert t[i] == a[i];
      } else {
        assert t[i] == b[i - |a|];
      }
    }
    forall i, j | 0 <= i < j < |t| ensures Rank(t[i]) < Rank(t[j]) {
      if j < |a| {
        assert t[i] == a[i] && t[j] == a[j];
      } else if i < |a| {
        assert t[i] == a[i] && t[j] == b[j - |a|];
      } else {
        assert t[i] == b[i - |a|] && t[j] == b[j - |a|];
      }
    }
  }

  /** An action kind is attempted by two stages together exactly when one of
      them attempts it. */
  lemma KindsConcat(a: seq<Action>, b: seq<Action>)
    ensures Removes(a + b) <==> Removes(a) || Removes(b)
    ensures Destroys(a + b) <==> Destroys(a) || Destroys(b)
    ensures Applies(a + b) <==> Applies(a) || Applies(b)
    ensures CopiesFolder(a + b) <==> CopiesFolder(a) || CopiesFolder(b)
  {
    var t := a + b;
    assert forall i :: 0 <= i < |a| ==> t[i] == a[i];
    assert forall i :: 0 <= i < |b| ==> t[|a| + i] == b[i];
    assert forall i :: |a| <= i < |t| ==> t[i] == b[i - |a|];
  }

  /** The local staging (ranks 0 and 1) neither removes, applies nor
      destroys; the remote stages (ranks 2 and over) copy no folder. */
  lemma WithinKinds(t: seq<Action>)
    ensures Within(t, 0, 1) ==> !Removes(t) && !Applies(t) && !Destroys(t)
    ensures Within(t, 2, 17) ==> !CopiesFolder(t)
  {
  }

  /** Program order puts an earlier-ranked action first. */
  lemma OrderedBefore(trace: seq<Action>, a: Action, b: Action)
    requires Ordered(trace) && a in trace && b in trace && Rank(a) < Rank(b)
    ensures Before(trace, a, b)
  {
    var i :| 0 <= i < |trace| && trace[i] == a;
    var j :| 0 <= j < |trace| && trace[j] == b;
  }

  /** What a run, or one stage of it, ends with: the exit status and the
      actions attempted, in order. */
  datatype Outcome = Outcome(exit: int, trace: seq<Action>)

  // ---------------------------------------------------------------------
  /** The first `n` actions of an ordered trace are ordered, rank within the
      same bounds and attempt nothing the whole does not. */
  lemma PrefixKeeps(t: seq<Action>, n: nat, lo: nat, hi: nat)
    requires n <= |t| && Ordered(t) && Within(t, lo, hi)
    ensures Ordered(t[..n]) && Within(t[..n], lo, hi)
    ensures forall a :: a in t[..n] ==> a in t
    ensures (Applies(t[..n]) ==> Applies(t)) && (Destroys(t[..n]) ==> Destroys(t))
  {
    assert forall i :: 0 <= i < n ==> t[..n][i] == t[i];
  }

  // ---------------------------------------------------------------------
  // On an existing host (cli/main.go:433-511).

  /** What is printed of a stage's output: the filtered text, nothing when
      the stage produced none. */
  function Shown(output: Option<string>): string {
    match output
    case Some(out) => Filter(out)
    case None => ""
  }

  /** Every step of the host stage, in program order, given the script it
      writes and the text it prints. */
  function HostSteps(script: string, shown: string, tmpFolder: string): seq<Action> {
    [RemoteMkdir, RemoteCopy, WriteScript(script), RunScript, Print(shown), RemoveTemp(tmpFolder)]
  }

  /** How many host steps are attempted: a failing step is the last one, and
      a missing ssh key stops the stage before the first. */
  function HostReached(sshKey: string, o: Outcomes): nat {
    if sshKey != "" && o.sshKeyMissing then 0
    else if !o.remoteMkdir then 1
    else if !o.remoteCopy then 2
    else if !o.writeScript then 3
    else if o.runScript.None? then 4
    else 6
  }

  /** The host stage: its steps up to the first that fails, status 1 when one
      fails; a failed removal is only logged, so status 0 otherwise. */
  function HostRun(sshKey: string, script: string, shown: string, tmpFolder: string, o: Outcomes): Outcome {
    var n := HostReached(sshKey, o);
    Outcome(if n == 6 then 0 else 1, HostSteps(script, shown, tmpFolder)[..n])
  }

  method RunOnHost(sshKey: string, sshUser: string, cmdToRun: string, tmpFolder: string, o: Outcomes)
    returns (exit: int, trace: seq<Action>)
    ensures Outcome(exit, trace) == HostRun(sshKey, WrapperScript(sshUser, cmdToRun), Shown(o.runScript), tmpFolder, o)
  {
    ghost var steps := HostSteps(WrapperScript(sshUser, cmdToRun), Shown(o.runScript), tmpFolder);
    trace := [];
    if sshKey != "" && o.sshKeyMissing {
      return 1, trace;
    }
    trace := trace + [RemoteMkdir];
    if !o.remoteMkdir {
      assert trace == steps[..1];
      return 1, trace;
    }
    trace := trace + [RemoteCopy];
    if !o.remoteCopy {
      assert trace == steps[..2];
      return 1, trace;
    }
    var scriptContent := WrapperScript(sshUser, cmdToRun);
    trace := trace + [WriteScript(scriptContent)];
    if !o.writeScript {
      assert trace == steps[..3];
      return 1, trace;
    }
    trace := trace + [RunScript];
    if o.runScript.None? {
      assert trace == steps[..4];
      return 1, trace;
    }
    var filtered := FilterOutput(o.runScript.value);
    trace := trace + [Print(filtered)];
    trace := trace + [RemoveTemp(tmpFolder)];
    // A failed removal is only logged.
    assert trace == steps[..6];
    return 0, trace;
  }

  /** A missing ssh key is fatal before anything runs; a failing remote step
      exits 1 and leaves the temporary folder behind; once the script has run,
      its filtered output is printed, removal is attempted and the status is 0
      whether or not removal succeeds. */
  lemma HostOutcome(sshKey: string, script: string, shown: string, tmpFolder: string, o: Outcomes)
    ensures var r := HostRun(sshKey, script, shown, tmpFolder, o);
      && (r.exit == 0 || r.exit == 1)
      && (sshKey != "" && o.sshKeyMissing ==> r.exit == 1 && r.trace == [])
      && (r.exit == 0 <==> !(sshKey != "" && o.sshKeyMissing) && o.remoteMkdir && o.remoteCopy
                           && o.writeScript && o.runScript.Some?)
      && (Removes(r.trace) <==> r.exit == 0)
      && (r.exit == 0 ==> Before(r.trace, Print(shown), RemoveTemp(tmpFolder)))
  {
    var r := HostRun(sshKey, script, shown, tmpFolder, o);
    if r.exit == 0 {
      assert r.trace[5].RemoveTemp? && r.trace[4] == Print(shown);
    }
  }

  /** The host stage attempts its actions in program order, writes exactly
      the given script, and does nothing of the Terraform stage or of the
      local staging. */
  lemma HostActions(sshKey: string, script: string, shown: string, tmpFolder: string, o: Outcomes)
    ensures var t := HostRun(sshKey, script, shown, tmpFolder, o).trace;
      && Ordered(t) && Within(t, 2, 17)
      && (forall c :: WriteScript(c) in t ==> c == script)
      && !Applies(t) && !Destroys(t)
  {
    var steps := HostSteps(script, shown, tmpFolder);
    assert Ordered(steps) && Within(steps, 2, 17);
    assert !Applies(steps) && !Destroys(steps);
    PrefixKeeps(steps, HostReached(sshKey, o), 2, 17);
  }

  // ---------------------------------------------------------------------
  // On a machine provisioned with Terraform (cli/main.go:513-642).

  function ApplyVars(fullTempFolder: string, instanceType: string, cmdToRun: string): seq<string> {
    ["benchmark_folder=" + fullTempFolder, "instance_type=" + instanceType,
     "custom_command=" + CustomCommand(cmdToRun)]
  }

  function DestroyVars(fullTempFolder: string, instanceType: string): seq<string> {
    ["benchmark_folder=" + fullTempFolder, "instance_type=" + instanceType]
  }

  /** The full Init, then the reduced one only if the full one failed. */
  function InitActions(o: Outcomes): seq<Action> {
    if o.init then [Init(false)] else [Init(false), Init(true)]
  }

  /** What is reported about a failed destroy. */
  function DestroyReport(d: DestroyOutcome): seq<Action> {
    match d
    case Destroyed => []
    case DeadlineExceeded => [Warn(DestroyTimedOut)]
    case DestroyFailed => [Warn(DestroyErrored)]
  }

  /** The Terraform stage, given the variables it applies and destroys with
      and the text it prints. */
  function TerraformRun(applyVars: seq<string>, shown: string, destroyVars: seq<string>,
                        fullTempFolder: string, o: Outcomes): Outcome
  {
    if !o.install then Outcome(1, [InstallTerraform])
    else if !o.newTerraform then Outcome(1, [InstallTerraform, NewTerraform])
    else
      var ready := [InstallTerraform, NewTerraform] + InitActions(o);
      if !o.init && !o.initReduced then Outcome(1, ready + [Warn(InitByHand)])
      else if o.apply.None? then Outcome(1, ready + [Apply(applyVars), Warn(ApplyLeftResources)])
      else
        Outcome(if o.removeTemp then 0 else 1,
          Completed(ready, applyVars, shown, destroyVars, o.destroy, fullTempFolder))
  }

  /** The trace of a Terraform stage whose apply succeeded: the output is
      printed, destroy runs, its failure is reported, and removal follows. */
  function Completed(ready: seq<Action>, applyVars: seq<string>, shown: string, destroyVars: seq<string>,
                     d: DestroyOutcome, fullTempFolder: string): seq<Action>
  {
    ready + [Apply(applyVars), Print(shown), Destroy(destroyVars)] + DestroyReport(d) + [RemoveTemp(fullTempFolder)]
  }

  lemma CompletedOrdered(ready: seq<Action>, applyVars: seq<string>, shown: string, destroyVars: seq<string>,
                         d: DestroyOutcome, fullTempFolder: string)
    requires Ordered(ready) && Within(ready, 6, 9)
    ensures var t := Completed(ready, applyVars, shown, destroyVars, d, fullTempFolder);
      Ordered(t) && Within(t, 6, 17)
  {
    var applied := ready + [Apply(applyVars), Print(shown), Destroy(destroyVars)];
    Sequenced(ready, [Apply(applyVars), Print(shown), Destroy(destroyVars)], 6, 9, 14);
    var reported := applied + DestroyReport(d);
    assert Ordered(DestroyReport(d)) && Within(DestroyReport(d), 15, 16);
    Sequenced(applied, DestroyReport(d), 6, 14, 16);
    Sequenced(reported, [RemoveTemp(fullTempFolder)], 6, 16, 17);
  }

  lemma CompletedCleanup(ready: seq<Action>, applyVars: seq<string>, shown: string, destroyVars: seq<string>,
                         d: DestroyOutcome, fullTempFolder: string)
    requires Ordered(ready) && Within(ready, 6, 9)
    ensures var t := Completed(ready, applyVars, shown, destroyVars, d, fullTempFolder);
      && Applies(t) && Destroys(t) && Removes(t)
      && Before(t, Print(shown), Destroy(destroyVars))
      && Before(t, Destroy(destroyVars), RemoveTemp(fullTempFolder))
  {
    var t := Completed(ready, applyVars, shown, destroyVars, d, fullTempFolder);
    var k := |ready|;
    assert t[k].Apply? && t[k + 1] == Print(shown) && t[k + 2] == Destroy(destroyVars);
    assert t[|t| - 1] == RemoveTemp(fullTempFolder);
    CompletedOrdered(ready, applyVars, shown, destroyVars, d, fullTempFolder);
    OrderedBefore(t, Print(shown), Destroy(destroyVars));
    OrderedBefore(t, Destroy(destroyVars), RemoveTemp(fullTempFolder));
  }

  /** A destroy that timed out and one that failed are each reported, and
      only they are. */
  lemma CompletedReport(ready: seq<Action>, applyVars: seq<string>, shown: string, destroyVars: seq<string>,
                        d: DestroyOutcome, fullTempFolder: string)
    requires Within(ready, 6, 9)
    ensures var t := Completed(ready, applyVars, shown, destroyVars, d, fullTempFolder);
      && (Warn(DestroyTimedOut) in t <==> d == DeadlineExceeded)
      && (Warn(DestroyErrored) in t <==> d == DestroyFailed)
  {
    var applied := ready + [Apply(applyVars), Print(shown), Destroy(destroyVars)];
    assert Warn(DestroyTimedOut) !in applied && Warn(DestroyErrored) !in applied by {
      forall i | 0 <= i < |ready| ensures Rank(ready[i]) <= 9 { }
    }
    assert Completed(ready, applyVars, shown, destroyVars, d, fullTempFolder)
      == applied + DestroyReport(d) + [RemoveTemp(fullTempFolder)];
  }

  method RunOnTerraform(cmdToRun: string, fullTempFolder: string, instanceType: string, o: Outcomes)
    returns (exit: int, trace: seq<Action>)
    ensures Outcome(exit, trace) == TerraformRun(ApplyVars(fullTempFolder, instanceType, cmdToRun), Shown(o.apply),
                                                 DestroyVars(fullTempFolder, instanceType), fullTempFolder, o)
  {
    trace := [InstallTerraform];
    if !o.install {
      return 1, trace;
    }
    trace := trace + [NewTerraform];
    if !o.newTerraform {
      return 1, trace;
    }
    trace := trace + [Init(false)];
    if !o.init {
      trace := trace + [Init(true)];
      if !o.initReduced {
        trace := trace + [Warn(InitByHand)];
        return 1, trace;
      }
    }
    assert trace == [InstallTerraform, NewTerraform] + InitActions(o);
    var applyVars := ApplyVars(fullTempFolder, instanceType, cmdToRun);
    trace := trace + [Apply(applyVars)];
    if o.apply.None? {
      trace := trace + [Warn(ApplyLeftResources)];
      return 1, trace;
    }
    var filtered := FilterOutput(o.apply.value);
    trace := trace + [Print(filtered)];
    trace := trace + [Destroy(DestroyVars(fullTempFolder, instanceType))];
    if o.destroy == DeadlineExceeded {
      trace := trace + [Warn(DestroyTimedOut)];
    } else if o.destroy == DestroyFailed {
      trace := trace + [Warn(DestroyErrored)];
    }
    trace := trace + [RemoveTemp(fullTempFolder)];
    if !o.removeTemp {
      return 1, trace;
    }
    return 0, trace;
  }

  /** Init is retried once with reduced options, only after the full Init
      failed, and a second failure is fatal before anything is applied. */
  lemma TerraformInit(applyVars: seq<string>, shown: string, destroyVars: seq<string>,
                      fullTempFolder: string, o: Outcomes)
    ensures var r := TerraformRun(applyVars, shown, destroyVars, fullTempFolder, o);
      && (Init(true) in r.trace <==> o.install && o.newTerraform && !o.init)
      && (Applies(r.trace) <==> o.install && o.newTerraform && (o.init || o.initReduced))
      && (o.install && o.newTerraform && !o.init && !o.initReduced ==> r.exit == 1 && Warn(InitByHand) in r.trace)
  {
    var r := TerraformRun(applyVars, shown, destroyVars, fullTempFolder, o);
    if o.install && o.newTerraform && (o.init || o.initReduced) {
      assert r.trace[|InitActions(o)| + 2].Apply?;
    }
  }

  /** A failed apply exits 1 with the recovery hint, and neither destroys
      anything nor removes the temporary folder. */
  lemma TerraformApplyFails(applyVars: seq<string>, shown: string, destroyVars: seq<string>,
                            fullTempFolder: string, o: Outcomes)
    requires o.install && o.newTerraform && (o.init || o.initReduced) && o.apply.None?
    ensures var r := TerraformRun(applyVars, shown, destroyVars, fullTempFolder, o);
      r.exit == 1 && Warn(ApplyLeftResources) in r.trace && !Destroys(r.trace) && !Removes(r.trace)
  {
  }

  /** The Terraform stage attempts its actions in program order and does
      nothing of the host stage or of the local staging. */
  lemma TerraformActions(applyVars: seq<string>, shown: string, destroyVars: seq<string>,
                         fullTempFolder: string, o: Outcomes)
    ensures var t := TerraformRun(applyVars, shown, destroyVars, fullTempFolder, o).trace;
      Ordered(t) && Within(t, 6, 17)
  {
    var t := TerraformRun(applyVars, shown, destroyVars, fullTempFolder, o).trace;
    var ready := [InstallTerraform, NewTerraform] + InitActions(o);
    if o.install && o.newTerraform {
      InitOrdered(o);
      if !o.init && !o.initReduced {
        assert t == ready + [Warn(InitByHand)];
        Sequenced(ready, [Warn(InitByHand)], 6, 9, 17);
      } else if o.apply.None? {
        assert t == ready + [Apply(applyVars), Warn(ApplyLeftResources)];
        Sequenced(ready, [Apply(applyVars), Warn(ApplyLeftResources)], 6, 9, 17);
      } else {
        assert t == Completed(ready, applyVars, shown, destroyVars, o.destroy, fullTempFolder);
        CompletedOrdered(ready, applyVars, shown, destroyVars, o.destroy, fullTempFolder);
      }
    }
  }

  /** Installing, creating the client and initialising come first. */
  lemma InitOrdered(o: Outcomes)
    ensures var ready := [InstallTerraform, NewTerraform] + InitActions(o);
      Ordered(ready) && Within(ready, 6, 9)
  {
  }

  /** Whatever the stage applies, it applies with exactly the given
      variables. */
  lemma TerraformApplyVars(applyVars: seq<string>, shown: string, destroyVars: seq<string>,
                           fullTempFolder: string, o: Outcomes)
    ensures var t := TerraformRun(applyVars, shown, destroyVars, fullTempFolder, o).trace;
      forall vs :: Apply(vs) in t ==> vs == applyVars
  {
    var t := TerraformRun(applyVars, shown, destroyVars, fullTempFolder, o).trace;
    TerraformActions(applyVars, shown, destroyVars, fullTempFolder, o);
    if o.install && o.newTerraform && (o.init || o.initReduced) {
      assert t[|InitActions(o)| + 2] == Apply(applyVars);
      forall vs | Apply(vs) in t ensures vs == applyVars {
        OrderedUnique(t, Apply(vs), Apply(applyVars));
      }
    }
  }

  /** Destroy follows exactly a successful apply, after its output has been
      printed; removal follows destroy whatever destroy did; the status is 0
      exactly when removal succeeds; a timeout and an error are reported
      differently. */
  lemma TerraformCleanup(applyVars: seq<string>, shown: string, destroyVars: seq<string>,
                         fullTempFolder: string, o: Outcomes)
    ensures var r := TerraformRun(applyVars, shown, destroyVars, fullTempFolder, o);
      && (r.exit == 0 || r.exit == 1)
      && (Destroys(r.trace) <==> Applies(r.trace) && o.apply.Some?)
      && (Removes(r.trace) <==> Destroys(r.trace))
      && (r.exit == 0 <==> Destroys(r.trace) && o.removeTemp)
      && (Destroys(r.trace) ==>
            (Before(r.trace, Print(shown), Destroy(destroyVars))
             && Before(r.trace, Destroy(destroyVars), RemoveTemp(fullTempFolder))
             && (Warn(DestroyTimedOut) in r.trace <==> o.destroy == DeadlineExceeded)
             && (Warn(DestroyErrored) in r.trace <==> o.destroy == DestroyFailed)))
  {
    var r := TerraformRun(applyVars, shown, destroyVars, fullTempFolder, o);
    TerraformInit(applyVars, shown, destroyVars, fullTempFolder, o);
    if o.install && o.newTerraform && (o.init || o.initReduced) && o.apply.Some? {
      var ready := [InstallTerraform, NewTerraform] + InitActions(o);
      InitOrdered(o);
      CompletedCleanup(ready, applyVars, shown, destroyVars, o.destroy, fullTempFolder);
      CompletedReport(ready, applyVars, shown, destroyVars, o.destroy, fullTempFolder);
    } else if o.install && o.newTerraform && (o.init || o.initReduced) {
      TerraformApplyFails(applyVars, shown, destroyVars, fullTempFolder, o);
    }
  }

  // ---------------------------------------------------------------------
  // The whole run.

  /** Where `--folder` resolves to: itself when absolute, else under the
      working directory (an error when that cannot be read). */
  function FolderAbsPath(folder: string, cwd: Option<string>, m: Machine): Option<string> {
    if m.isAbs(folder) then Some(folder)
    else if cwd.None? then None
    else Some(m.join(cwd.value, folder))
  }

  /** The folder copy's source and destination: the folder's absolute path,
      and its base name under the temporary folder, which is also the name
      the rewritten command uses for it. */
  function FolderCopy(absPath: string, tmpFolder: string, m: Machine): Action {
    CopyFolder(absPath, m.join(tmpFolder, m.base(absPath)))
  }

  /** Copying the `--folder` tree into the temporary folder and rewriting
      the command for it (cli/main.go:352-429). Any failure ends the run. */
  method StageFolder(folder: string, tmpFolder: string, cmdToRun: string,
                     remapped: map<string, string>, m: Machine, o: Outcomes)
    returns (newCmd: Option<string>, trace: seq<Action>)
    requires folder != ""
    ensures newCmd.Some? <==>
      (FolderAbsPath(folder, o.cwd, m).Some?
       && o.statDir(FolderAbsPath(folder, o.cwd, m).value) == Some(true) && o.mkdirAll && o.copyDir)
    ensures newCmd.Some? ==>
      newCmd.value == RewrittenCommand(cmdToRun, folder, m.base(FolderAbsPath(folder, o.cwd, m).value), remapped, m)
    ensures var abs := FolderAbsPath(folder, o.cwd, m);
      trace == if abs.Some? && o.statDir(abs.value) == Some(true) && o.mkdirAll
               then [FolderCopy(abs.value, tmpFolder, m)] else []
  {
    trace := [];
    var absPath := folder;
    if !m.isAbs(absPath) {
      if o.cwd.None? {
        return None, trace;
      }
      absPath := m.join(o.cwd.value, absPath);
    }
    var info := o.statDir(absPath);
    if info.None? || !info.value {
      return None, trace;
    }
    var folderName := m.base(absPath);
    var folderDestPath := m.join(tmpFolder, folderName);
    if !o.mkdirAll {
      return None, trace;
    }
    trace := trace + [CopyFolder(absPath, folderDestPath)];
    if !o.copyDir {
      return None, trace;
    }
    var rewritten := RewriteCommand(cmdToRun, folder, folderName, remapped, m);
    return Some(rewritten), trace;
  }

  /** What preparing a run yields: the command to run with the temporary
      folder (as created, and made absolute) when it succeeds, and the
      actions attempted. */
  datatype Prepared = Prepared(ready: Option<(string, string, string)>, trace: seq<Action>)

  /** The map of staged dependencies for `cmdToRun` in `tmpFolder`: every
      collected binary or detected file whose copy succeeds, under its base
      name. */
  function StagedMap(cmdToRun: string, tmpFolder: string, m: Machine): map<string, string> {
    StagedPaths(BinariesToCopy(cmdToRun, m.lookPath), FilesToCopy(cmdToRun, m), tmpFolder, m)
  }

  /** Staging a selected command: the temporary folder is created and made
      absolute; with `--folder` the folder is found and copied, and the
      command is rewritten against the folder's base name and the staged
      dependencies. */
  function Staged(cmdToRun: string, folder: string, m: Machine, o: Outcomes): Prepared {
    if o.makeTemp.None? || m.abs(o.makeTemp.value).None? then Prepared(None, [CreateTemp])
    else
      var tmpFolder := o.makeTemp.value;
      var fullTempFolder := m.abs(tmpFolder).value;
      if folder == "" then Prepared(Some((cmdToRun, tmpFolder, fullTempFolder)), [CreateTemp])
      else
        var abs := FolderAbsPath(folder, o.cwd, m);
        if abs.None? || o.statDir(abs.value) != Some(true) || !o.mkdirAll then Prepared(None, [CreateTemp])
        else
          var copied := [CreateTemp, FolderCopy(abs.value, tmpFolder, m)];
          if !o.copyDir then Prepared(None, copied)
          else
            var newCmd := RewrittenCommand(cmdToRun, folder, m.base(abs.value), StagedMap(cmdToRun, tmpFolder, m), m);
            Prepared(Some((newCmd, tmpFolder, fullTempFolder)), copied)
  }

  /** Everything before the host or Terraform stage: a selection error ends
      the run before any action; otherwise the selected command is staged. */
  function Preparation(args: seq<string>, f: Flags, m: Machine, o: Outcomes): Prepared {
    var selection := SelectCommand(args, f.command, m.lookPath);
    if selection.Err? then Prepared(None, []) else Staged(selection.value.cmd, f.folder, m, o)
  }

  /** The part of the run before the host or Terraform stage: selecting the
      command, discovering and staging its dependencies, and, with
      `--folder`, copying the folder and rewriting the command. On success it
      yields the command to run and the temporary folder (as created and made
      absolute); otherwise the run ends with status 1. */
  method Prepare(args: seq<string>, f: Flags, m: Machine, o: Outcomes)
    returns (ready: Option<(string, string, string)>, trace: seq<Action>)
    ensures Prepared(ready, trace) == Preparation(args, f, m, o)
    ensures SelectCommand(args, f.command, m.lookPath).Err? ==> ready.None? && trace == []
    ensures Ordered(trace) && Within(trace, 0, 1)
    ensures f.folder == "" ==> !CopiesFolder(trace)
    ensures ready.Some? ==>
      (SelectCommand(args, f.command, m.lookPath).Ok?
       && o.makeTemp == Some(ready.value.1) && m.abs(ready.value.1) == Some(ready.value.2))
    ensures f.folder == "" && ready.Some? ==> ready.value.0 == SelectCommand(args, f.command, m.lookPath).value.cmd
    ensures f.folder != "" && ready.Some? ==>
      var cmd := SelectCommand(args, f.command, m.lookPath).value.cmd;
      ready.value.0 == RewrittenCommand(cmd, f.folder, m.base(FolderAbsPath(f.folder, o.cwd, m).value),
                                        StagedMap(cmd, ready.value.1, m), m)
  {
    trace := [];
    var selection := SelectCommand(args, f.command, m.lookPath);
    if selection.Err? {
      return None, trace;
    }
    ready, trace := StageCommand(selection.value.cmd, f.folder, m, o);
    StagedTrace(trace);
  }

  /** Staging a selected command (cli/main.go:241-429): its dependencies are
      discovered, the temporary folder is created and made absolute, the
      dependencies are copied into it, and with `--folder` the folder is
      copied too and the command rewritten. */
  method StageCommand(cmdToRun: string, folder: string, m: Machine, o: Outcomes)
    returns (ready: Option<(string, string, string)>, trace: seq<Action>)
    ensures Prepared(ready, trace) == Staged(cmdToRun, folder, m, o)
    ensures trace == [] || trace == [CreateTemp] || (|trace| == 2 && trace[0] == CreateTemp && trace[1].CopyFolder?)
    ensures folder == "" ==> |trace| <= 1
    ensures ready.Some? ==> o.makeTemp == Some(ready.value.1) && m.abs(ready.value.1) == Some(ready.value.2)
    ensures folder == "" && ready.Some? ==> ready.value.0 == cmdToRun
    ensures folder != "" && ready.Some? ==>
      ready.value.0 == RewrittenCommand(cmdToRun, folder, m.base(FolderAbsPath(folder, o.cwd, m).value),
                                        StagedMap(cmdToRun, ready.value.1, m), m)
  {
    StagedFacts(cmdToRun, folder, m, o);
    var binariesToCopy := CollectBinaries(cmdToRun, m.lookPath);
    var filesToCopy := DetectFiles(cmdToRun, m);

    trace := [CreateTemp];
    if o.makeTemp.None? {
      return None, trace;
    }
    var tmpFolder := o.makeTemp.value;
    var fullTempFolder := m.abs(tmpFolder);
    if fullTempFolder.None? {
      return None, trace;
    }
    var remappedPaths := StageDependencies(binariesToCopy, filesToCopy, tmpFolder, m);
    assert remappedPaths == StagedMap(cmdToRun, tmpFolder, m);

    var newCmd := cmdToRun;
    if folder != "" {
      var rewritten, copied := StageFolder(folder, tmpFolder, cmdToRun, remappedPaths, m, o);
      trace := trace + copied;
      if rewritten.None? {
        return None, trace;
      }
      newCmd := rewritten.value;
    }
    return Some((newCmd, tmpFolder, fullTempFolder.value)), trace;
  }

  /** Staging attempts the temporary folder's creation and, with `--folder`,
      at most the folder copy after it. It yields the temporary folder that
      was created, and the command unchanged without `--folder`, rewritten
      against the folder's base name and the staged dependencies with it. */
  lemma StagedFacts(cmdToRun: string, folder: string, m: Machine, o: Outcomes)
    ensures var p := Staged(cmdToRun, folder, m, o);
      && (p.trace == [CreateTemp] || (|p.trace| == 2 && p.trace[0] == CreateTemp && p.trace[1].CopyFolder?))
      && (folder == "" ==> |p.trace| <= 1)
      && (p.ready.Some? ==> o.makeTemp == Some(p.ready.value.1) && m.abs(p.ready.value.1) == Some(p.ready.value.2))
      && (folder == "" && p.ready.Some? ==> p.ready.value.0 == cmdToRun)
      && (folder != "" && p.ready.Some? ==>
            p.ready.value.0 == RewrittenCommand(cmdToRun, folder, m.base(FolderAbsPath(folder, o.cwd, m).value),
                                                StagedMap(cmdToRun, p.ready.value.1, m), m))
  {
  }

  /** The preparation's trace is in program order, within the local ranks. */
  lemma StagedTrace(trace: seq<Action>)
    requires trace == [] || trace == [CreateTemp] || (|trace| == 2 && trace[0] == CreateTemp && trace[1].CopyFolder?)
    ensures Ordered(trace) && Within(trace, 0, 1)
    ensures |trace| <= 1 ==> !CopiesFolder(trace)
  {
  }

  /** The stage that runs the prepared command: on the existing host when
      `--host` is given, otherwise on a machine provisioned with Terraform. */
  function StageRun(f: Flags, cmdToRun: string, tmpFolder: string, fullTempFolder: string, o: Outcomes): Outcome {
    if f.host != "" then
      HostRun(f.sshKey, WrapperScript(f.sshUser, cmdToRun), Shown(o.runScript), tmpFolder, o)
    else
      TerraformRun(ApplyVars(fullTempFolder, f.instanceType, cmdToRun), Shown(o.apply),
                   DestroyVars(fullTempFolder, f.instanceType), fullTempFolder, o)
  }

  /** The whole run: a failed preparation exits 1 after its own actions;
      otherwise the stage's actions follow and its status is the run's. */
  function RunOutcome(args: seq<string>, f: Flags, m: Machine, o: Outcomes): Outcome {
    var p := Preparation(args, f, m, o);
    if p.ready.None? then Outcome(1, p.trace)
    else
      var stage := StageRun(f, p.ready.value.0, p.ready.value.1, p.ready.value.2, o);
      Outcome(stage.exit, p.trace + stage.trace)
  }

  /** Every path of `main` after flag parsing. The run attempts its actions
      in program order, none twice; the prepared command (the selected one,
      rewritten with `--folder`) is the one the script and the apply
      variables carry; a run that succeeds has attempted to remove its
      temporary folder; the host and Terraform stages exclude each other. */
  method Run(args: seq<string>, f: Flags, m: Machine, o: Outcomes) returns (exit: int, trace: seq<Action>)
    ensures Outcome(exit, trace) == RunOutcome(args, f, m, o)
    ensures exit == 0 || exit == 1
    ensures SelectCommand(args, f.command, m.lookPath).Err? ==> exit == 1 && trace == []
    ensures Ordered(trace) && NoDup(trace)
    ensures exit == 0 ==> Removes(trace)
    ensures f.host != "" ==> !Applies(trace) && !Destroys(trace)
    ensures f.host == "" ==> (exit == 0 <==> Destroys(trace) && o.removeTemp)
    ensures f.folder == "" ==> !CopiesFolder(trace)
    ensures Preparation(args, f, m, o).ready.Some? ==>
      var (cmd, _, fullTempFolder) := Preparation(args, f, m, o).ready.value;
      (forall c :: WriteScript(c) in trace ==> c == WrapperScript(f.sshUser, cmd))
      && (forall vs :: Apply(vs) in trace ==> vs == ApplyVars(fullTempFolder, f.instanceType, cmd))
  {
    var ready, pre := Prepare(args, f, m, o);
    WithinKinds(pre);
    if ready.None? {
      OrderedNoDup(pre);
      return 1, pre;
    }
    var (cmdToRun, tmpFolder, fullTempFolder) := ready.value;
    var tail;
    exit, tail := RunStage(f, cmdToRun, tmpFolder, fullTempFolder, o);
    trace := pre + tail;
    assert Outcome(exit, trace) == RunOutcome(args, f, m, o);
    Joined(pre, tail, exit, f, o, cmdToRun, fullTempFolder);
  }

  /** Proof helper: the local staging followed by the stage keeps what each
      part promises. */
  lemma Joined(pre: seq<Action>, tail: seq<Action>, exit: int, f: Flags, o: Outcomes, cmd: string, fullTempFolder: string)
    requires Ordered(pre) && Within(pre, 0, 1) && (f.folder == "" ==> !CopiesFolder(pre))
    requires Ordered(tail) && Within(tail, 2, 17) && (exit == 0 ==> Removes(tail))
    requires f.host != "" ==> !Applies(tail) && !Destroys(tail)
    requires f.host == "" ==> (exit == 0 <==> Destroys(tail) && o.removeTemp)
    requires forall c :: WriteScript(c) in tail ==> c == WrapperScript(f.sshUser, cmd)
    requires forall vs :: Apply(vs) in tail ==> vs == ApplyVars(fullTempFolder, f.instanceType, cmd)
    ensures var trace := pre + tail;
      && Ordered(trace) && NoDup(trace)
      && (exit == 0 ==> Removes(trace))
      && (f.host != "" ==> !Applies(trace) && !Destroys(trace))
      && (f.host == "" ==> (exit == 0 <==> Destroys(trace) && o.removeTemp))
      && (f.folder == "" ==> !CopiesFolder(trace))
      && (forall c :: WriteScript(c) in trace ==> c == WrapperScript(f.sshUser, cmd))
      && (forall vs :: Apply(vs) in trace ==> vs == ApplyVars(fullTempFolder, f.instanceType, cmd))
  {
    WithinKinds(pre);
    WithinKinds(tail);
    Sequenced(pre, tail, 0, 1, 17);
    KindsConcat(pre, tail);
    StagedLater(pre, tail);
    OrderedNoDup(pre + tail);
  }

  /** The stage that runs the prepared command: on the existing host when
      `--host` is given, otherwise on a machine provisioned with Terraform
      (cli/main.go:433-642). */
  method RunStage(f: Flags, cmdToRun: string, tmpFolder: string, fullTempFolder: string, o: Outcomes)
    returns (exit: int, tail: seq<Action>)
    ensures Outcome(exit, tail) == StageRun(f, cmdToRun, tmpFolder, fullTempFolder, o)
    ensures exit == 0 || exit == 1
    ensures Ordered(tail) && Within(tail, 2, 17)
    ensures exit == 0 ==> Removes(tail)
    ensures f.host != "" ==> !Applies(tail) && !Destroys(tail)
    ensures f.host == "" ==> (exit == 0 <==> Destroys(tail) && o.removeTemp)
    ensures forall c :: WriteScript(c) in tail ==> c == WrapperScript(f.sshUser, cmdToRun)
    ensures forall vs :: Apply(vs) in tail ==> vs == ApplyVars(fullTempFolder, f.instanceType, cmdToRun)
  {
    if f.host != "" {
      exit, tail := HostStage(f, cmdToRun, tmpFolder, o);
    } else {
      exit, tail := TerraformStage(f, cmdToRun, fullTempFolder, o);
    }
  }

  /** The host branch of `RunStage` (cli/main.go:431-511). */
  method HostStage(f: Flags, cmdToRun: string, tmpFolder: string, o: Outcomes)
    returns (exit: int, tail: seq<Action>)
    ensures Outcome(exit, tail) == HostRun(f.sshKey, WrapperScript(f.sshUser, cmdToRun), Shown(o.runScript), tmpFolder, o)
    ensures exit == 0 || exit == 1
    ensures exit == 0 <==> !(f.sshKey != "" && o.sshKeyMissing) && o.remoteMkdir && o.remoteCopy
                           && o.writeScript && o.runScript.Some?
    ensures Ordered(tail) && Within(tail, 2, 17)
    ensures exit == 0 ==> Removes(tail)
    ensures !Applies(tail) && !Destroys(tail)
    ensures forall c :: WriteScript(c) in tail ==> c == WrapperScript(f.sshUser, cmdToRun)
    ensures forall vs :: Apply(vs) !in tail
  {
    var script := WrapperScript(f.sshUser, cmdToRun);
    exit, tail := RunOnHost(f.sshKey, f.sshUser, cmdToRun, tmpFolder, o);
    assert (exit == 0 || exit == 1) && (exit == 0 ==> Removes(tail))
      && (exit == 0 <==> !(f.sshKey != "" && o.sshKeyMissing) && o.remoteMkdir && o.remoteCopy
                         && o.writeScript && o.runScript.Some?) by {
      HostOutcome(f.sshKey, script, Shown(o.runScript), tmpFolder, o);
    }
    HostActions(f.sshKey, script, Shown(o.runScript), tmpFolder, o);
  }

  /** The Terraform branch of `RunStage` (cli/main.go:513-642). */
  method TerraformStage(f: Flags, cmdToRun: string, fullTempFolder: string, o: Outcomes)
    returns (exit: int, tail: seq<Action>)
    ensures Outcome(exit, tail) == TerraformRun(ApplyVars(fullTempFolder, f.instanceType, cmdToRun), Shown(o.apply),
                                                DestroyVars(fullTempFolder, f.instanceType), fullTempFolder, o)
    ensures exit == 0 || exit == 1
    ensures Ordered(tail) && Within(tail, 2, 17)
    ensures exit == 0 ==> Removes(tail)
    ensures exit == 0 <==> Destroys(tail) && o.removeTemp
    ensures forall c :: WriteScript(c) !in tail
    ensures forall vs :: Apply(vs) in tail ==> vs == ApplyVars(fullTempFolder, f.instanceType, cmdToRun)
  {
    exit, tail := RunOnTerraform(cmdToRun, fullTempFolder, f.instanceType, o);
    TerraformOutcome(ApplyVars(fullTempFolder, f.instanceType, cmdToRun), Shown(o.apply),
                     DestroyVars(fullTempFolder, f.instanceType), fullTempFolder, o);
  }

  /** What the run as a whole needs of the Terraform stage: status 0 or 1,
      program order after the local staging, removal on success, success
      exactly when destroyed and removed, no script written, and only the
      given variables applied. */
  lemma TerraformOutcome(applyVars: seq<string>, shown: string, destroyVars: seq<string>,
                         fullTempFolder: string, o: Outcomes)
    ensures var r := TerraformRun(applyVars, shown, destroyVars, fullTempFolder, o);
      && (r.exit == 0 || r.exit == 1)
      && Ordered(r.trace) && Within(r.trace, 2, 17)
      && (r.exit == 0 ==> Removes(r.trace))
      && (r.exit == 0 <==> Destroys(r.trace) && o.removeTemp)
      && (forall c :: WriteScript(c) !in r.trace)
      && (forall vs :: Apply(vs) in r.trace ==> vs == applyVars)
  {
    var t := TerraformRun(applyVars, shown, destroyVars, fullTempFolder, o).trace;
    TerraformCleanup(applyVars, shown, destroyVars, fullTempFolder, o);
    assert Ordered(t) && Within(t, 6, 17) by {
      TerraformActions(applyVars, shown, destroyVars, fullTempFolder, o);
    }
    WithinWeaker(t, 6, 17, 2);
    WithinNoScript(t);
    TerraformApplyVars(applyVars, shown, destroyVars, fullTempFolder, o);
  }

  /** The Terraform stage (ranks 6 to 17) writes no host script. */
  lemma WithinNoScript(t: seq<Action>)
    requires Within(t, 6, 17)
    ensures forall c :: WriteScript(c) !in t
  {
  }

  /** Proof helper: widening a rank range keeps a trace within it. */
  lemma WithinWeaker(t: seq<Action>, lo: nat, hi: nat, lo': nat)
    requires Within(t, lo, hi) && lo' <= lo
    ensures Within(t, lo', hi)
  {
  }

  /** An action ranked after the local staging belongs to the stage. */
  lemma StagedLater(pre: seq<Action>, tail: seq<Action>)
    requires Within(pre, 0, 1)
    ensures forall a :: a in pre + tail && 2 <= Rank(a) ==> a in tail
  {
    forall a | a in pre + tail && 2 <= Rank(a) ensures a in tail {
      var i :| 0 <= i < |pre + tail| && (pre + tail)[i] == a;
      assert i >= |pre|;
      assert (pre + tail)[i] == tail[i - |pre|];
    }
  }
}
