/** The text the CLI sends to the benchmark machine: the wrapper script run
    over ssh on an existing host (cli/main.go:474-485), and the Terraform
    `custom_command` variable (cli/main.go:579); and what the output filter
    makes of the transcript the wrapper script produces. */
module Remote {
  import opened GoStrings
  import opened OutputFilter

  /** `run_benchmark.sh`: the command three times, each run announced by an
      `echo "Run k"`, between the echoed sentinels. */
  function WrapperScript(sshUser: string, cmdToRun: string): string {
    "#!/bin/bash" + "\n"
    + ("cd /home/" + sshUser + "/benchmark") + "\n"
    + "echo \"BENCHMARK_START\"" + "\n"
    + "echo \"Run 1\"" + "\n"
    + cmdToRun + "\n"
    + "echo \"Run 2\"" + "\n"
    + cmdToRun + "\n"
    + "echo \"Run 3\"" + "\n"
    + cmdToRun + "\n"
    + "echo \"BENCHMARK_END\"" + "\n"
  }

  /** The script's lines other than the three copies of the command. */
  function FixedLines(sshUser: string): seq<string> {
    ["#!/bin/bash", "cd /home/" + sshUser + "/benchmark", "echo \"BENCHMARK_START\"",
     "echo \"Run 1\"", "echo \"Run 2\"", "echo \"Run 3\"", "echo \"BENCHMARK_END\""]
  }

  /** The script line by line. */
  function ScriptLines(sshUser: string, cmdToRun: string): seq<string> {
    ["#!/bin/bash", "cd /home/" + sshUser + "/benchmark", "echo \"BENCHMARK_START\"",
     "echo \"Run 1\"", cmdToRun, "echo \"Run 2\"", cmdToRun, "echo \"Run 3\"", cmdToRun,
     "echo \"BENCHMARK_END\""]
  }

  /** `Terminated` built from the front. */
  lemma {:induction false} TerminatedCons(a: string, rest: seq<string>)
    ensures Terminated([a] + rest) == a + "\n" + Terminated(rest)
    decreases |rest|
  {
    if |rest| > 0 {
      var init := rest[..|rest| - 1];
      assert ([a] + rest)[..|rest|] == [a] + init;
      TerminatedCons(a, init);
    } else {
      assert [a] + rest == [a];
      assert Terminated([a]) == Terminated([]) + a + "\n";
    }
  }

  /** Lines each followed by a newline split back into those lines, plus the
      empty piece after the last newline. */
  lemma {:induction false} LinesTerminated(ls: seq<string>)
    requires forall i :: 0 <= i < |ls| ==> '\n' !in ls[i]
    ensures Lines(Terminated(ls)) == ls + [""]
    decreases |ls|
  {
    if |ls| == 0 {
      assert Lines("") == [""];
    } else {
      LinesTerminated(ls[1..]);
      TerminatedCons(ls[0], ls[1..]);
      assert [ls[0]] + ls[1..] == ls;
      SplitCharCons(ls[0], '\n', Terminated(ls[1..]));
      assert ls + [""] == [ls[0]] + (ls[1..] + [""]);
    }
  }

  lemma TerminatedPrefixStep(ls: seq<string>, k: nat)
    requires k < |ls|
    ensures Terminated(ls[..k + 1]) == Terminated(ls[..k]) + ls[k] + "\n"
  {
    assert ls[..k + 1][..k] == ls[..k];
  }

  /** Ten lines, each followed by a newline. */
  lemma TerminatedTen(x0: string, x1: string, x2: string, x3: string, x4: string,
                      x5: string, x6: string, x7: string, x8: string, x9: string)
    ensures Terminated([x0, x1, x2, x3, x4, x5, x6, x7, x8, x9])
      == x0 + "\n" + x1 + "\n" + x2 + "\n" + x3 + "\n" + x4 + "\n"
         + x5 + "\n" + x6 + "\n" + x7 + "\n" + x8 + "\n" + x9 + "\n"
  {
    var ls := [x0, x1, x2, x3, x4, x5, x6, x7, x8, x9];
    assert ls[..0] == [];
    TerminatedPrefixStep(ls, 0);
    assert "" + x0 == x0;
    TerminatedPrefixStep(ls, 1);
    TerminatedPrefixStep(ls, 2);
    TerminatedPrefixStep(ls, 3);
    TerminatedPrefixStep(ls, 4);
    TerminatedPrefixStep(ls, 5);
    TerminatedPrefixStep(ls, 6);
    TerminatedPrefixStep(ls, 7);
    TerminatedPrefixStep(ls, 8);
    TerminatedPrefixStep(ls, 9);
    assert ls[..10] == ls;
  }

  /** The script is its lines, each followed by a newline. */
  lemma ScriptIsTerminated(sshUser: string, cmdToRun: string)
    ensures WrapperScript(sshUser, cmdToRun) == Terminated(ScriptLines(sshUser, cmdToRun))
  {
    TerminatedTen("#!/bin/bash", "cd /home/" + sshUser + "/benchmark", "echo \"BENCHMARK_START\"",
      "echo \"Run 1\"", cmdToRun, "echo \"Run 2\"", cmdToRun, "echo \"Run 3\"", cmdToRun,
      "echo \"BENCHMARK_END\"");
  }

  /** Splitting the script at newlines gives its ten lines in order (and the
      empty piece after the final newline), provided neither the user name nor
      the command contains a newline. */
  lemma ScriptLinesInOrder(sshUser: string, cmdToRun: string)
    requires '\n' !in sshUser && '\n' !in cmdToRun
    ensures Lines(WrapperScript(sshUser, cmdToRun)) == ScriptLines(sshUser, cmdToRun) + [""]
  {
    ScriptIsTerminated(sshUser, cmdToRun);
    var ls := ScriptLines(sshUser, cmdToRun);
    forall i | 0 <= i < |ls| ensures '\n' !in ls[i] {
      if i == 1 {
        assert ls[1] == "cd /home/" + sshUser + "/benchmark";
      }
    }
    LinesTerminated(ls);
  }

  /** A command that is none of the fixed lines occupies exactly the fifth,
      seventh and ninth lines: it runs three times and nowhere else. */
  lemma CommandRunsThreeTimes(sshUser: string, cmdToRun: string)
    requires cmdToRun !in FixedLines(sshUser)
    ensures forall i :: 0 <= i < |ScriptLines(sshUser, cmdToRun)| ==>
      (ScriptLines(sshUser, cmdToRun)[i] == cmdToRun <==> i in {4, 6, 8})
  {
    var f := FixedLines(sshUser);
    assert cmdToRun != f[0] && cmdToRun != f[1] && cmdToRun != f[2] && cmdToRun != f[3];
    assert cmdToRun != f[4] && cmdToRun != f[5] && cmdToRun != f[6];
  }

  // ---------------------------------------------------------------------
  // What the filter keeps of the script's transcript.

  /** The labelled runs the filter should report: each `Run k` line followed
      by that run's own output lines. */
  function Report(o1: seq<string>, o2: seq<string>, o3: seq<string>): seq<string> {
    ["Run 1"] + o1 + ["Run 2"] + o2 + ["Run 3"] + o3
  }

  /** Lines that cannot open the capture window. */
  predicate AllQuiet(ls: seq<string>) {
    forall i :: 0 <= i < |ls| ==> !Contains(ls[i], StartMarker) && '\n' !in ls[i]
  }

  /** Lines the filter passes through unchanged while capturing. */
  predicate AllPlain(ls: seq<string>) {
    forall i :: 0 <= i < |ls| ==> Plain(ls[i]) && '\n' !in ls[i]
  }

  lemma AllPlainAppend(a: seq<string>, b: seq<string>)
    requires AllPlain(a) && AllPlain(b)
    ensures AllPlain(a + b)
  {
    forall i | 0 <= i < |a + b| ensures Plain((a + b)[i]) && '\n' !in (a + b)[i] {
      if i >= |a| { assert (a + b)[i] == b[i - |a|]; }
    }
  }

  lemma RunLabelPlain(name: string)
    requires |name| < |EndMarker| && '\n' !in name
    ensures AllPlain([name])
  {
    ShortNotContains(name, StartMarker);
    ShortNotContains(name, EndMarker);
    ShortNotContains(name, Noise);
    ShortNotContains(name, Tag);
  }

  /** The report of plain runs is plain. */
  lemma ReportPlain(o1: seq<string>, o2: seq<string>, o3: seq<string>)
    requires AllPlain(o1) && AllPlain(o2) && AllPlain(o3)
    ensures AllPlain(Report(o1, o2, o3))
  {
    RunLabelPlain("Run 1");
    RunLabelPlain("Run 2");
    RunLabelPlain("Run 3");
    AllPlainAppend(["Run 1"], o1);
    AllPlainAppend(["Run 1"] + o1, ["Run 2"]);
    AllPlainAppend(["Run 1"] + o1 + ["Run 2"], o2);
    AllPlainAppend(["Run 1"] + o1 + ["Run 2"] + o2, ["Run 3"]);
    AllPlainAppend(["Run 1"] + o1 + ["Run 2"] + o2 + ["Run 3"], o3);
  }

  /** The loop over a window: idle before the start line, copying plain
      lines, closed by the end line, idle after it. */
  lemma ScanThroughWindow(pre: seq<string>, mid: seq<string>, tail: seq<string>)
    requires AllQuiet(pre) && AllPlain(mid) && AllQuiet(tail)
    ensures ScanFrom(Initial, pre + [StartMarker] + mid + [EndMarker] + tail) == Scan(false, Terminated(mid))
  {
    var t := Terminated(mid);
    assert ScanFrom(Initial, pre + [StartMarker]) == Scan(true, "") by {
      assert ScanFrom(Initial, pre) == Scan(false, "") by { ScanIdle("", pre); }
      ScanFromSnoc(Initial, pre, StartMarker);
      StepStart(Scan(false, ""));
    }
    assert ScanFrom(Initial, pre + [StartMarker] + mid) == Scan(true, t) by {
      ScanFromAppend(Initial, pre + [StartMarker], mid);
      ScanCapturing("", mid);
      assert "" + t == t;
    }
    assert ScanFrom(Initial, pre + [StartMarker] + mid + [EndMarker]) == Scan(false, t) by {
      ScanFromSnoc(Initial, pre + [StartMarker] + mid, EndMarker);
      StepEnd(Scan(true, t));
    }
    ScanFromAppend(Initial, pre + [StartMarker] + mid + [EndMarker], tail);
    ScanIdle(t, tail);
  }

  /** No line of the transcript contains a newline. */
  lemma TranscriptLinesSingle(pre: seq<string>, mid: seq<string>, post: seq<string>)
    requires AllQuiet(pre) && AllPlain(mid) && AllQuiet(post)
    ensures var all := pre + [StartMarker] + mid + [EndMarker] + post;
      forall i :: 0 <= i < |all| ==> '\n' !in all[i]
  {
    var all := pre + [StartMarker] + mid + [EndMarker] + post;
    forall i | 0 <= i < |all| ensures '\n' !in all[i] {
      if i < |pre| { assert all[i] == pre[i]; }
      else if i == |pre| { assert all[i] == StartMarker; }
      else if i < |pre| + 1 + |mid| { assert all[i] == mid[i - |pre| - 1]; }
      else if i == |pre| + 1 + |mid| { assert all[i] == EndMarker; }
      else { assert all[i] == post[i - |pre| - 2 - |mid|]; }
    }
  }

  /** The transcript of the wrapper script, wrapped in whatever the login
      prints before and after it, filters to exactly the three labelled runs,
      provided the runs' own output is plain (no sentinel, no progress noise,
      no tag) and the surroundings never open the window. */
  lemma TranscriptFiltersToReport(pre: seq<string>, o1: seq<string>, o2: seq<string>, o3: seq<string>, post: seq<string>)
    requires AllQuiet(pre) && AllQuiet(post)
    requires AllPlain(o1) && AllPlain(o2) && AllPlain(o3)
    ensures Filter(Terminated(pre + [StartMarker] + Report(o1, o2, o3) + [EndMarker] + post))
      == Terminated(Report(o1, o2, o3))
  {
    var mid := Report(o1, o2, o3);
    ReportPlain(o1, o2, o3);
    TranscriptLinesSingle(pre, mid, post);
    LinesTerminated(pre + [StartMarker] + mid + [EndMarker] + post);
    var tail := post + [""];
    assert AllQuiet(tail) by {
      ShortNotContains("", StartMarker);
      assert forall i :: 0 <= i < |tail| ==> tail[i] == if i < |post| then post[i] else "";
    }
    assert pre + [StartMarker] + mid + [EndMarker] + post + [""] == pre + [StartMarker] + mid + [EndMarker] + tail;
    ScanThroughWindow(pre, mid, tail);
  }

  // ---------------------------------------------------------------------
  // The Terraform path.

  /** The `custom_command` variable: the command's output substituted into a
      single tagged echo. */
  function CustomCommand(cmdToRun: string): string {
    "echo \"" + Tag + " $(" + cmdToRun + ")\""
  }

  /** The line that echo prints for a single line of the command's output. */
  function EchoedLine(out: string): string {
    Tag + " " + out
  }

  /** The tag the echo prints is the one the filter strips. An echoed line
      whose output holds neither sentinel nor the noise is reported inside the
      window as that output after the space that followed the tag, and is
      dropped outside it. */
  lemma CustomCommandTagged(out: string, prior: string)
    requires !IsSentinel(out) && !Contains(out, Noise)
    ensures Step(Scan(true, prior), EchoedLine(out)) == Scan(true, prior + " " + out + "\n")
    ensures Step(Scan(false, prior), EchoedLine(out)) == Scan(false, prior)
  {
    var h := Tag + " ";
    assert EchoedLine(out) == h + out;
    HeadlessContains(h, out, StartMarker);
    HeadlessContains(h, out, EndMarker);
    HeadlessContains(h, out, Noise);
    assert Tag + (" " + out) == h + out;
    StepTagged(prior, " " + out);
    assert prior + (" " + out) + "\n" == prior + " " + out + "\n";
  }
}
