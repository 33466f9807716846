/** `filterOutput` (cli/main.go:77-108): keep the lines between the
    benchmark sentinels, drop progress noise, and remove the remote-output tag. */
module OutputFilter {
  import opened GoStrings

  const StartMarker: string := "BENCHMARK_START"
  const EndMarker: string := "BENCHMARK_END"
  const Noise: string := "Still creating"
  const Tag: string := "Remote-Output:"

  /** The loop's variables: the capture flag and the output built so far. */
  datatype Scan = Scan(capture: bool, out: string)

  const Initial: Scan := Scan(false, "")

  /** A captured line, with the first occurrence of the tag removed if it has one. */
  function StripTag(line: string): string {
    if Contains(line, Tag) then ReplaceFirst(line, Tag, "") else line
  }

  /** One iteration of the loop body. */
  function Step(st: Scan, line: string): Scan {
    if Contains(line, StartMarker) then Scan(true, st.out)
    else if Contains(line, EndMarker) then Scan(false, st.out)
    else if Contains(line, Noise) then st
    else if st.capture then Scan(true, st.out + StripTag(line) + "\n")
    else st
  }

  /** The loop's variables after it has consumed `lines`, starting from `st`. */
  function ScanFrom(st: Scan, lines: seq<string>): Scan
    decreases |lines|
  {
    if |lines| == 0 then st
    else Step(ScanFrom(st, lines[..|lines| - 1]), lines[|lines| - 1])
  }

  /** `bytes.Split(output, "\n")` */
  function Lines(output: string): seq<string> {
    Split(output, "\n")
  }

  /** What `filterOutput` returns. */
  function Filter(output: string): string {
    ScanFrom(Initial, Lines(output)).out
  }

  method FilterOutput(output: string) returns (filtered: string)
    ensures filtered == Filter(output)
  {
    var lines := Split(output, "\n");
    filtered := [];
    var capture := false;
    for i := 0 to |lines|
      invariant ScanFrom(Initial, lines[..i]) == Scan(capture, filtered)
    {
      var line := lines[i];
      assert lines[..i + 1][..i] == lines[..i];
      if Contains(line, StartMarker) {
        capture := true;
        continue;
      }
      if Contains(line, EndMarker) {
        capture := false;
        continue;
      }
      if Contains(line, Noise) {
        continue;
      }
      if capture {
        if Contains(line, Tag) {
          line := ReplaceFirst(line, Tag, "");
        }
        filtered := filtered + line;
        filtered := filtered + "\n";
      }
    }
    assert lines[..|lines|] == lines;
  }

  // ---------------------------------------------------------------------
  // A reference description of the output, line by line.

  predicate IsSentinel(line: string) {
    Contains(line, StartMarker) || Contains(line, EndMarker)
  }

  /** Capturing is on when line `i` is reached: some earlier line holds the
      start marker, and no line since then holds either sentinel. A line
      holding both counts as a start, since the start test comes first. */
  ghost predicate OpenBefore(lines: seq<string>, i: int)
    requires 0 <= i <= |lines|
  {
    exists j :: 0 <= j < i && Contains(lines[j], StartMarker)
      && forall k :: j < k < i ==> !IsSentinel(lines[k])
  }

  /** Line `i` reaches the output. */
  ghost predicate Emitted(lines: seq<string>, i: int)
    requires 0 <= i < |lines|
  {
    OpenBefore(lines, i) && !IsSentinel(lines[i]) && !Contains(lines[i], Noise)
  }

  /** The emitted lines among the first `n`, in input order, with the tag stripped. */
  ghost function EmittedLines(lines: seq<string>, n: nat): seq<string>
    requires n <= |lines|
  {
    if n == 0 then []
    else EmittedLines(lines, n - 1) + (if Emitted(lines, n - 1) then [StripTag(lines[n - 1])] else [])
  }

  /** Each line followed by one newline. */
  function Terminated(ls: seq<string>): string
    decreases |ls|
  {
    if |ls| == 0 then "" else Terminated(ls[..|ls| - 1]) + ls[|ls| - 1] + "\n"
  }

  /** The loop state after `n` lines is the reference description. */
  lemma {:induction false} ScanIsReference(lines: seq<string>, n: nat)
    requires n <= |lines|
    ensures ScanFrom(Initial, lines[..n]) == Scan(OpenBefore(lines, n), Terminated(EmittedLines(lines, n)))
  {
    if n > 0 {
      var m := n - 1;
      ScanIsReference(lines, m);
      assert lines[..n][..m] == lines[..m];
      var line := lines[m];
      var before := ScanFrom(Initial, lines[..m]);
      assert ScanFrom(Initial, lines[..n]) == Step(before, line);
      var prev := EmittedLines(lines, m);
      if IsSentinel(line) || Contains(line, Noise) {
        assert !Emitted(lines, m);
        assert EmittedLines(lines, n) == prev + [];
        assert prev + [] == prev;
      }
      if Contains(line, StartMarker) {
        assert OpenBefore(lines, n) by {
          assert Contains(lines[m], StartMarker);
        }
      } else if Contains(line, EndMarker) {
        assert !OpenBefore(lines, n) by {
          if OpenBefore(lines, n) {
            var j :| 0 <= j < n && Contains(lines[j], StartMarker)
              && forall k :: j < k < n ==> !IsSentinel(lines[k]);
            assert false;
          }
        }
      } else {
        assert OpenBefore(lines, n) == OpenBefore(lines, m) by {
          if OpenBefore(lines, n) {
            var j :| 0 <= j < n && Contains(lines[j], StartMarker)
              && forall k :: j < k < n ==> !IsSentinel(lines[k]);
            assert j != m;
            assert forall k :: j < k < m ==> !IsSentinel(lines[k]);
          }
          if OpenBefore(lines, m) {
            var j :| 0 <= j < m && Contains(lines[j], StartMarker)
              && forall k :: j < k < m ==> !IsSentinel(lines[k]);
            assert forall k :: j < k < n ==> !IsSentinel(lines[k]);
          }
        }
        if !Contains(line, Noise) {
          if OpenBefore(lines, m) {
            assert Emitted(lines, m);
            assert EmittedLines(lines, n) == prev + [StripTag(line)];
            var ls := prev + [StripTag(line)];
            assert ls[..|ls| - 1] == prev;
          } else {
            assert !Emitted(lines, m);
            assert EmittedLines(lines, n) == prev + [];
            assert prev + [] == prev;
          }
        }
      }
    }
  }

  /** The output of `filterOutput` is exactly the emitted lines, each followed by a newline. */
  lemma FilterIsReference(output: string)
    ensures Filter(output) == Terminated(EmittedLines(Lines(output), |Lines(output)|))
  {
    var lines := Lines(output);
    ScanIsReference(lines, |lines|);
    assert lines[..|lines|] == lines;
  }

  /** At most one output line per input line, and every output line comes from
      an input line holding neither sentinel nor the noise text. */
  lemma {:induction false} EmittedLinesOrigin(lines: seq<string>, n: nat)
    requires n <= |lines|
    ensures |EmittedLines(lines, n)| <= n
    ensures forall e :: e in EmittedLines(lines, n) ==>
      exists i :: 0 <= i < n && Emitted(lines, i) && e == StripTag(lines[i])
        && !Contains(lines[i], StartMarker) && !Contains(lines[i], EndMarker) && !Contains(lines[i], Noise)
  {
    if n > 0 {
      EmittedLinesOrigin(lines, n - 1);
    }
  }

  lemma {:induction false} NoneEmitted(lines: seq<string>, n: nat)
    requires n <= |lines|
    requires forall i :: 0 <= i < n ==> !Emitted(lines, i)
    ensures EmittedLines(lines, n) == []
  {
    if n > 0 {
      NoneEmitted(lines, n - 1);
    }
  }

  /** Without a line holding the start marker nothing is emitted. */
  lemma NoStartNoOutput(output: string)
    requires forall i :: 0 <= i < |Lines(output)| ==> !Contains(Lines(output)[i], StartMarker)
    ensures Filter(output) == ""
  {
    var lines := Lines(output);
    FilterIsReference(output);
    assert forall i :: 0 <= i < |lines| ==> !OpenBefore(lines, i);
    NoneEmitted(lines, |lines|);
  }

  lemma TerminatedEnd(ls: seq<string>)
    ensures Terminated(ls) == "" || Terminated(ls)[|Terminated(ls)| - 1] == '\n'
  {
  }

  /** The output is empty or ends with a newline. */
  lemma FilterEndsWithNewline(output: string)
    ensures var r := Filter(output); r == "" || r[|r| - 1] == '\n'
  {
    FilterIsReference(output);
    TerminatedEnd(EmittedLines(Lines(output), |Lines(output)|));
  }

  /** The tag is removed only once, and what follows it (a space included) is kept. */
  lemma StripTagKeepsRest(rest: string)
    ensures StripTag(Tag + rest) == rest
  {
    assert HasPrefix(Tag + rest, Tag);
  }

  /** Only the first tag is removed, wherever it is in the line: the text
      around it, later tags included, is kept. */
  lemma StripTagFirst(p: string, q: string)
    requires !Contains(p + Tag[..|Tag| - 1], Tag)
    ensures StripTag(p + Tag + q) == p + q
  {
    var s := p + Tag + q;
    ContainsAt(s, Tag);
    assert OccursAt(s, Tag, |p|);
    ReplaceFirstAt(p, Tag, q, "");
    assert p + "" + q == p + q;
  }

  // ---------------------------------------------------------------------
  // Runs of lines.

  /** Consuming lines one run after another. */
  lemma {:induction false} ScanFromAppend(st: Scan, a: seq<string>, b: seq<string>)
    ensures ScanFrom(st, a + b) == ScanFrom(ScanFrom(st, a), b)
    decreases |b|
  {
    if |b| == 0 {
      assert a + b == a;
    } else {
      ScanFromAppend(st, a, b[..|b| - 1]);
      assert (a + b)[..|a + b| - 1] == a + b[..|b| - 1];
    }
  }

  /** While not capturing, lines without the start marker change nothing. */
  lemma {:induction false} ScanIdle(out: string, lines: seq<string>)
    requires forall i :: 0 <= i < |lines| ==> !Contains(lines[i], StartMarker)
    ensures ScanFrom(Scan(false, out), lines) == Scan(false, out)
    decreases |lines|
  {
    if |lines| > 0 {
      ScanIdle(out, lines[..|lines| - 1]);
    }
  }

  /** A line the filter passes through unchanged while capturing. */
  predicate Plain(line: string) {
    !IsSentinel(line) && !Contains(line, Noise) && !Contains(line, Tag)
  }

  /** While capturing, plain lines are copied out, each with a newline. */
  lemma {:induction false} ScanCapturing(out: string, lines: seq<string>)
    requires forall i :: 0 <= i < |lines| ==> Plain(lines[i])
    ensures ScanFrom(Scan(true, out), lines) == Scan(true, out + Terminated(lines))
    decreases |lines|
  {
    if |lines| > 0 {
      ScanCapturing(out, lines[..|lines| - 1]);
    }
  }

  // ---------------------------------------------------------------------
  // Worked inputs.

  lemma WindowLines(a: string, b: string, c: string)
    requires '\n' !in a && '\n' !in b && '\n' !in c
    ensures Lines(StartMarker + "\n" + a + "\n" + Tag + b + "\n" + EndMarker + "\n" + c)
      == [StartMarker, a, Tag + b, EndMarker, c]
  {
    var ls := [StartMarker, a, Tag + b, EndMarker, c];
    var t3 := EndMarker + "\n" + c;
    var t2 := Tag + b + "\n" + t3;
    var t1 := a + "\n" + t2;
    assert Join(ls[3..], "\n") == t3 by {
      assert ls[3..][1..] == [c];
    }
    assert Join(ls[2..], "\n") == t2 by {
      assert ls[2..][1..] == ls[3..];
    }
    assert Join(ls[1..], "\n") == t1 by {
      assert ls[1..][1..] == ls[2..];
    }
    assert Join(ls, "\n") == StartMarker + "\n" + t1;
    assert StartMarker + "\n" + t1 == StartMarker + "\n" + a + "\n" + Tag + b + "\n" + EndMarker + "\n" + c;
    assert forall i :: 0 <= i < |ls| ==> '\n' !in ls[i] by {
      assert '\n' !in Tag + b;
    }
    SplitJoinChar(ls, '\n');
  }

  lemma StepStart(st: Scan)
    ensures Step(st, StartMarker) == Scan(true, st.out)
  {
    assert HasPrefix(StartMarker, StartMarker);
  }

  lemma StepEnd(st: Scan)
    ensures Step(st, EndMarker) == Scan(false, st.out)
  {
    ShortNotContains(EndMarker, StartMarker);
    assert HasPrefix(EndMarker, EndMarker);
  }

  lemma StepTagged(out: string, b: string)
    requires !IsSentinel(Tag + b) && !Contains(Tag + b, Noise)
    ensures Step(Scan(true, out), Tag + b) == Scan(true, out + b + "\n")
  {
    StripTagKeepsRest(b);
  }

  /** Consuming one more line. */
  lemma ScanFromSnoc(st: Scan, ls: seq<string>, x: string)
    ensures ScanFrom(st, ls + [x]) == Step(ScanFrom(st, ls), x)
  {
    assert (ls + [x])[..|ls|] == ls;
  }

  /** The sentinel window around a plain line and a tagged line: the tag is
      removed with whatever follows it kept, and everything after the end
      sentinel is dropped. */
  lemma FilterWindow(a: string, b: string, c: string)
    requires Plain(a) && '\n' !in a
    requires !IsSentinel(Tag + b) && !Contains(Tag + b, Noise) && '\n' !in b
    requires !Contains(c, StartMarker) && '\n' !in c
    ensures Filter(StartMarker + "\n" + a + "\n" + Tag + b + "\n" + EndMarker + "\n" + c) == a + "\n" + b + "\n"
  {
    var w := [StartMarker, a, Tag + b, EndMarker];
    WindowLines(a, b, c);
    ScanWindowClosed(a, b);
    ScanThenIdle(w, c, Scan(false, a + "\n" + b + "\n"));
    assert w + [c] == [StartMarker, a, Tag + b, EndMarker, c];
  }

  lemma ScanWindowOpen(a: string)
    requires Plain(a)
    ensures ScanFrom(Initial, [StartMarker, a]) == Scan(true, a + "\n")
  {
    assert ScanFrom(Initial, [StartMarker]) == Scan(true, "") by {
      ScanFromSnoc(Initial, [], StartMarker);
      StepStart(Initial);
      assert [] + [StartMarker] == [StartMarker];
    }
    assert ScanFrom(Initial, [StartMarker, a]) == Step(Scan(true, ""), a) by {
      ScanFromSnoc(Initial, [StartMarker], a);
      assert [StartMarker] + [a] == [StartMarker, a];
    }
    StepPlain("", a);
    assert Step(Scan(true, ""), a) == Scan(true, a + "\n");
  }

  lemma ScanWindowTagged(a: string, b: string)
    requires Plain(a)
    requires !IsSentinel(Tag + b) && !Contains(Tag + b, Noise)
    ensures ScanFrom(Initial, [StartMarker, a, Tag + b]) == Scan(true, a + "\n" + b + "\n")
  {
    var st := Scan(true, a + "\n");
    assert ScanFrom(Initial, [StartMarker, a]) == st by { ScanWindowOpen(a); }
    assert ScanFrom(Initial, [StartMarker, a, Tag + b]) == Step(st, Tag + b) by {
      ScanFromSnoc(Initial, [StartMarker, a], Tag + b);
      assert [StartMarker, a] + [Tag + b] == [StartMarker, a, Tag + b];
    }
    StepTagged(a + "\n", b);
  }

  lemma ScanWindowClosed(a: string, b: string)
    requires Plain(a)
    requires !IsSentinel(Tag + b) && !Contains(Tag + b, Noise)
    ensures ScanFrom(Initial, [StartMarker, a, Tag + b, EndMarker]) == Scan(false, a + "\n" + b + "\n")
  {
    var st := Scan(true, a + "\n" + b + "\n");
    assert ScanFrom(Initial, [StartMarker, a, Tag + b]) == st by { ScanWindowTagged(a, b); }
    assert ScanFrom(Initial, [StartMarker, a, Tag + b, EndMarker]) == Step(st, EndMarker) by {
      ScanFromSnoc(Initial, [StartMarker, a, Tag + b], EndMarker);
      assert [StartMarker, a, Tag + b] + [EndMarker] == [StartMarker, a, Tag + b, EndMarker];
    }
    StepEnd(st);
  }

  /** A line without the start marker after a closed window adds nothing. */
  lemma ScanThenIdle(w: seq<string>, c: string, st: Scan)
    requires ScanFrom(Initial, w) == st && !st.capture && !Contains(c, StartMarker)
    ensures ScanFrom(Initial, w + [c]) == st
  {
    ScanFromSnoc(Initial, w, c);
    StepIdle(st.out, c);
  }

  lemma StepIdle(out: string, c: string)
    requires !Contains(c, StartMarker)
    ensures Step(Scan(false, out), c) == Scan(false, out)
  {
  }

  lemma StepPlain(out: string, a: string)
    requires Plain(a)
    ensures Step(Scan(true, out), a) == Scan(true, out + a + "\n")
  {
  }

  /** A line holding both sentinels starts capturing, whatever the state:
      the start test comes first. */
  lemma StartBeforeEnd(st: Scan, line: string)
    requires Contains(line, StartMarker) && Contains(line, EndMarker)
    ensures Step(st, line) == Scan(true, st.out)
  {
  }

}
