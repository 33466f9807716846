/** The parts of Go's `strings` and `bytes` packages that the CLI relies on,
    over `string` (a sequence of characters). Only the behaviour the CLI
    exercises is modelled: separators and cut sets are never empty there. */
module GoStrings {

  /** `unicode.IsSpace`: the Latin-1 spaces and the other Unicode White_Space characters. */
  predicate IsSpace(c: char) {
    c == ' ' || c == '\t' || c == '\n' || c == '\U{0B}' || c == '\U{0C}' || c == '\r'
    || c == '\U{85}' || c == '\U{A0}' || c == '\U{1680}'
    || ('\U{2000}' <= c <= '\U{200A}')
    || c == '\U{2028}' || c == '\U{2029}' || c == '\U{202F}' || c == '\U{205F}' || c == '\U{3000}'
  }

  /** `strings.HasPrefix` */
  predicate HasPrefix(s: string, prefix: string) {
    |prefix| <= |s| && s[..|prefix|] == prefix
  }

  /** `strings.Contains` / `bytes.Contains`: `sub` occurs somewhere in `s`. */
  predicate Contains(s: string, sub: string)
    decreases |s|
  {
    HasPrefix(s, sub) || (|s| > 0 && Contains(s[1..], sub))
  }

  /** `sub` occurs in `s` starting at index `i`. */
  predicate OccursAt(s: string, sub: string, i: int) {
    0 <= i && i + |sub| <= |s| && s[i..i + |sub|] == sub
  }

  /** A string shorter than `sub` cannot contain it. */
  lemma {:induction false} ShortNotContains(s: string, sub: string)
    requires |s| < |sub|
    ensures !Contains(s, sub)
    decreases |s|
  {
    if |s| > 0 {
      ShortNotContains(s[1..], sub);
    }
  }

  /** A string without the first character of `sub` cannot contain it. */
  lemma {:induction false} FirstCharAbsent(s: string, sub: string)
    requires |sub| > 0 && sub[0] !in s
    ensures !Contains(s, sub)
    decreases |s|
  {
    if |s| > 0 {
      assert s[0] != sub[0];
      FirstCharAbsent(s[1..], sub);
    }
  }

  /** An occurrence of `sub` in `h + s` lies wholly in `s` when `h` lacks
      the first character of `sub`. */
  lemma {:induction false} HeadlessContains(h: string, s: string, sub: string)
    requires |sub| > 0 && sub[0] !in h
    ensures Contains(h + s, sub) ==> Contains(s, sub)
    decreases |h|
  {
    if |h| == 0 {
      assert h + s == s;
    } else {
      assert !HasPrefix(h + s, sub) by {
        assert (h + s)[0] == h[0] != sub[0];
      }
      assert (h + s)[1..] == h[1..] + s;
      HeadlessContains(h[1..], s, sub);
    }
  }

  /** `Contains` agrees with "some window of `s` equals `sub`". */
  lemma {:induction false} ContainsAt(s: string, sub: string)
    ensures Contains(s, sub) <==> exists i :: OccursAt(s, sub, i)
    decreases |s|
  {
    if HasPrefix(s, sub) {
      assert OccursAt(s, sub, 0);
    } else if |s| == 0 {
    } else {
      ContainsAt(s[1..], sub);
      if exists i :: OccursAt(s, sub, i) {
        var i :| OccursAt(s, sub, i);
        assert i != 0;
        assert OccursAt(s[1..], sub, i - 1);
      }
      if Contains(s[1..], sub) {
        var i :| OccursAt(s[1..], sub, i);
        assert OccursAt(s, sub, i + 1);
      }
    }
  }

  /** `strings.Join` */
  function Join(parts: seq<string>, sep: string): string
    decreases |parts|
  {
    if |parts| == 0 then ""
    else if |parts| == 1 then parts[0]
    else parts[0] + sep + Join(parts[1..], sep)
  }

  /** `strings.Split` / `bytes.Split` with a non-empty separator: the pieces
      between the non-overlapping occurrences of `sep`, scanned left to right. */
  function Split(s: string, sep: string): (r: seq<string>)
    requires |sep| > 0
    ensures |r| >= 1
    decreases |s|
  {
    if |s| < |sep| then [s]
    else if s[..|sep|] == sep then [""] + Split(s[|sep|..], sep)
    else
      var rest := Split(s[1..], sep);
      [[s[0]] + rest[0]] + rest[1..]
  }

  lemma JoinConsFirst(c: char, parts: seq<string>, sep: string)
    requires |parts| >= 1
    ensures Join([[c] + parts[0]] + parts[1..], sep) == [c] + Join(parts, sep)
  {
    var q := [[c] + parts[0]] + parts[1..];
    if |parts| > 1 {
      assert q[1..] == parts[1..];
    }
  }

  /** Joining the pieces with the separator gives the string back. */
  lemma {:induction false} JoinSplit(s: string, sep: string)
    requires |sep| > 0
    ensures Join(Split(s, sep), sep) == s
    decreases |s|
  {
    if |s| < |sep| {
    } else if s[..|sep|] == sep {
      var rest := Split(s[|sep|..], sep);
      JoinSplit(s[|sep|..], sep);
      assert ([""] + rest)[1..] == rest;
      assert s == sep + s[|sep|..];
    } else {
      var rest := Split(s[1..], sep);
      JoinSplit(s[1..], sep);
      JoinConsFirst(s[0], rest, sep);
      assert s == [s[0]] + s[1..];
    }
  }

  /** Splitting on a single character: a leading piece free of it comes off whole. */
  lemma {:induction false} SplitCharCons(a: string, c: char, b: string)
    requires c !in a
    ensures Split(a + [c] + b, [c]) == [a] + Split(b, [c])
    decreases |a|
  {
    var s := a + [c] + b;
    if |a| == 0 {
      assert s[..1] == [c];
      assert s[1..] == b;
    } else {
      assert s[..1] != [c] by { assert s[0] == a[0]; }
      assert s[1..] == a[1..] + [c] + b;
      SplitCharCons(a[1..], c, b);
      assert [s[0]] + a[1..] == a;
    }
  }

  /** A string free of the separator character is a single piece. */
  lemma {:induction false} SplitCharNone(a: string, c: char)
    requires c !in a
    ensures Split(a, [c]) == [a]
    decreases |a|
  {
    if |a| >= 1 {
      assert a[..1] != [c] by { assert a[0] != c; }
      SplitCharNone(a[1..], c);
      assert [a[0]] + a[1..] == a;
    }
  }

  /** Splitting a join of separator-free pieces on a single character gives the pieces back. */
  lemma {:induction false} SplitJoinChar(parts: seq<string>, c: char)
    requires |parts| >= 1
    requires forall i :: 0 <= i < |parts| ==> c !in parts[i]
    ensures Split(Join(parts, [c]), [c]) == parts
    decreases |parts|
  {
    if |parts| == 1 {
      SplitCharNone(parts[0], c);
    } else {
      SplitJoinChar(parts[1..], c);
      SplitCharCons(parts[0], c, Join(parts[1..], [c]));
      assert parts == [parts[0]] + parts[1..];
    }
  }

  /** Number of leading characters that are not spaces. */
  function WordLength(s: string): (n: nat)
    ensures n <= |s|
    ensures forall i :: 0 <= i < n ==> !IsSpace(s[i])
    ensures n == |s| || IsSpace(s[n])
    decreases |s|
  {
    if |s| == 0 || IsSpace(s[0]) then 0 else 1 + WordLength(s[1..])
  }

  /** A field of `strings.Fields`: non-empty and free of spaces. */
  predicate IsField(w: string) {
    |w| > 0 && forall i :: 0 <= i < |w| ==> !IsSpace(w[i])
  }

  /** `strings.Fields`: the maximal runs of non-space characters, in order. */
  function Fields(s: string): (r: seq<string>)
    ensures forall i :: 0 <= i < |r| ==> IsField(r[i])
    ensures |r| <= |s|
    decreases |s|
  {
    if |s| == 0 then []
    else if IsSpace(s[0]) then Fields(s[1..])
    else
      var n := WordLength(s);
      [s[..n]] + Fields(s[n..])
  }

  /** A string has no fields exactly when it is all spaces. */
  lemma {:induction false} FieldsEmpty(s: string)
    ensures Fields(s) == [] <==> forall i :: 0 <= i < |s| ==> IsSpace(s[i])
    decreases |s|
  {
    if |s| > 0 && IsSpace(s[0]) {
      FieldsEmpty(s[1..]);
      assert forall i :: 1 <= i < |s| ==> s[1..][i - 1] == s[i];
    }
  }

  lemma {:induction false} FieldsLeadingWord(w: string, rest: string)
    requires IsField(w)
    requires |rest| == 0 || IsSpace(rest[0])
    ensures Fields(w + rest) == [w] + Fields(rest)
  {
    var s := w + rest;
    WordLengthOf(w, rest);
    assert s[..|w|] == w;
    assert s[|w|..] == rest;
  }

  lemma {:induction false} WordLengthOf(w: string, rest: string)
    requires forall i :: 0 <= i < |w| ==> !IsSpace(w[i])
    requires |rest| == 0 || IsSpace(rest[0])
    ensures WordLength(w + rest) == |w|
    decreases |w|
  {
    if |w| > 0 {
      assert (w + rest)[1..] == w[1..] + rest;
      WordLengthOf(w[1..], rest);
    } else {
      assert w + rest == rest;
    }
  }

  /** A leading space starts no field. */
  lemma FieldsSpaceFirst(t: string)
    ensures Fields(" " + t) == Fields(t)
  {
    assert (" " + t)[1..] == t;
  }

  /** Re-splitting fields joined by single spaces gives the same fields. */
  lemma {:induction false} FieldsJoin(ws: seq<string>)
    requires forall i :: 0 <= i < |ws| ==> IsField(ws[i])
    ensures Fields(Join(ws, " ")) == ws
    decreases |ws|
  {
    if |ws| == 1 {
      FieldsLeadingWord(ws[0], "");
      assert ws[0] + "" == ws[0];
    } else if |ws| > 1 {
      var tail := Join(ws[1..], " ");
      calc {
        Fields(Join(ws, " "));
        { assert Join(ws, " ") == ws[0] + " " + tail; }
        Fields(ws[0] + " " + tail);
        { assert ws[0] + " " + tail == ws[0] + (" " + tail); }
        Fields(ws[0] + (" " + tail));
        { FieldsLeadingWord(ws[0], " " + tail); }
        [ws[0]] + Fields(" " + tail);
        { FieldsSpaceFirst(tail); }
        [ws[0]] + Fields(tail);
        { FieldsJoin(ws[1..]); }
        [ws[0]] + ws[1..];
        ws;
      }
    }
  }

  /** `strings.TrimLeftFunc`: drop the leading characters satisfying `cut`. */
  function TrimLeftFunc(s: string, cut: char -> bool): (r: string)
    ensures |r| <= |s| && r == s[|s| - |r|..]
    ensures forall i :: 0 <= i < |s| - |r| ==> cut(s[i])
    ensures r == [] || !cut(r[0])
    decreases |s|
  {
    if |s| > 0 && cut(s[0]) then TrimLeftFunc(s[1..], cut) else s
  }

  /** `strings.TrimRightFunc`: drop the trailing characters satisfying `cut`. */
  function TrimRightFunc(s: string, cut: char -> bool): (r: string)
    ensures |r| <= |s| && r == s[..|r|]
    ensures forall i :: |r| <= i < |s| ==> cut(s[i])
    ensures r == [] || !cut(r[|r| - 1])
    decreases |s|
  {
    if |s| > 0 && cut(s[|s| - 1]) then TrimRightFunc(s[..|s| - 1], cut) else s
  }

  /** `strings.TrimFunc`: a slice of `s` with both ends free of `cut`. */
  function TrimFunc(s: string, cut: char -> bool): (r: string)
  {
    TrimRightFunc(TrimLeftFunc(s, cut), cut)
  }

  /** Trimming twice changes nothing more. */
  lemma TrimFuncIdempotent(s: string, cut: char -> bool)
    ensures TrimFunc(TrimFunc(s, cut), cut) == TrimFunc(s, cut)
  {
    var r := TrimFunc(s, cut);
    var l := TrimLeftFunc(s, cut);
    assert r == [] || !cut(r[0]) by {
      if r != [] {
        assert r == l[..|r|];
      }
    }
    assert TrimLeftFunc(r, cut) == r;
  }

  /** Leading cut characters in front of a text that does not start with
      one are dropped, and nothing else. */
  lemma {:induction false} TrimLeftWrapped(l: string, w: string, cut: char -> bool)
    requires forall i :: 0 <= i < |l| ==> cut(l[i])
    requires w == [] || !cut(w[0])
    ensures TrimLeftFunc(l + w, cut) == w
    decreases |l|
  {
    if |l| == 0 {
      assert l + w == w;
    } else {
      assert (l + w)[0] == l[0];
      assert (l + w)[1..] == l[1..] + w;
      TrimLeftWrapped(l[1..], w, cut);
    }
  }

  /** Trailing cut characters after a text that does not end with one are
      dropped, and nothing else. */
  lemma {:induction false} TrimRightWrapped(w: string, r: string, cut: char -> bool)
    requires forall i :: 0 <= i < |r| ==> cut(r[i])
    requires w == [] || !cut(w[|w| - 1])
    ensures TrimRightFunc(w + r, cut) == w
    decreases |r|
  {
    if |r| == 0 {
      assert w + r == w;
    } else {
      var s := w + r;
      assert s[|s| - 1] == r[|r| - 1];
      assert s[..|s| - 1] == w + r[..|r| - 1];
      TrimRightWrapped(w, r[..|r| - 1], cut);
    }
  }

  /** Trimming removes exactly a wrapper of cut characters around a text
      whose own ends are not cut. */
  lemma TrimFuncWrapped(l: string, w: string, r: string, cut: char -> bool)
    requires forall i :: 0 <= i < |l| ==> cut(l[i])
    requires forall i :: 0 <= i < |r| ==> cut(r[i])
    requires w == [] || (!cut(w[0]) && !cut(w[|w| - 1]))
    ensures TrimFunc(l + w + r, cut) == w
  {
    if w == [] {
      assert l + w + r == l + r;
      TrimLeftWrapped(l + r, [], cut);
      assert l + r + [] == l + r;
      assert TrimRightFunc([], cut) == [];
    } else {
      assert l + w + r == l + (w + r);
      TrimLeftWrapped(l, w + r, cut);
      TrimRightWrapped(w, r, cut);
    }
  }

  /** `strings.TrimSpace` */
  function TrimSpace(s: string): string {
    TrimFunc(s, IsSpace)
  }

  /** `strings.Trim`: strip leading and trailing characters that are in `cutset`. */
  function Trim(s: string, cutset: set<char>): string {
    TrimFunc(s, c => c in cutset)
  }

  /** `strings.Trim` removes exactly a wrapper of cut-set characters around
      a text whose own ends are outside the cut set. */
  lemma TrimSetWrapped(l: string, w: string, r: string, cutset: set<char>)
    requires forall i :: 0 <= i < |l| ==> l[i] in cutset
    requires forall i :: 0 <= i < |r| ==> r[i] in cutset
    requires w == [] || (w[0] !in cutset && w[|w| - 1] !in cutset)
    ensures Trim(l + w + r, cutset) == w
  {
    TrimFuncWrapped(l, w, r, c => c in cutset);
  }

  /** `bytes.Replace(s, pat, repl, 1)`: replace the first occurrence of `pat` only. */
  function ReplaceFirst(s: string, pat: string, repl: string): string
    decreases |s|
  {
    if HasPrefix(s, pat) then repl + s[|pat|..]
    else if |s| == 0 then s
    else [s[0]] + ReplaceFirst(s[1..], pat, repl)
  }

  /** Without an occurrence, nothing is replaced. */
  lemma {:induction false} ReplaceFirstAbsent(s: string, pat: string, repl: string)
    requires !Contains(s, pat)
    ensures ReplaceFirst(s, pat, repl) == s
    decreases |s|
  {
    if |s| > 0 {
      ReplaceFirstAbsent(s[1..], pat, repl);
      assert [s[0]] + s[1..] == s;
    }
  }

  /** Replacement at the first occurrence: the text before it is kept, the
      text after it is kept verbatim, later occurrences included. */
  lemma {:induction false} ReplaceFirstAt(p: string, pat: string, q: string, repl: string)
    requires |pat| > 0 && !Contains(p + pat[..|pat| - 1], pat)
    ensures ReplaceFirst(p + pat + q, pat, repl) == p + repl + q
    decreases |p|
  {
    var s := p + pat + q;
    if |p| == 0 {
      assert s == pat + q;
      assert HasPrefix(s, pat) by {
        assert s[..|pat|] == pat;
      }
      assert s[|pat|..] == q;
    } else {
      var x := p + pat[..|pat| - 1];
      assert !HasPrefix(s, pat) by {
        assert !HasPrefix(x, pat);
        assert s[..|pat|] == x[..|pat|];
      }
      assert !Contains(x[1..], pat);
      assert x[1..] == p[1..] + pat[..|pat| - 1];
      ReplaceFirstAt(p[1..], pat, q, repl);
      assert s[1..] == p[1..] + pat + q;
      calc {
        ReplaceFirst(s, pat, repl);
        [s[0]] + ReplaceFirst(s[1..], pat, repl);
        [p[0]] + (p[1..] + repl + q);
        { assert [p[0]] + p[1..] == p; }
        p + repl + q;
      }
    }
  }
}
