/** Cutting process output into lines: `re.split(r"[\r\n]+", text)`, the
    non-empty pieces of it, and the partial-line buffering that the process
    runner builds on it. The lemmas here say that buffering a trailing partial
    line makes the lines a reader sees independent of how the output was cut
    into chunks. */
module TextLines {

  predicate IsBreak(c: char) { c == '\r' || c == '\n' }

  predicate NoBreak(s: string) { forall i :: 0 <= i < |s| ==> !IsBreak(s[i]) }

  function Last<T>(xs: seq<T>): T
    requires |xs| >= 1
  {
    xs[|xs| - 1]
  }

  function AllButLast<T>(xs: seq<T>): seq<T>
    requires |xs| >= 1
  {
    xs[..|xs| - 1]
  }

  /** The index of the first line break at or after `i`, or `|s|` if there is none. */
  function NextBreak(s: string, i: nat): (k: nat)
    requires i <= |s|
    ensures i <= k <= |s|
    ensures forall j :: i <= j < k ==> !IsBreak(s[j])
    ensures k < |s| ==> IsBreak(s[k])
    decreases |s| - i
  {
    if i == |s| || IsBreak(s[i]) then i else NextBreak(s, i + 1)
  }

  /** The index just past the run of line breaks that starts at `i`. */
  function RunEnd(s: string, i: nat): (k: nat)
    requires i <= |s|
    ensures i <= k <= |s|
    ensures forall j :: i <= j < k ==> IsBreak(s[j])
    ensures k < |s| ==> !IsBreak(s[k])
    decreases |s| - i
  {
    if i < |s| && IsBreak(s[i]) then RunEnd(s, i + 1) else i
  }

  /** `re.split(r"[\r\n]+", s)`: the pieces between maximal runs of CR/LF
      characters. A run at the start or at the end yields an empty first or
      last piece, and the empty text yields one empty piece. */
  function Split(s: string): (parts: seq<string>)
    ensures |parts| >= 1
    ensures forall k :: 0 <= k < |parts| ==> NoBreak(parts[k])
    decreases |s|
  {
    var i := NextBreak(s, 0);
    if i == |s| then [s] else [s[..i]] + Split(s[RunEnd(s, i)..])
  }

  /** The non-empty pieces, in their order. */
  function NonEmpty(parts: seq<string>): (r: seq<string>)
    ensures |r| <= |parts|
    ensures forall k :: 0 <= k < |r| ==> r[k] != "" && r[k] in parts
  {
    if parts == [] then []
    else NonEmpty(AllButLast(parts)) + (if Last(parts) != "" then [Last(parts)] else [])
  }

  /** The lines of `s`: the non-empty pieces of its split. */
  function Lines(s: string): seq<string>
  {
    NonEmpty(Split(s))
  }

  /** The partial line a reader keeps after reading `s`: the last piece when `s`
      ends in something other than a line break, and "" otherwise. */
  function Kept(s: string): string
  {
    if s != [] && !IsBreak(s[|s| - 1]) then Last(Split(s)) else ""
  }

  /** The lines a reader hands on after reading `s`: the non-empty pieces,
      without the last one when that one is kept. */
  function Emitted(s: string): seq<string>
  {
    var parts := Split(s);
    NonEmpty(if Kept(s) != "" then AllButLast(parts) else parts)
  }

  // ---------------------------------------------------------------------------
  // Lemmas

  lemma {:induction false} NonEmptyAppend(a: seq<string>, b: seq<string>)
    ensures NonEmpty(a + b) == NonEmpty(a) + NonEmpty(b)
    decreases |b|
  {
    if b == [] {
      assert a + b == a;
    } else {
      assert AllButLast(a + b) == a + AllButLast(b);
      NonEmptyAppend(a, AllButLast(b));
    }
  }

  lemma NextBreakIs(s: string, i: nat, k: nat)
    requires i <= k <= |s|
    requires forall j :: i <= j < k ==> !IsBreak(s[j])
    requires k < |s| ==> IsBreak(s[k])
    ensures NextBreak(s, i) == k
  {
  }

  lemma RunEndIs(s: string, i: nat, k: nat)
    requires i <= k <= |s|
    requires forall j :: i <= j < k ==> IsBreak(s[j])
    requires k < |s| ==> !IsBreak(s[k])
    ensures RunEnd(s, i) == k
  {
  }

  lemma SplitNoBreak(s: string)
    requires NoBreak(s)
    ensures Split(s) == [s]
  {
    NextBreakIs(s, 0, |s|);
  }

  /** Where a break run is followed by more text, the split continues with
      the split of that text. */
  lemma SplitAtRun(s: string)
    requires NextBreak(s, 0) < |s|
    ensures RunEnd(s, NextBreak(s, 0)) > NextBreak(s, 0)
    ensures Split(s) == [s[..NextBreak(s, 0)]] + Split(s[RunEnd(s, NextBreak(s, 0))..])
  {
  }

  /** `t` ends `s` and is either all of `s` or preceded by a line break. */
  predicate EndsAfterBreak(s: string, t: string)
  {
    |t| <= |s| && s[|s| - |t|..] == t && (|t| == |s| || IsBreak(s[|s| - |t| - 1]))
  }

  /** The last piece is a suffix of `s` that is either all of `s` or preceded
      by a line break. */
  lemma {:induction false} LastPieceIsSuffix(s: string)
    ensures EndsAfterBreak(s, Last(Split(s)))
    decreases |s|
  {
    var i := NextBreak(s, 0);
    if i < |s| {
      var j := RunEnd(s, i);
      LastPieceIsSuffix(s[j..]);
      LastPieceAtRun(s);
      BreakSuffixOfTail(s, j, Last(Split(s[j..])));
    } else {
      assert Split(s) == [s];
      assert s[0..] == s;
    }
  }

  /** Past the first break run, the last piece is that of the rest. */
  lemma LastPieceAtRun(s: string)
    requires NextBreak(s, 0) < |s|
    ensures var j := RunEnd(s, NextBreak(s, 0));
      0 < j && IsBreak(s[j - 1]) && Last(Split(s)) == Last(Split(s[j..]))
  {
    SplitAtRun(s);
    var i := NextBreak(s, 0);
    LastOfCons(s[..i], Split(s[RunEnd(s, i)..]));
  }

  lemma LastOfCons<T>(x: T, xs: seq<T>)
    requires |xs| >= 1
    ensures Last([x] + xs) == Last(xs)
  {
  }

  /** A suffix of `s[j..]` that is all of it or follows a break is such a
      suffix of `s` too, when `s[j - 1]` is a break. */
  lemma BreakSuffixOfTail(s: string, j: nat, t: string)
    requires 0 < j <= |s| && IsBreak(s[j - 1])
    requires EndsAfterBreak(s[j..], t)
    ensures EndsAfterBreak(s, t)
  {
    var r := s[j..];
    assert s[|s| - |t|..] == r[|r| - |t|..];
    if |t| < |r| {
      assert s[|s| - |t| - 1] == r[|r| - |t| - 1];
    }
  }

  /** A text that ends in a line break (or is empty) has an empty last piece. */
  lemma LastPieceAfterBreak(s: string)
    requires s == [] || IsBreak(s[|s| - 1])
    ensures Last(Split(s)) == ""
  {
    if s == [] {
      NextBreakIs(s, 0, 0);
    } else {
      LastPieceIsSuffix(s);
      var t := Last(Split(s));
      assert NoBreak(t);
    }
  }

  /** The kept text has no line break; it is non-empty exactly when `s` ends in
      a character other than CR or LF, and then it is what follows the last
      run of line breaks in `s` (or all of `s` when there is none). */
  lemma KeptIsTrailingPartialLine(s: string)
    ensures NoBreak(Kept(s))
    ensures Kept(s) != "" <==> (s != [] && !IsBreak(s[|s| - 1]))
    ensures var t := Kept(s);
      t != "" ==> |t| <= |s| && s == s[..|s| - |t|] + t && (|t| == |s| || IsBreak(s[|s| - |t| - 1]))
  {
    if s != [] && !IsBreak(s[|s| - 1]) {
      LastPieceIsSuffix(s);
      var t := Last(Split(s));
      assert s == s[..|s| - |t|] + s[|s| - |t|..];
    }
  }

  /** Emitted lines are non-empty and contain no CR or LF. */
  lemma EmittedAreLines(s: string)
    ensures forall k :: 0 <= k < |Emitted(s)| ==> Emitted(s)[k] != "" && NoBreak(Emitted(s)[k])
  {
    var parts := Split(s);
    var src := if Kept(s) != "" then AllButLast(parts) else parts;
    forall k | 0 <= k < |Emitted(s)|
      ensures Emitted(s)[k] != "" && NoBreak(Emitted(s)[k])
    {
      var x := Emitted(s)[k];
      assert x in src;
      var m :| 0 <= m < |src| && src[m] == x;
      assert x == parts[m];
    }
  }

  /** A run of breaks that ends `a` continues into the leading run of `b`. */
  lemma RunAcrossJoin(a: string, b: string, i: nat)
    requires i <= |a| && forall m :: i <= m < |a| ==> IsBreak(a[m])
    ensures var s := a + b; var jb := RunEnd(b, 0);
      && (forall m :: i <= m < |a| + jb ==> IsBreak(s[m]))
      && (|a| + jb < |s| ==> !IsBreak(s[|a| + jb]))
  {
    var s := a + b;
    var jb := RunEnd(b, 0);
    forall m | i <= m < |a| + jb
      ensures IsBreak(s[m])
    {
      if m < |a| {
        assert s[m] == a[m];
      } else {
        assert s[m] == b[m - |a|];
      }
    }
    if |a| + jb < |s| {
      assert s[|a| + jb] == b[jb];
    }
  }

  lemma SplitJoinedAfterRun(a: string, b: string)
    requires NextBreak(a, 0) < |a| && RunEnd(a, NextBreak(a, 0)) == |a|
    ensures var i := NextBreak(a, 0);
      Split(a + b) == [a[..i]] + Split(b[RunEnd(b, 0)..])
  {
    var i := NextBreak(a, 0);
    var jb := RunEnd(b, 0);
    var s := a + b;
    JoinedRun(a, b);
    SplitAtRunIs(s, i, |a| + jb);
    assert s[..i] == a[..i];
    assert s[|a| + jb..] == b[jb..];
  }

  /** Where `a` ends in its first break run, that run in `a + b` reaches
      through the leading run of `b`. */
  lemma JoinedRun(a: string, b: string)
    requires NextBreak(a, 0) < |a| && RunEnd(a, NextBreak(a, 0)) == |a|
    ensures var i := NextBreak(a, 0);
      NextBreak(a + b, 0) == i && RunEnd(a + b, i) == |a| + RunEnd(b, 0)
  {
    var i := NextBreak(a, 0);
    NextBreakIs(a + b, 0, i);
    RunAcrossJoin(a, b, i);
    RunEndIs(a + b, i, |a| + RunEnd(b, 0));
  }

  lemma SplitAtRunIs(s: string, i: nat, j: nat)
    requires i < |s| && NextBreak(s, 0) == i && RunEnd(s, i) == j
    ensures Split(s) == [s[..i]] + Split(s[j..])
  {
    SplitAtRun(s);
  }

  lemma SplitJoinedBeforeRunEnd(a: string, b: string)
    requires NextBreak(a, 0) < |a| && RunEnd(a, NextBreak(a, 0)) < |a|
    ensures var i := NextBreak(a, 0);
      var j := RunEnd(a, i);
      Split(a + b) == [a[..i]] + Split(a[j..] + b)
  {
    var i := NextBreak(a, 0);
    var j := RunEnd(a, i);
    var s := a + b;
    NextBreakIs(s, 0, i);
    RunEndIs(s, i, j);
    assert s[..i] == a[..i];
    assert s[j..] == a[j..] + b;
  }

  /** A leading run of line breaks adds nothing but an empty piece. */
  lemma LinesSkipLeadingRun(b: string)
    ensures Lines(b) == Lines(b[RunEnd(b, 0)..])
  {
    var jb := RunEnd(b, 0);
    if jb > 0 {
      NextBreakIs(b, 0, 0);
      assert Split(b) == [b[..0]] + Split(b[jb..]);
      NonEmptyAppend([""], Split(b[jb..]));
    }
  }

  /** The lines of `a + b`: the complete lines of `a`, then the lines of the
      last piece of `a` continued by `b`. */
  lemma {:induction false} LinesAppend(a: string, b: string)
    ensures Lines(a + b) == NonEmpty(AllButLast(Split(a))) + Lines(Last(Split(a)) + b)
    decreases |a|
  {
    var i := NextBreak(a, 0);
    if i == |a| {
      assert Split(a) == [a];
    } else if RunEnd(a, i) < |a| {
      var r := a[RunEnd(a, i)..];
      LinesAppend(r, b);
      LinesAppendInside(a, b, r);
    } else {
      LinesAppendAtEnd(a, b);
    }
  }

  /** `a` has a complete line followed by more text `r`: the lines of `a + b`
      are that line, then those of `r + b`. */
  lemma LinesAppendInside(a: string, b: string, r: string)
    requires NextBreak(a, 0) < |a| && RunEnd(a, NextBreak(a, 0)) < |a|
    requires r == a[RunEnd(a, NextBreak(a, 0))..]
    requires Lines(r + b) == NonEmpty(AllButLast(Split(r))) + Lines(Last(Split(r)) + b)
    ensures Lines(a + b) == NonEmpty(AllButLast(Split(a))) + Lines(Last(Split(a)) + b)
  {
    var x := a[..NextBreak(a, 0)];
    SplitAtRun(a);
    SplitJoinedBeforeRunEnd(a, b);
    ConsFold(x, Split(r), Split(r + b), Lines(Last(Split(r)) + b));
  }

  /** Putting one piece in front of both a split and its continuation. */
  lemma ConsFold(x: string, pr: seq<string>, prb: seq<string>, rest: seq<string>)
    requires |pr| >= 1
    requires NonEmpty(prb) == NonEmpty(AllButLast(pr)) + rest
    ensures NonEmpty([x] + prb) == NonEmpty(AllButLast([x] + pr)) + rest
    ensures Last([x] + pr) == Last(pr)
  {
    assert AllButLast([x] + pr) == [x] + AllButLast(pr);
    NonEmptyAppend([x], prb);
    NonEmptyAppend([x], AllButLast(pr));
  }

  /** `a` ends in a run of breaks after its first line: the lines of `a + b`
      are that line, then those of `b`. */
  lemma LinesAppendAtEnd(a: string, b: string)
    requires NextBreak(a, 0) < |a| && RunEnd(a, NextBreak(a, 0)) == |a|
    ensures Lines(a + b) == NonEmpty(AllButLast(Split(a))) + Lines(Last(Split(a)) + b)
  {
    var x := a[..NextBreak(a, 0)];
    SplitEndsInRun(a);
    SplitJoinedAfterRun(a, b);
    LinesSkipLeadingRun(b);
    NonEmptyAppend([x], Split(b[RunEnd(b, 0)..]));
    assert AllButLast([x, ""]) == [x];
    assert Last([x, ""]) + b == b;
  }

  /** A text whose first break run reaches its end splits into its first line
      and an empty piece. */
  lemma SplitEndsInRun(a: string)
    requires NextBreak(a, 0) < |a| && RunEnd(a, NextBreak(a, 0)) == |a|
    ensures Split(a) == [a[..NextBreak(a, 0)], ""]
  {
    SplitAtRun(a);
    var r := a[RunEnd(a, NextBreak(a, 0))..];
    assert r == "";
    NextBreakIs(r, 0, 0);
    assert Split(r) == [""];
  }

  /** Streaming: reading `s` and then `c` on top of the kept partial line
      gives the same lines as reading `s + c` at once. */
  lemma ChunkBoundaryIrrelevant(s: string, c: string)
    ensures Lines(s + c) == Emitted(s) + Lines(Kept(s) + c)
  {
    LinesAppend(s, c);
    var parts := Split(s);
    KeptIsTrailingPartialLine(s);
    if Kept(s) == "" {
      LastPieceAfterBreak(s);
      assert parts == AllButLast(parts) + [Last(parts)];
      NonEmptyAppend(AllButLast(parts), [Last(parts)]);
      assert NonEmpty([Last(parts)]) == [];
      assert Kept(s) + c == c;
      assert Last(parts) + c == c;
    }
  }

  /** The emitted lines followed by the kept partial line (if any) are exactly
      the lines of the text read. */
  lemma EmittedThenKept(s: string)
    ensures Emitted(s) + (if Kept(s) != "" then [Kept(s)] else []) == Lines(s)
  {
    ChunkBoundaryIrrelevant(s, "");
    assert s + "" == s;
    var t := Kept(s);
    assert t + "" == t;
    KeptIsTrailingPartialLine(s);
    SplitNoBreak(t);
    assert NonEmpty([t]) == (if t != "" then [t] else []);
  }

  /** A text without line breaks is one line, or none when it is empty. */
  lemma LinesOfLine(t: string)
    requires NoBreak(t)
    ensures Lines(t) == if t == "" then [] else [t]
  {
    SplitNoBreak(t);
    assert NonEmpty([t]) == NonEmpty([]) + (if t != "" then [t] else []);
  }

  /** Text that ends at a line break (or is empty) splits off cleanly: what
      follows it starts a new line. */
  lemma LinesAfterBreak(a: string, b: string)
    requires a == [] || IsBreak(a[|a| - 1])
    ensures Lines(a + b) == Lines(a) + Lines(b)
  {
    ChunkBoundaryIrrelevant(a, b);
    EmittedThenKept(a);
    assert Kept(a) + b == b;
  }

  /** The complete part of `s`: what comes before the kept partial line. */
  function Completed(s: string): string
  {
    KeptIsTrailingPartialLine(s);
    s[..|s| - |Kept(s)|]
  }

  /** What a reader has handed on after reading `s` is exactly the lines of
      the complete part of `s`; that part is empty or ends at a line break,
      and the kept partial line follows it. */
  lemma CompletePart(s: string)
    ensures var u := Completed(s);
      && s == u + Kept(s)
      && (u == [] || IsBreak(u[|u| - 1]))
      && Lines(u) == Emitted(s)
  {
    var t := Kept(s);
    KeptIsTrailingPartialLine(s);
    EmittedThenKept(s);
    var u := Completed(s);
    if t == "" {
      assert u == s;
    } else {
      if u != [] {
        assert u[|u| - 1] == s[|s| - |t| - 1];
      }
      LinesAfterBreak(u, t);
      LinesOfLine(t);
      var x := Lines(u);
      var y := Emitted(s);
      assert x + [t] == y + [t];
      assert x == (x + [t])[..|x|];
      assert y == (y + [t])[..|y|];
    }
  }
}
