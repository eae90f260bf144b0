/** The loop of the chunked decoder with its 64-bit positions, which may wrap. */
module ChunkLoop {
  import opened Options
  import opened UrlCodec
  import opened HttpText
  import opened NumberText
  import opened Chunked

  /** Where the loop stands; it may go round without end, so it is described pass by pass. */
  datatype Loop = Loop(pos: nat, out: string, stopped: bool)

  const START := Loop(0, "", false)

  function Wrapped(n: nat): nat {
    n % ULONG_RANGE
  }

  function SizeAt(input: string, pos: nat, eol: nat): (size: Option<nat>)
    requires pos <= eol <= |input|
    ensures size.Some? ==> size.value < ULONG_RANGE
  {
    StoulHex(SizeText(input[pos..eol]))
  }

  function Pass(input: string, l: Loop): Loop {
    if l.stopped || l.pos >= |input| then l.(stopped := true)
    else
      var eol := LineEnd(input, l.pos);
      if eol == -1 then l.(stopped := true) else SizedPass(input, l, eol + 2, SizeAt(input, l.pos, eol))
  }

  /** The rest of a pass: the size was read and ends just before `behind`. */
  function SizedPass(input: string, l: Loop, behind: nat, size: Option<nat>): Loop
    requires behind <= |input|
  {
    if size.None? || size.value == 0 || Wrapped(behind + size.value) > |input| then l.(stopped := true)
    else Loop(Wrapped(behind + size.value + 2), l.out + Clamped(input, behind, size.value), false)
  }

  function Passes(input: string, l: Loop, k: nat): Loop {
    if k == 0 then l else Pass(input, Passes(input, l, k - 1))
  }

  /** The loop as written, given up after `passes` passes. */
  method DecodeChunked(input: string, passes: nat) returns (done: bool, out: string)
    ensures var l := Passes(input, START, passes); done == l.stopped && out == l.out
  {
    hide LineEnd, SizeAt, Wrapped, Clamped;
    var pos := 0;
    done, out := false, "";
    var i := 0;
    while i < passes && !done
      invariant 0 <= i <= passes && 0 <= pos
      invariant Passes(input, START, i) == Loop(pos, out, done)
    {
      if pos >= |input| {
        done := true;
      } else {
        var eol := LineEnd(input, pos);
        var size := if eol == -1 then None else SizeAt(input, pos, eol);
        if size.None? || size.value == 0 || Wrapped(eol + 2 + size.value) > |input| {
          done := true;
        } else {
          out := out + Clamped(input, eol + 2, size.value);
          pos := Wrapped(eol + 2 + size.value + 2);
        }
      }
      i := i + 1;
    }
    StaysStopped(input, START, i, passes);
  }

  lemma {:induction false} StaysStopped(input: string, l: Loop, i: nat, k: nat)
    requires i <= k && (Passes(input, l, i).stopped || i == k)
    ensures Passes(input, l, k) == Passes(input, l, i)
    decreases k
  {
    hide Pass;
    if i < k {
      StaysStopped(input, l, i, k - 1);
      StoppedPass(input, Passes(input, l, i));
    }
  }

  lemma StoppedPass(input: string, l: Loop)
    requires l.stopped
    ensures Pass(input, l) == l
  {
    hide LineEnd, SizedPass;
  }

  /** Adding to a 64-bit position. */
  lemma WrappedSum(n: nat)
    requires n < 2 * ULONG_RANGE
    ensures Wrapped(n) == if n < ULONG_RANGE then n else n - ULONG_RANGE
  {
  }

  lemma {:induction false} PassFirst(input: string, l: Loop, k: nat)
    ensures Passes(input, l, k + 1) == Passes(input, Pass(input, l), k)
  {
    hide Pass;
    if k > 0 {
      PassFirst(input, l, k - 1);
    }
  }

  lemma {:induction false} PassesAdd(input: string, l: Loop, a: nat, b: nat)
    ensures Passes(input, l, a + b) == Passes(input, Passes(input, l, a), b)
  {
    hide Pass;
    if b > 0 {
      PassesAdd(input, l, a, b - 1);
    }
  }

  // ---- what was decoded does not steer ------------------------------------

  function Onto(prefix: string, l: Loop): Loop {
    l.(out := prefix + l.out)
  }

  lemma PassOnto(input: string, prefix: string, l: Loop)
    ensures Pass(input, Onto(prefix, l)) == Onto(prefix, Pass(input, l))
  {
    hide LineEnd, SizeAt, Clamped, Wrapped;
    if !l.stopped && l.pos < |input| && LineEnd(input, l.pos) != -1 {
      var eol := LineEnd(input, l.pos);
      var size := SizeAt(input, l.pos, eol);
      if size.Some? {
        var more := Clamped(input, eol + 2, size.value);
        assert prefix + (l.out + more) == prefix + l.out + more;
      }
    }
  }

  lemma {:induction false} PassesOnto(input: string, prefix: string, l: Loop, k: nat)
    ensures Passes(input, Onto(prefix, l), k) == Onto(prefix, Passes(input, l, k))
  {
    hide Pass, Onto;
    if k > 0 {
      PassesOnto(input, prefix, l, k - 1);
      PassOnto(input, prefix, Passes(input, l, k - 1));
    }
  }

  // ---- it stops soon or never ---------------------------------------------

  lemma SamePlaceSameFate(input: string, a: Loop, b: Loop, k: nat)
    requires a.pos == b.pos && a.stopped == b.stopped
    ensures Passes(input, a, k).stopped == Passes(input, b, k).stopped
  {
    hide Passes;
    var bare := a.(out := "");
    assert a == Onto(a.out, bare) && b == Onto(b.out, bare);
    PassesOnto(input, a.out, bare, k);
    PassesOnto(input, b.out, bare, k);
  }

  /** A position met twice is met for ever. */
  lemma {:induction false} RoundAndRound(input: string, l: Loop, i: nat, j: nat, k: nat)
    requires i < j && Passes(input, l, i).pos == Passes(input, l, j).pos && !Passes(input, l, j).stopped
    ensures !Passes(input, l, k).stopped
    decreases k
  {
    hide Passes;
    if k <= j {
      if Passes(input, l, k).stopped { StaysStopped(input, l, k, j); }
    } else {
      if Passes(input, l, i).stopped { StaysStopped(input, l, i, j); }
      var t := k - j;
      RoundAndRound(input, l, i, j, i + t);
      PassesAdd(input, l, i, t);
      PassesAdd(input, l, j, t);
      SamePlaceSameFate(input, Passes(input, l, i), Passes(input, l, j), t);
    }
  }

  lemma StillInside(input: string, l: Loop, i: nat, k: nat)
    requires i < k && !Passes(input, l, k).stopped
    ensures Passes(input, l, i).pos < |input|
  {
    if Passes(input, l, i + 1).stopped {
      StaysStopped(input, l, i + 1, k);
    }
    hide LineEnd, SizedPass;
  }

  lemma {:induction false} SubsetSize(a: set<nat>, b: set<nat>)
    requires a <= b
    ensures |a| <= |b|
  {
    if x :| x in a {
      SubsetSize(a - {x}, b - {x});
    }
  }

  function Below(n: nat): (s: set<nat>)
    ensures |s| == n && forall x: nat :: x in s <==> x < n
  {
    if n == 0 then {} else Below(n - 1) + {n - 1}
  }

  function Elements(s: seq<nat>): (e: set<nat>)
    ensures forall x :: x in e <==> x in s
  {
    set x | x in s
  }

  lemma {:induction false} DistinctSize(s: seq<nat>)
    requires forall i, j :: 0 <= i < j < |s| ==> s[i] != s[j]
    ensures |Elements(s)| == |s|
  {
    if s != [] {
      var n := |s| - 1;
      DistinctSize(s[..n]);
      assert s == s[..n] + [s[n]];
      assert Elements(s) == Elements(s[..n]) + {s[n]};
    } else {
      assert Elements(s) == {};
    }
  }

  /** More numbers than there are values: two are equal. */
  lemma Pigeonhole(s: seq<nat>, n: nat) returns (i: nat, j: nat)
    requires |s| > n && forall k :: 0 <= k < |s| ==> s[k] < n
    ensures i < j < |s| && s[i] == s[j]
  {
    if a, b :| 0 <= a < b < |s| && s[a] == s[b] {
      return a, b;
    }
    DistinctSize(s);
    SubsetSize(Elements(s), Below(n));
    assert false;
  }

  /** A loop that has not stopped after one pass per input byte and one more never will. */
  lemma StopsSoonOrNever(input: string, l: Loop, k: nat)
    requires Passes(input, l, k).stopped
    ensures Passes(input, l, |input| + 1).stopped
  {
    hide Passes;
    var m := |input| + 1;
    if !Passes(input, l, m).stopped {
      var places := seq(m, i requires 0 <= i < m => Passes(input, l, i).pos);
      forall i | 0 <= i < m
        ensures places[i] < |input|
      {
        StillInside(input, l, i, m);
      }
      var i, j := Pigeonhole(places, |input|);
      if Passes(input, l, j).stopped { StaysStopped(input, l, j, m); }
      RoundAndRound(input, l, i, j, k);
    }
  }

  // ---- the first size that wraps ------------------------------------------

  /** A size line that ends before `behind` and whose size reaches beyond 2^64 from there. */
  datatype Hit = Hit(behind: nat, size: nat)

  /** The first such line among those the loop reaches, if any. */
  function FirstWrap(input: string, pos: nat): (hit: Option<Hit>)
    ensures hit.Some? ==> hit.value.behind <= |input| && hit.value.size < ULONG_RANGE
    ensures hit.Some? ==> hit.value.behind + hit.value.size >= ULONG_RANGE
    decreases |input| - pos
  {
    if pos >= |input| || LineEnd(input, pos) == -1 then None
    else
      var eol := LineEnd(input, pos);
      var size := SizeAt(input, pos, eol);
      if size.None? || size.value == 0 then None
      else if eol + 2 + size.value >= ULONG_RANGE then Some(Hit(eol + 2, size.value))
      else if eol + 2 + size.value > |input| then None
      else FirstWrap(input, eol + 2 + size.value + 2)
  }

  function JumpTo(h: Hit): nat {
    Wrapped(h.behind + h.size + 2)
  }

  /** A pass that has found its size line. */
  lemma PassAt(input: string, pos: nat, out: string, eol: nat)
    requires pos < |input| && eol == LineEnd(input, pos)
    ensures Pass(input, Loop(pos, out, false)) == SizedPass(input, Loop(pos, out, false), eol + 2, SizeAt(input, pos, eol))
  {
    hide LineEnd, SizeAt, SizedPass;
  }

  lemma NoLinePass(input: string, pos: nat, out: string)
    requires pos >= |input| || LineEnd(input, pos) == -1
    ensures Pass(input, Loop(pos, out, false)) == Loop(pos, out, true)
  {
    hide LineEnd, SizeAt, SizedPass;
  }

  lemma FirstWrapAt(input: string, pos: nat, eol: nat, size: Option<nat>)
    requires pos < |input| && eol == LineEnd(input, pos) && size == SizeAt(input, pos, eol)
    ensures FirstWrap(input, pos) ==
      if size.None? || size.value == 0 then None
      else if eol + 2 + size.value >= ULONG_RANGE then Some(Hit(eol + 2, size.value))
      else if eol + 2 + size.value > |input| then None
      else FirstWrap(input, eol + 2 + size.value + 2)
  {
    hide LineEnd, SizeAt;
  }

  /** A pass over a chunk that is there in full and does not wrap. */
  lemma ChunkPass(input: string, l: Loop, behind: nat, n: nat)
    requires behind + n <= |input| < ULONG_RANGE - 2 && n > 0
    ensures SizedPass(input, l, behind, Some(n)) == Loop(behind + n + 2, l.out + input[behind..behind + n], false)
  {
    hide Wrapped;
    WrappedSum(behind + n);
    WrappedSum(behind + n + 2);
  }

  lemma StopPass(input: string, l: Loop, behind: nat, size: Option<nat>)
    requires behind <= |input|
    requires size.None? || size.value == 0 || |input| < behind + size.value < ULONG_RANGE
    ensures SizedPass(input, l, behind, size) == l.(stopped := true)
  {
    hide Wrapped;
    if size.Some? && size.value != 0 {
      WrappedSum(behind + size.value);
    }
  }

  lemma WrappingPass(input: string, l: Loop, behind: nat, n: nat)
    requires behind <= |input| < ULONG_RANGE - 2 && n < ULONG_RANGE <= behind + n
    ensures SizedPass(input, l, behind, Some(n)) == Loop(JumpTo(Hit(behind, n)), l.out + input[behind..], false)
  {
    hide Wrapped;
    WrappedSum(behind + n);
  }

  /** Without a wrap, one pass is one chunk. */
  lemma PlainPass(input: string, pos: nat, out: string)
    requires |input| < ULONG_RANGE - 2 && FirstWrap(input, pos).None?
    ensures var l := Pass(input, Loop(pos, out, false));
      if l.stopped then l.out == out && From(input, pos) == ""
      else pos < |input| && l.pos > pos && FirstWrap(input, l.pos).None? && out + From(input, pos) == l.out + From(input, l.pos)
  {
    hide Dechunked, From, LineEnd, SizeAt, Pass, SizedPass, FirstWrap;
    var start := Loop(pos, out, false);
    if pos >= |input| {
      FromEnd(input, pos);
      NoLinePass(input, pos, out);
    } else if LineEnd(input, pos) == -1 {
      ChunkFrom(input, pos, -1, None);
      NoLinePass(input, pos, out);
    } else {
      var eol := LineEnd(input, pos);
      var size := SizeAt(input, pos, eol);
      PassAt(input, pos, out, eol);
      FirstWrapAt(input, pos, eol, size);
      ChunkFrom(input, pos, eol, size);
      if size.Some? && size.value != 0 && eol + 2 + size.value <= |input| {
        ChunkStep(input, pos, out, eol, size.value);
      } else {
        StopPass(input, start, eol + 2, size);
      }
    }
  }

  lemma ChunkFrom(input: string, pos: nat, eol: int, size: Option<nat>)
    requires pos < |input| && eol == LineEnd(input, pos) && (eol == -1 || size == SizeAt(input, pos, eol))
    ensures From(input, pos) ==
      if eol == -1 || size.None? || size.value == 0 || eol + 2 + size.value > |input| then ""
      else input[eol + 2..eol + 2 + size.value] + From(input, eol + 2 + size.value + 2)
  {
    hide StoulHex, SizeText, Dechunked, From, LineEnd;
    ChunkAt(input, pos, eol, size);
  }

  lemma {:induction false} StraightRun(input: string, pos: nat, out: string) returns (k: nat)
    requires |input| < ULONG_RANGE - 2 && FirstWrap(input, pos).None?
    ensures var l := Passes(input, Loop(pos, out, false), k); l.stopped && l.out == out + From(input, pos)
    decreases |input| - pos
  {
    hide Pass, From, FirstWrap;
    var l := Pass(input, Loop(pos, out, false));
    PlainPass(input, pos, out);
    if l.stopped {
      k := 1;
      assert Passes(input, Loop(pos, out, false), 0) == Loop(pos, out, false);
      assert out + "" == out;
    } else {
      hide Passes;
      k := StraightRun(input, l.pos, l.out);
      PassFirst(input, Loop(pos, out, false), k);
      k := k + 1;
    }
  }

  predicate WrapsHere(input: string, pos: nat) {
    && pos < |input| && LineEnd(input, pos) != -1
    && var size := SizeAt(input, pos, LineEnd(input, pos));
       size.Some? && LineEnd(input, pos) + 2 + size.value >= ULONG_RANGE
  }

  lemma PassAtWrap(input: string, pos: nat, out: string)
    requires |input| < ULONG_RANGE - 2 && WrapsHere(input, pos)
    ensures FirstWrap(input, pos).Some? && From(input, pos) == ""
    ensures var h := FirstWrap(input, pos).value;
      Pass(input, Loop(pos, out, false)) == Loop(JumpTo(h), out + input[h.behind..], false)
  {
    hide Dechunked, From, LineEnd, SizeAt, Pass, SizedPass, FirstWrap, JumpTo;
    var eol := LineEnd(input, pos);
    var size := SizeAt(input, pos, eol);
    PassAt(input, pos, out, eol);
    FirstWrapAt(input, pos, eol, size);
    ChunkFrom(input, pos, eol, size);
    WrappingPass(input, Loop(pos, out, false), eol + 2, size.value);
  }

  lemma BeforeWrapShape(input: string, pos: nat)
    requires |input| < ULONG_RANGE - 2 && FirstWrap(input, pos).Some? && !WrapsHere(input, pos)
    ensures pos < |input| && LineEnd(input, pos) != -1
    ensures var eol := LineEnd(input, pos); var size := SizeAt(input, pos, eol);
      size.Some? && size.value != 0 && eol + 2 + size.value <= |input|
  {
    hide LineEnd, SizeAt, FirstWrap;
    WrapHasLine(input, pos);
    FirstWrapAt(input, pos, LineEnd(input, pos), SizeAt(input, pos, LineEnd(input, pos)));
  }

  /** A chunk in full: the loop and the decoding take it alike. */
  lemma ChunkStep(input: string, pos: nat, out: string, eol: nat, n: nat)
    requires |input| < ULONG_RANGE - 2 && pos < |input| && eol == LineEnd(input, pos)
    requires SizeAt(input, pos, eol) == Some(n) && n != 0 && eol + 2 + n <= |input|
    ensures var l := Pass(input, Loop(pos, out, false));
      && !l.stopped && l.pos == eol + 2 + n + 2 && FirstWrap(input, l.pos) == FirstWrap(input, pos)
      && out + From(input, pos) == l.out + From(input, l.pos)
  {
    hide Dechunked, From, LineEnd, SizeAt, Pass, SizedPass, FirstWrap;
    PassAt(input, pos, out, eol);
    FirstWrapAt(input, pos, eol, Some(n));
    ChunkFrom(input, pos, eol, Some(n));
    ChunkPass(input, Loop(pos, out, false), eol + 2, n);
    Regroup(out, input[eol + 2..eol + 2 + n], From(input, eol + 2 + n + 2));
  }

  lemma PassBeforeWrap(input: string, pos: nat, out: string)
    requires |input| < ULONG_RANGE - 2 && FirstWrap(input, pos).Some? && !WrapsHere(input, pos)
    ensures var l := Pass(input, Loop(pos, out, false));
      && !l.stopped && pos < |input| && l.pos > pos && FirstWrap(input, l.pos) == FirstWrap(input, pos)
      && out + From(input, pos) == l.out + From(input, l.pos)
  {
    hide From, LineEnd, SizeAt, Pass, FirstWrap, WrapsHere;
    BeforeWrapShape(input, pos);
    var eol := LineEnd(input, pos);
    ChunkStep(input, pos, out, eol, SizeAt(input, pos, eol).value);
  }

  lemma WrapHasLine(input: string, pos: nat)
    requires FirstWrap(input, pos).Some?
    ensures pos < |input| && LineEnd(input, pos) != -1
  {
    hide LineEnd, SizeAt;
  }

  /** Up to the first wrap the loop decodes what it should; there it takes the whole rest
      of the input for data and goes back. */
  lemma {:induction false} RunToWrap(input: string, pos: nat, out: string) returns (k: nat)
    requires |input| < ULONG_RANGE - 2 && FirstWrap(input, pos).Some?
    ensures var h := FirstWrap(input, pos).value;
      Passes(input, Loop(pos, out, false), k) == Loop(JumpTo(h), out + From(input, pos) + input[h.behind..], false)
    decreases |input| - pos
  {
    hide Pass, From, FirstWrap, JumpTo, WrapsHere;
    var start := Loop(pos, out, false);
    if WrapsHere(input, pos) {
      PassAtWrap(input, pos, out);
      k := 1;
      assert Passes(input, start, 0) == start;
      assert out + "" == out;
    } else {
      PassBeforeWrap(input, pos, out);
      var l := Pass(input, start);
      hide Passes;
      k := RunToWrap(input, l.pos, l.out);
      PassFirst(input, start, k);
      k := k + 1;
    }
  }

  // ---- exactly when it decodes --------------------------------------------

  /** The loop stops, having put out exactly `out`. */
  ghost predicate EndsWith(input: string, l: Loop, out: string) {
    exists k: nat :: Passes(input, l, k).stopped && Passes(input, l, k).out == out
  }

  /** Whether it does can be told after one pass per input byte and one more. */
  lemma EndsWithIff(input: string, l: Loop, out: string)
    ensures EndsWith(input, l, out) <==> var m := Passes(input, l, |input| + 1); m.stopped && m.out == out
  {
    hide Passes;
    if k: nat :| Passes(input, l, k).stopped && Passes(input, l, k).out == out {
      StopsSoonOrNever(input, l, k);
      if k <= |input| + 1 {
        StaysStopped(input, l, k, |input| + 1);
      } else {
        StaysStopped(input, l, |input| + 1, k);
      }
    }
  }

  /** What the loop gives; None if it never stops. */
  function Result(input: string): Option<string> {
    var m := Passes(input, START, |input| + 1);
    if m.stopped then Some(m.out) else None
  }

  lemma ResultIff(input: string, out: string)
    ensures Result(input) == Some(out) <==> EndsWith(input, START, out)
  {
    EndsWithIff(input, START, out);
  }

  /** The jump of a wrap that ends the input does no harm: from there the loop stops
      without putting anything out. */
  predicate HarmlessJump(input: string, h: Hit) {
    h.behind == |input| && var m := Passes(input, Loop(JumpTo(h), "", false), |input| + 1); m.stopped && m.out == ""
  }

  lemma AfterJump(input: string, h: Hit, out: string)
    requires h.behind <= |input|
    ensures EndsWith(input, Loop(JumpTo(h), out + input[h.behind..], false), out) <==> HarmlessJump(input, h)
  {
    hide Passes, JumpTo;
    var bare := Loop(JumpTo(h), "", false);
    var tail := input[h.behind..];
    var l := Loop(JumpTo(h), out + tail, false);
    var n := |input| + 1;
    EndsWithIff(input, l, out);
    assert Onto(out + tail, bare) == l;
    PassesOnto(input, out + tail, bare, n);
    var more := Passes(input, bare, n).out;
    assert |out + tail + more| == |out| + |tail| + |more|;
    assert tail == "" && more == "" ==> out + tail + more == out;
  }

  /** The loop ends with the decoding of its input if and only if no size line it reaches
      wraps, or the first that does is the end of the input and jumps without harm. */
  lemma LoopEndsIff(input: string)
    requires |input| < ULONG_RANGE - 2
    ensures EndsWith(input, START, Dechunked(input)) <==>
      FirstWrap(input, 0).None? || HarmlessJump(input, FirstWrap(input, 0).value)
  {
    hide Passes, FirstWrap, HarmlessJump, Dechunked, From, JumpTo;
    FromStart(input);
    if FirstWrap(input, 0).None? {
      var k := StraightRun(input, 0, "");
    } else {
      var h := FirstWrap(input, 0).value;
      var k := RunToWrap(input, 0, "");
      var l := Loop(JumpTo(h), Dechunked(input) + input[h.behind..], false);
      assert Passes(input, START, k) == l;
      SameEnd(input, START, k, Dechunked(input));
      AfterJump(input, h, Dechunked(input));
    }
  }

  lemma SameEnd(input: string, l: Loop, i: nat, out: string)
    requires !Passes(input, l, i).stopped
    ensures EndsWith(input, l, out) <==> EndsWith(input, Passes(input, l, i), out)
  {
    hide Passes;
    if k: nat :| Passes(input, l, k).stopped && Passes(input, l, k).out == out {
      if k <= i {
        StaysStopped(input, l, k, i);
      } else {
        PassesAdd(input, l, i, k - i);
        assert Passes(input, Passes(input, l, i), k - i).stopped;
      }
    }
    if k: nat :| Passes(input, Passes(input, l, i), k).stopped && Passes(input, Passes(input, l, i), k).out == out {
      PassesAdd(input, l, i, k);
      assert Passes(input, l, i + k).stopped;
    }
  }

  // ---- well-formed bodies -------------------------------------------------

  /** A size line in the middle of an input. */
  lemma LineInside(pre: string, size: string, extension: string, n: nat, rest: string)
    requires ValidSizeLine(size, extension, n)
    ensures var line := size + extension; var input := pre + (line + CRLF + rest);
      && LineEnd(input, |pre|) == |pre| + |line| && SizeAt(input, |pre|, |pre| + |line|) == Some(n)
      && |input| == |pre| + |line| + 2 + |rest|
  {
    hide ValidSizeLine, Find, StoulHex, SizeText, OccursAt;
    var line := size + extension;
    var input := pre + (line + CRLF + rest);
    SizeLineRead(size, extension, n, rest);
    FindFrom(input, CRLF, |pre|);
    assert input[|pre|..] == line + CRLF + rest;
    assert input[|pre|..|pre| + |line|] == line;
  }

  /** No size line of a well-formed body wraps. */
  lemma {:induction false} ChunksDoNotWrap(pre: string, cs: seq<Chunk>, zero: string, extension: string, trailers: string)
    requires forall i :: 0 <= i < |cs| ==> ValidChunk(cs[i])
    requires ValidSizeLine(zero, extension, 0)
    requires |pre + (ChunkTexts(cs) + (zero + extension + CRLF + trailers))| < ULONG_RANGE
    ensures FirstWrap(pre + (ChunkTexts(cs) + (zero + extension + CRLF + trailers)), |pre|).None?
    decreases |cs|
  {
    hide ValidSizeLine, FirstWrap, LineEnd, SizeAt;
    var last := zero + extension + CRLF + trailers;
    var input := pre + (ChunkTexts(cs) + last);
    if cs == [] {
      assert input == pre + last;
      LineInside(pre, zero, extension, 0, trailers);
      FirstWrapAt(input, |pre|, |pre| + |zero + extension|, Some(0));
    } else {
      var c := cs[0];
      assert ValidChunk(c);
      var line, rest := c.size + c.extension, ChunkTexts(cs[1..]) + last;
      var behind := c.data + CRLF + rest;
      assert input == pre + (line + CRLF + behind);
      LineInside(pre, c.size, c.extension, |c.data|, behind);
      var eol := |pre| + |line|;
      FirstWrapAt(input, |pre|, eol, Some(|c.data|));
      var more := pre + (line + CRLF + c.data + CRLF);
      assert input == more + rest && |more| == eol + 2 + |c.data| + 2;
      ChunksDoNotWrap(more, cs[1..], zero, extension, trailers);
    }
  }

  /** The loop decodes every list of non-empty chunks, with any data and extensions. */
  lemma ChunksLoopEnds(cs: seq<Chunk>, zero: string, extension: string, trailers: string)
    requires forall i :: 0 <= i < |cs| ==> ValidChunk(cs[i])
    requires ValidSizeLine(zero, extension, 0)
    requires |ChunkTexts(cs) + (zero + extension + CRLF + trailers)| < ULONG_RANGE - 2
    ensures EndsWith(ChunkTexts(cs) + (zero + extension + CRLF + trailers), START, Payload(cs))
  {
    hide ValidSizeLine, FirstWrap, EndsWith, Payload, ValidChunk, ChunkTexts;
    var input := ChunkTexts(cs) + (zero + extension + CRLF + trailers);
    assert "" + input == input;
    ChunksDoNotWrap("", cs, zero, extension, trailers);
    ChunksDecode(cs, zero, extension, trailers);
    LoopEndsIff(input);
  }

  // ---- inputs that wrap ---------------------------------------------------

  lemma HexStep(s: string, i: nat)
    requires AllHex(s) && i < |s|
    ensures HexNumber(s[..i + 1]) == 16 * HexNumber(s[..i]) + HexValue(s[i])
  {
    assert s[..i + 1][..i] == s[..i];
  }

  lemma {:induction false} HexFs(s: string, k: nat)
    requires AllHex(s) && k <= |s| && forall i :: 0 <= i < k ==> s[i] == 'F'
    ensures HexNumber(s[..k]) == Fs(k)
  {
    if k > 0 {
      HexFs(s, k - 1);
      HexStep(s, k - 1);
    }
  }

  /** The number written with `k` digits F. */
  function Fs(k: nat): nat {
    if k == 0 then 0 else 16 * Fs(k - 1) + 15
  }

  lemma FsValues()
    ensures Fs(14) == 0xFF_FFFF_FFFF_FFFF && Fs(16) == 0xFFFF_FFFF_FFFF_FFFF
  {
    assert Fs(7) == 0xFFF_FFFF;
    assert Fs(14) == 0xFF_FFFF_FFFF_FFFF;
    assert Fs(15) == 0xFFF_FFFF_FFFF_FFFF;
  }

  lemma {:induction false} LeadingZero(s: string)
    requires AllHex(s)
    ensures HexNumber("0" + s) == HexNumber(s)
  {
    var t := "0" + s;
    if s == [] {
      assert t[..0] == "";
    } else {
      var n := |s| - 1;
      LeadingZero(s[..n]);
      assert t[..|t| - 1] == "0" + s[..n] && t[|t| - 1] == s[n];
    }
  }

  const BACK_TO_TWO := "FFFFFFFFFFFFFFEC"    // 2^64 - 20

  lemma BackToTwoValue()
    ensures AllHex(BACK_TO_TWO) && HexNumber(BACK_TO_TWO) == ULONG_RANGE - 20
  {
    hide Fs, HexNumber;
    var s := BACK_TO_TWO;
    HexFs(s, 14);
    FsValues();
    HexStep(s, 14);
    HexStep(s, 15);
    assert s[..16] == s;
  }

  lemma ZerosInFront(s: string)
    requires AllHex(s)
    ensures AllHex("00" + s) && HexNumber("00" + s) == HexNumber(s)
  {
    LeadingZero(s);
    LeadingZero("0" + s);
    assert "0" + ("0" + s) == "00" + s;
  }

  lemma BackToTwo()
    ensures ValidSizeLine(BACK_TO_TWO, "", ULONG_RANGE - 20) && ValidSizeLine("00" + BACK_TO_TWO, "", ULONG_RANGE - 20)
  {
    hide HexNumber, AllHex;
    BackToTwoValue();
    ZerosInFront(BACK_TO_TWO);
  }

  /** Twenty bytes: a size line that sends the loop back into itself. */
  const ENDLESS := "00FFFFFFFFFFFFFFEC\r\n"

  lemma EndlessPass(pos: nat, out: string)
    requires pos == 0 || pos == 2
    ensures Pass(ENDLESS, Loop(pos, out, false)) == Loop(2, out, false)
  {
    hide ValidSizeLine, LineEnd, SizeAt, Pass, SizedPass;
    var n := ULONG_RANGE - 20;
    BackToTwo();
    var pre := if pos == 0 then "" else "00";
    var size := if pos == 0 then "00" + BACK_TO_TWO else BACK_TO_TWO;
    assert ENDLESS == pre + (size + "" + CRLF + "");
    LineInside(pre, size, "", n, "");
    PassAt(ENDLESS, pos, out, 18);
    WrappingPass(ENDLESS, Loop(pos, out, false), 20, n);
    WrappedSum(20 + n + 2);
    assert ENDLESS[20..] == "" && out + "" == out;
  }

  /** The loop never leaves it. */
  lemma {:induction false} EndlessLoop(k: nat)
    ensures Passes(ENDLESS, START, k) == Loop(if k == 0 then 0 else 2, "", false)
  {
    hide Pass;
    if k > 0 {
      EndlessLoop(k - 1);
      EndlessPass(if k == 1 then 0 else 2, "");
    }
  }

  /** A size of 2^64 - 1 wraps as well, but at the end of the input it jumps beyond it. */
  const HARMLESS := "FFFFFFFFFFFFFFFF\r\n"

  lemma AllOnes()
    ensures ValidSizeLine("FFFFFFFFFFFFFFFF", "", ULONG_RANGE - 1)
  {
    hide Fs;
    var s := "FFFFFFFFFFFFFFFF";
    assert AllHex(s) && |s| == 16;
    HexFs(s, 16);
    FsValues();
    assert s[..16] == s;
  }

  lemma WrapsAndStillEnds()
    ensures FirstWrap(HARMLESS, 0).Some? && EndsWith(HARMLESS, START, Dechunked(HARMLESS))
  {
    var s, n := "FFFFFFFFFFFFFFFF", ULONG_RANGE - 1;
    AllOnes();
    hide ValidSizeLine, LineEnd, SizeAt, FirstWrap, Dechunked, From, SizedPass, Pass;
    assert HARMLESS == "" + (s + "" + CRLF + "");
    LineInside("", s, "", n, "");
    FirstWrapAt(HARMLESS, 0, 16, Some(n));
    ChunkFrom(HARMLESS, 0, 16, Some(n));
    FromStart(HARMLESS);
    PassAt(HARMLESS, 0, "", 16);
    WrappingPass(HARMLESS, START, 18, n);
    WrappedSum(18 + n + 2);
    NoLinePass(HARMLESS, 19, "");
    assert HARMLESS[18..] == "";
    assert Passes(HARMLESS, START, 0) == START;
    assert Passes(HARMLESS, START, 1) == Loop(19, "", false);
    assert Passes(HARMLESS, START, 2).stopped;
  }
}
