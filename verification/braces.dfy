/** Brace scanning over text, shared by the class-boundary finder of the
    move engine and by the analyzers' end-line and nesting-depth scanners.
    Offsets are char offsets; the text is assumed ASCII, so they are also
    the byte offsets Rust reports. */
module Braces {
  import opened Wrappers

  /** What a char adds to the brace depth. */
  function Delta(c: char): int {
    if c == '{' then 1 else if c == '}' then -1 else 0
  }

  /** The net brace depth of `s[i..m]`. */
  function Net(s: string, i: nat, m: nat): int
    requires i <= m <= |s|
    decreases m - i
  {
    if i == m then 0 else Delta(s[i]) + Net(s, i + 1, m)
  }

  // ---------------------------------------------------------------------------
  // The first balanced block
  // ---------------------------------------------------------------------------

  /** The brace scan of `find_class_boundaries` from offset `i` at depth `d`:
      a `{` enters the block and deepens it; a `}` before the first `{` is
      ignored; inside, the `}` that brings the depth back to zero ends the
      scan, which answers the offset just past it. */
  function CloseFrom(s: string, i: nat, d: nat, inside: bool): Option<nat>
    requires i <= |s|
    requires inside ==> d >= 1
    requires !inside ==> d == 0
    decreases |s| - i
  {
    if i == |s| then None
    else if s[i] == '{' then CloseFrom(s, i + 1, d + 1, true)
    else if s[i] == '}' && inside then
      if d == 1 then Some(i + 1) else CloseFrom(s, i + 1, d - 1, true)
    else CloseFrom(s, i + 1, d, inside)
  }

  /** `k` is the first offset after `i` at which depth `d` plus the net depth
      read since `i` reaches zero. */
  predicate ClosesAt(s: string, i: nat, d: nat, k: nat)
    requires i <= |s|
  {
    && i < k <= |s|
    && d + Net(s, i, k) == 0
    && forall m :: i <= m < k ==> d + Net(s, i, m) > 0
  }

  /** The depth never reaches zero from `i` to the end. */
  predicate NeverCloses(s: string, i: nat, d: nat)
    requires i <= |s|
  {
    forall m :: i <= m <= |s| ==> d + Net(s, i, m) > 0
  }

  /** Inside a block the scan stops exactly where the depth first returns to
      zero, and finds nothing when it never does. */
  lemma {:induction false} CloseFromInside(s: string, i: nat, d: nat)
    requires i <= |s| && d >= 1
    ensures CloseFrom(s, i, d, true).Some? ==> ClosesAt(s, i, d, CloseFrom(s, i, d, true).value)
    ensures CloseFrom(s, i, d, true).None? ==> NeverCloses(s, i, d)
    decreases |s| - i
  {
    if i < |s| {
      if s[i] == '}' && d == 1 {
        assert Net(s, i, i + 1) == -1;
      } else {
        var d' := d + Delta(s[i]);
        CloseFromInside(s, i + 1, d');
        CloseStep(s, i, d, d');
      }
    }
  }

  /** One step of `CloseFromInside`: what holds from `i + 1` at the new depth
      holds from `i` at the old one. */
  lemma {:induction false} CloseStep(s: string, i: nat, d: nat, d': nat)
    requires i < |s| && d >= 1 && d' == d + Delta(s[i]) && d' >= 1
    requires CloseFrom(s, i, d, true) == CloseFrom(s, i + 1, d', true)
    requires CloseFrom(s, i + 1, d', true).Some? ==> ClosesAt(s, i + 1, d', CloseFrom(s, i + 1, d', true).value)
    requires CloseFrom(s, i + 1, d', true).None? ==> NeverCloses(s, i + 1, d')
    ensures CloseFrom(s, i, d, true).Some? ==> ClosesAt(s, i, d, CloseFrom(s, i, d, true).value)
    ensures CloseFrom(s, i, d, true).None? ==> NeverCloses(s, i, d)
  {
    forall m | i < m <= |s| ensures d + Net(s, i, m) == d' + Net(s, i + 1, m) {
    }
  }

  /** The offset of the first `{` at or after `i`. */
  function FirstOpen(s: string, i: nat): (r: Option<nat>)
    requires i <= |s|
    ensures r.Some? ==> i <= r.value < |s| && s[r.value] == '{'
    ensures r.Some? ==> forall j :: i <= j < r.value ==> s[j] != '{'
    ensures r.None? ==> forall j :: i <= j < |s| ==> s[j] != '{'
    decreases |s| - i
  {
    if i == |s| then None
    else if s[i] == '{' then Some(i)
    else FirstOpen(s, i + 1)
  }

  /** Before the first `{` the scan only looks for it; from there it is the
      scan inside a block of depth one. */
  lemma {:induction false} CloseFromOutside(s: string, i: nat)
    requires i <= |s|
    ensures FirstOpen(s, i).None? ==> CloseFrom(s, i, 0, false).None?
    ensures FirstOpen(s, i).Some? ==>
              CloseFrom(s, i, 0, false) == CloseFrom(s, FirstOpen(s, i).value + 1, 1, true)
    decreases |s| - i
  {
    if i < |s| && s[i] != '{' {
      CloseFromOutside(s, i + 1);
    }
  }

  /** The end of the first balanced block at or after `i`: the first offset
      past the first `{` at which the depth counted from that `{` returns to
      zero. */
  lemma {:induction false} BlockEndSpec(s: string, i: nat)
    requires i <= |s|
    ensures CloseFrom(s, i, 0, false).Some? <==>
              FirstOpen(s, i).Some? && !NeverCloses(s, FirstOpen(s, i).value + 1, 1)
    ensures CloseFrom(s, i, 0, false).Some? ==>
              ClosesAt(s, FirstOpen(s, i).value + 1, 1, CloseFrom(s, i, 0, false).value)
  {
    CloseFromOutside(s, i);
    if FirstOpen(s, i).Some? {
      var f := FirstOpen(s, i).value;
      CloseFromInside(s, f + 1, 1);
      if CloseFrom(s, f + 1, 1, true).Some? {
        var k := CloseFrom(s, f + 1, 1, true).value;
        assert 1 + Net(s, f + 1, k) == 0;
      }
    }
  }

  /** The scan ends just past a `}`. */
  lemma {:induction false} CloseEndsWithBrace(s: string, i: nat, d: nat, inside: bool)
    requires i <= |s| && (inside ==> d >= 1) && (!inside ==> d == 0)
    requires CloseFrom(s, i, d, inside).Some?
    ensures i < CloseFrom(s, i, d, inside).value <= |s|
    ensures s[CloseFrom(s, i, d, inside).value - 1] == '}'
    decreases |s| - i
  {
    if s[i] == '{' {
      CloseEndsWithBrace(s, i + 1, d + 1, true);
    } else if s[i] == '}' && inside {
      if d != 1 {
        CloseEndsWithBrace(s, i + 1, d - 1, true);
      }
    } else {
      CloseEndsWithBrace(s, i + 1, d, inside);
    }
  }

  // ---------------------------------------------------------------------------
  // Nesting depth
  // ---------------------------------------------------------------------------

  /** The depth the analyzers' nesting scanner holds after reading `s`: `{`
      deepens, `}` closes unless the depth is already zero. */
  function DepthAfter(s: string): nat
    decreases |s|
  {
    if |s| == 0 then 0
    else
      var d := DepthAfter(s[..|s| - 1]);
      var c := s[|s| - 1];
      if c == '{' then d + 1 else if c == '}' && d > 0 then d - 1 else d
  }

  /** The greatest depth recorded, which the scanner updates at each `{`. */
  function PeakDepth(s: string): nat
    decreases |s|
  {
    if |s| == 0 then 0
    else
      var p := PeakDepth(s[..|s| - 1]);
      if s[|s| - 1] == '{' && DepthAfter(s) > p then DepthAfter(s) else p
  }

  /** The nesting-depth loop of `calculate_complexity` (every analyzer but
      Python's). */
  method NestingDepth(s: string) returns (r: nat)
    ensures r == PeakDepth(s)
    ensures forall i :: 0 <= i <= |s| ==> DepthAfter(s[..i]) <= r
  {
    var cur := 0;
    r := 0;
    var i := 0;
    while i < |s|
      invariant 0 <= i <= |s|
      invariant cur == DepthAfter(s[..i]) && r == PeakDepth(s[..i])
    {
      assert s[..i + 1][..i] == s[..i];
      if s[i] == '{' {
        cur := cur + 1;
        if cur > r {
          r := cur;
        }
      } else if s[i] == '}' {
        if cur > 0 {
          cur := cur - 1;
        }
      }
      i := i + 1;
    }
    assert s[..|s|] == s;
    PeakBounds(s);
  }

  /** The peak bounds the depth after every prefix. */
  lemma {:induction false} PeakBounds(s: string)
    ensures forall i :: 0 <= i <= |s| ==> DepthAfter(s[..i]) <= PeakDepth(s)
    decreases |s|
  {
    if |s| > 0 {
      var t := s[..|s| - 1];
      PeakBounds(t);
      PeakAtLeastDepth(s);
      forall i | 0 <= i <= |s| ensures DepthAfter(s[..i]) <= PeakDepth(s) {
        if i < |s| {
          assert s[..i] == t[..i];
        } else {
          assert s[..i] == s;
        }
      }
    }
  }

  /** The depth after the whole text is at most the peak. */
  lemma {:induction false} PeakAtLeastDepth(s: string)
    ensures DepthAfter(s) <= PeakDepth(s)
    decreases |s|
  {
    if |s| > 0 {
      PeakAtLeastDepth(s[..|s| - 1]);
    }
  }

  /** The peak is reached: it is the depth after some prefix. */
  lemma {:induction false} PeakAttained(s: string) returns (i: nat)
    ensures i <= |s| && DepthAfter(s[..i]) == PeakDepth(s)
    decreases |s|
  {
    if |s| == 0 {
      i := 0;
    } else {
      var t := s[..|s| - 1];
      if s[|s| - 1] == '{' && DepthAfter(s) > PeakDepth(t) {
        i := |s|;
        assert s[..i] == s;
      } else {
        i := PeakAttained(t);
        assert s[..i] == t[..i];
      }
    }
  }
}
