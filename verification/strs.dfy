/** String primitives with the meaning the Rust standard library gives them.
    Text is a sequence of chars and every offset is a char offset: the model
    treats source text as ASCII, where Rust's byte offsets and char offsets
    coincide. */
module Strs {
  import opened Wrappers

  // ---------------------------------------------------------------------------
  // Characters
  // ---------------------------------------------------------------------------

  /** `char::to_ascii_lowercase`; the model's lowercasing (ASCII only). */
  function LowerChar(c: char): char {
    if 'A' <= c <= 'Z' then (c as int + 32) as char else c
  }

  /** `str::to_lowercase` restricted to ASCII letters. */
  function Lower(s: string): (r: string)
    ensures |r| == |s|
    ensures forall i :: 0 <= i < |s| ==> r[i] == LowerChar(s[i])
  {
    seq(|s|, i requires 0 <= i < |s| => LowerChar(s[i]))
  }

  lemma {:induction false} LowerIdempotent(s: string)
    ensures Lower(Lower(s)) == Lower(s)
  {
  }

  /** Text without ASCII capitals is its own lowercase. */
  lemma {:induction false} LowerUnchanged(s: string)
    requires forall i :: 0 <= i < |s| ==> !('A' <= s[i] <= 'Z')
    ensures Lower(s) == s
  {
  }

  lemma {:induction false} LowerAppend(a: string, b: string)
    ensures Lower(a + b) == Lower(a) + Lower(b)
  {
  }

  /** `char::is_whitespace`: the Unicode White_Space property. */
  predicate IsWhitespace(c: char) {
    ('\U{0009}' <= c <= '\U{000D}') || c == ' ' || c == '\U{0085}' || c == '\U{00A0}'
    || c == '\U{1680}' || ('\U{2000}' <= c <= '\U{200A}') || c == '\U{2028}'
    || c == '\U{2029}' || c == '\U{202F}' || c == '\U{205F}' || c == '\U{3000}'
  }

  predicate IsAsciiDigit(c: char) { '0' <= c <= '9' }

  predicate IsAsciiLetter(c: char) { ('a' <= c <= 'z') || ('A' <= c <= 'Z') }

  /** `char::is_alphanumeric` on the ASCII range. */
  predicate IsAlphanumeric(c: char) { IsAsciiLetter(c) || IsAsciiDigit(c) }

  // ---------------------------------------------------------------------------
  // Prefixes, suffixes and occurrences
  // ---------------------------------------------------------------------------

  predicate StartsWith(s: string, p: string) {
    |p| <= |s| && s[..|p|] == p
  }

  predicate EndsWith(s: string, p: string) {
    |p| <= |s| && s[|s| - |p|..] == p
  }

  /** `t` agrees with `s` read from offset `i`, from `t`'s `k`-th char on;
      compared char by char. */
  predicate AgreeFrom(s: string, t: string, i: nat, k: nat)
    requires i + |t| <= |s| && k <= |t|
    decreases |t| - k
  {
    k == |t| || (s[i + k] == t[k] && AgreeFrom(s, t, i, k + 1))
  }

  /** `t` occurs in `s` at offset `i`. */
  predicate Occurs(s: string, t: string, i: int) {
    0 <= i && i + |t| <= |s| && AgreeFrom(s, t, i, 0)
  }

  lemma {:induction false} AgreeFromIsSlice(s: string, t: string, i: nat, k: nat)
    requires i + |t| <= |s| && k <= |t|
    ensures AgreeFrom(s, t, i, k) <==> s[i + k..i + |t|] == t[k..]
    decreases |t| - k
  {
    if k < |t| {
      AgreeFromIsSlice(s, t, i, k + 1);
      var a, b := s[i + k..i + |t|], t[k..];
      assert a == [s[i + k]] + s[i + k + 1..i + |t|];
      assert b == [t[k]] + t[k + 1..];
    }
  }

  /** An occurrence is a slice equal to the pattern. */
  lemma {:induction false} OccursIsSlice(s: string, t: string, i: int)
    ensures Occurs(s, t, i) <==> 0 <= i && i + |t| <= |s| && s[i..i + |t|] == t
  {
    if 0 <= i && i + |t| <= |s| {
      AgreeFromIsSlice(s, t, i, 0);
      assert t[0..] == t;
    }
  }

  lemma {:induction false} AgreeFromInSuffix(s: string, t: string, k: nat, j: nat, m: nat)
    requires k <= |s| && j + |t| <= |s| - k && m <= |t|
    ensures AgreeFrom(s[k..], t, j, m) <==> AgreeFrom(s, t, j + k, m)
    decreases |t| - m
  {
    if m < |t| {
      AgreeFromInSuffix(s, t, k, j, m + 1);
      assert s[k..][j + m] == s[j + k + m];
    }
  }

  lemma {:induction false} OccursInSuffix(s: string, t: string, k: nat, j: nat)
    requires k <= |s|
    ensures Occurs(s[k..], t, j) <==> Occurs(s, t, j + k)
  {
    if j + |t| <= |s| - k {
      AgreeFromInSuffix(s, t, k, j, 0);
    }
  }

  /** `str::find`: the offset of the first occurrence of `t` in `s`. */
  function Find(s: string, t: string): (r: Option<nat>)
    ensures r.Some? ==> Occurs(s, t, r.value)
    ensures r.Some? ==> forall j :: 0 <= j < r.value ==> !Occurs(s, t, j)
    ensures r.None? ==> forall j :: !Occurs(s, t, j)
    decreases |s|
  {
    if |t| > |s| then None
    else if Occurs(s, t, 0) then Some(0)
    else
      var rest := Find(s[1..], t);
      forall j | 1 <= j ensures Occurs(s, t, j) <==> Occurs(s[1..], t, j - 1) {
        OccursInSuffix(s, t, 1, j - 1);
      }
      match rest
      case None => None
      case Some(j) => Some(j + 1)
  }

  /** `str::contains` with a string pattern. */
  predicate Contains(s: string, t: string) {
    Find(s, t).Some?
  }

  lemma {:induction false} ContainsIff(s: string, t: string)
    ensures Contains(s, t) <==> exists i :: Occurs(s, t, i)
  {
  }

  lemma {:induction false} ContainsChar(s: string, c: char)
    ensures Contains(s, [c]) <==> c in s
  {
    if c in s {
      var i :| 0 <= i < |s| && s[i] == c;
      assert Occurs(s, [c], i);
    }
    if Contains(s, [c]) {
      var i := Find(s, [c]).value;
      assert s[i..i + 1] == [c];
      assert s[i] == c;
    }
  }

  /** A pattern holding a char the text lacks does not occur in it. */
  lemma {:induction false} MissingCharNotContained(s: string, t: string, c: char)
    requires c in t && c !in s
    ensures !Contains(s, t)
  {
    var j :| 0 <= j < |t| && t[j] == c;
    forall i | 0 <= i && i + |t| <= |s| ensures !Occurs(s, t, i) {
      OccursIsSlice(s, t, i);
      assert s[i..i + |t|][j] == s[i + j];
      assert s[i + j] in s;
    }
    ContainsIff(s, t);
  }

  /** Offsets shifted by `k`. */
  function Shift(ps: seq<nat>, k: nat): seq<nat> {
    seq(|ps|, j requires 0 <= j < |ps| => ps[j] + k)
  }

  /** The offsets that `str::match_indices` visits: non-overlapping occurrences,
      left to right, each search resuming after the previous match. */
  function Positions(s: string, t: string): seq<nat>
    requires |t| > 0
    decreases |s|
  {
    var f := Find(s, t);
    if f.None? then []
    else
      var i := f.value;
      [i] + Shift(Positions(s[i + |t|..], t), i + |t|)
  }

  /** Every position is an occurrence, and each starts at or after the end
      of the one before. */
  lemma {:induction false} PositionsSpec(s: string, t: string)
    requires |t| > 0
    ensures forall k :: 0 <= k < |Positions(s, t)| ==> Occurs(s, t, Positions(s, t)[k])
    ensures forall k :: 0 <= k < |Positions(s, t)| - 1 ==> Positions(s, t)[k] + |t| <= Positions(s, t)[k + 1]
    decreases |s|
  {
    var f := Find(s, t);
    if f.Some? {
      var i := f.value;
      var rest := Positions(s[i + |t|..], t);
      PositionsSpec(s[i + |t|..], t);
      OccursAfter(s, t, i + |t|, rest);
      var r := [i] + Shift(rest, i + |t|);
      assert Positions(s, t) == r;
      forall k | 0 <= k < |r| ensures Occurs(s, t, r[k]) {
        if k > 0 {
          assert r[k] == rest[k - 1] + (i + |t|);
        }
      }
      forall k | 0 <= k < |r| - 1 ensures r[k] + |t| <= r[k + 1] {
        if k > 0 {
          assert r[k] == rest[k - 1] + (i + |t|);
        }
      }
    }
  }

  lemma {:induction false} OccursAfter(s: string, t: string, k: nat, rest: seq<nat>)
    requires k <= |s|
    requires forall j :: 0 <= j < |rest| ==> Occurs(s[k..], t, rest[j])
    ensures forall j :: 0 <= j < |rest| ==> Occurs(s, t, rest[j] + k)
  {
    forall j | 0 <= j < |rest| ensures Occurs(s, t, rest[j] + k) {
      OccursInSuffix(s, t, k, rest[j]);
    }
  }

  /** The first position is the first occurrence, and no positions means no
      occurrence at all. */
  lemma {:induction false} PositionsFirst(s: string, t: string)
    requires |t| > 0
    ensures Positions(s, t) == [] <==> Find(s, t).None?
    ensures Positions(s, t) != [] ==> Find(s, t) == Some(Positions(s, t)[0])
  {
  }

  /** `str::matches(t).count()`; an empty pattern matches at every boundary. */
  function Count(s: string, t: string): nat {
    if |t| == 0 then |s| + 1 else |Positions(s, t)|
  }

  lemma {:induction false} CountZeroIff(s: string, t: string)
    requires |t| > 0
    ensures Count(s, t) == 0 <==> !Contains(s, t)
  {
  }

  // ---------------------------------------------------------------------------
  // Trimming
  // ---------------------------------------------------------------------------

  /** Number of leading whitespace chars. */
  function LeadingWs(s: string): (k: nat)
    ensures k <= |s|
    ensures forall i :: 0 <= i < k ==> IsWhitespace(s[i])
    ensures k < |s| ==> !IsWhitespace(s[k])
    decreases |s|
  {
    if |s| > 0 && IsWhitespace(s[0]) then 1 + LeadingWs(s[1..]) else 0
  }

  /** Number of trailing whitespace chars. */
  function TrailingWs(s: string): (k: nat)
    ensures k <= |s|
    ensures forall i :: |s| - k <= i < |s| ==> IsWhitespace(s[i])
    ensures k < |s| ==> !IsWhitespace(s[|s| - k - 1])
    decreases |s|
  {
    if |s| > 0 && IsWhitespace(s[|s| - 1]) then 1 + TrailingWs(s[..|s| - 1]) else 0
  }

  function TrimStart(s: string): string { s[LeadingWs(s)..] }

  function TrimEnd(s: string): string { s[..|s| - TrailingWs(s)] }

  /** `str::trim`. */
  function Trim(s: string): string { TrimEnd(TrimStart(s)) }

  /** A whitespace-only line (`trim().is_empty()`). */
  predicate IsBlank(s: string) { Trim(s) == "" }

  lemma {:induction false} BlankIff(s: string)
    ensures IsBlank(s) <==> forall i :: 0 <= i < |s| ==> IsWhitespace(s[i])
  {
    var k := LeadingWs(s);
    if k < |s| {
      var t := s[k..];
      assert t[0] == s[k];
      var e := TrailingWs(t);
    }
  }

  // ---------------------------------------------------------------------------
  // Splitting, joining and replacing
  // ---------------------------------------------------------------------------

  /** `parts.join(sep)`. */
  function JoinWith(parts: seq<string>, sep: string): string
    decreases |parts|
  {
    if |parts| == 0 then ""
    else if |parts| == 1 then parts[0]
    else parts[0] + sep + JoinWith(parts[1..], sep)
  }

  lemma {:induction false} JoinAppend(a: seq<string>, b: seq<string>, sep: string)
    requires |a| > 0 && |b| > 0
    ensures JoinWith(a + b, sep) == JoinWith(a, sep) + sep + JoinWith(b, sep)
    decreases |a|
  {
    if |a| == 1 {
      assert (a + b)[1..] == b;
    } else {
      assert (a + b)[1..] == a[1..] + b;
      JoinAppend(a[1..], b, sep);
    }
  }

  /** `str::split` with a non-empty pattern. */
  function SplitNonEmpty(s: string, sep: string): (r: seq<string>)
    requires |sep| > 0
    ensures |r| >= 1
    decreases |s|
  {
    match Find(s, sep)
    case None => [s]
    case Some(i) => [s[..i]] + SplitNonEmpty(s[i + |sep|..], sep)
  }

  /** The single-char strings of `s`. */
  function Chars(s: string): (r: seq<string>)
    ensures |r| == |s|
    ensures forall i :: 0 <= i < |s| ==> r[i] == [s[i]]
  {
    seq(|s|, i requires 0 <= i < |s| => [s[i]])
  }

  /** `str::split`: an empty pattern splits at every char boundary,
      including both ends. */
  function Split(s: string, sep: string): (r: seq<string>)
    ensures |r| >= 1
  {
    if |sep| == 0 then [""] + Chars(s) + [""] else SplitNonEmpty(s, sep)
  }

  /** `str::replace` with a non-empty pattern. */
  function ReplaceNonEmpty(s: string, p: string, r: string): string
    requires |p| > 0
    decreases |s|
  {
    match Find(s, p)
    case None => s
    case Some(i) => s[..i] + r + ReplaceNonEmpty(s[i + |p|..], p, r)
  }

  /** `str::replace` with an empty pattern: the replacement goes before every
      char and at the end. */
  function Interleave(s: string, r: string): string
    decreases |s|
  {
    if |s| == 0 then r else r + [s[0]] + Interleave(s[1..], r)
  }

  /** `str::replace`. */
  function Replace(s: string, p: string, r: string): string {
    if |p| == 0 then Interleave(s, r) else ReplaceNonEmpty(s, p, r)
  }

  lemma {:induction false} SplitJoinNonEmpty(s: string, sep: string)
    requires |sep| > 0
    ensures JoinWith(SplitNonEmpty(s, sep), sep) == s
    decreases |s|
  {
    match Find(s, sep)
    case None =>
    case Some(i) =>
      var rest := SplitNonEmpty(s[i + |sep|..], sep);
      SplitJoinNonEmpty(s[i + |sep|..], sep);
      assert ([s[..i]] + rest)[1..] == rest;
      OccursIsSlice(s, sep, i);
      assert s == s[..i] + s[i..i + |sep|] + s[i + |sep|..];
  }

  lemma {:induction false} SplitCountNonEmpty(s: string, sep: string)
    requires |sep| > 0
    ensures |SplitNonEmpty(s, sep)| == |Positions(s, sep)| + 1
    decreases |s|
  {
    match Find(s, sep)
    case None =>
    case Some(i) =>
      SplitCountNonEmpty(s[i + |sep|..], sep);
  }

  lemma {:induction false} SplitReplaceNonEmpty(s: string, p: string, r: string)
    requires |p| > 0
    ensures JoinWith(SplitNonEmpty(s, p), r) == ReplaceNonEmpty(s, p, r)
    decreases |s|
  {
    match Find(s, p)
    case None =>
    case Some(i) =>
      var rest := SplitNonEmpty(s[i + |p|..], p);
      SplitReplaceNonEmpty(s[i + |p|..], p, r);
      assert ([s[..i]] + rest)[1..] == rest;
  }

  lemma {:induction false} SplitReplaceEmpty(s: string, r: string)
    ensures JoinWith([""] + Chars(s) + [""], r) == Interleave(s, r)
    decreases |s|
  {
    if |s| == 0 {
      assert [""] + Chars(s) + [""] == ["", ""];
    } else {
      var tail := Chars(s[1..]) + [""];
      assert Chars(s) + [""] == [[s[0]]] + tail;
      calc {
        JoinWith([""] + Chars(s) + [""], r);
        { assert [""] + Chars(s) + [""] == [""] + ([[s[0]]] + tail); }
        JoinWith([""] + ([[s[0]]] + tail), r);
        { JoinAppend([""], [[s[0]]] + tail, r); }
        "" + r + JoinWith([[s[0]]] + tail, r);
        { JoinAppend([[s[0]]], tail, r); }
        r + [s[0]] + r + JoinWith(tail, r);
        { JoinAppend([""], tail, r);
          assert [""] + tail == [""] + Chars(s[1..]) + [""]; }
        r + [s[0]] + JoinWith([""] + Chars(s[1..]) + [""], r);
        { SplitReplaceEmpty(s[1..], r); }
        r + [s[0]] + Interleave(s[1..], r);
      }
    }
  }

  /** Joining the pieces of `split(p)` with `r` is `replace(p, r)`. */
  lemma {:induction false} SplitThenJoinIsReplace(s: string, p: string, r: string)
    ensures JoinWith(Split(s, p), r) == Replace(s, p, r)
  {
    if |p| == 0 {
      SplitReplaceEmpty(s, r);
    } else {
      SplitReplaceNonEmpty(s, p, r);
    }
  }

  /** Joining the pieces of `split(p)` with `p` gives the text back. */
  lemma {:induction false} SplitThenJoinIsIdentity(s: string, p: string)
    ensures JoinWith(Split(s, p), p) == s
  {
    if |p| == 0 {
      SplitReplaceEmpty(s, p);
      InterleaveEmpty(s);
    } else {
      SplitJoinNonEmpty(s, p);
    }
  }

  lemma {:induction false} InterleaveEmpty(s: string)
    ensures Interleave(s, "") == s
    decreases |s|
  {
    if |s| > 0 {
      InterleaveEmpty(s[1..]);
      assert s == [s[0]] + s[1..];
    }
  }

  /** `split(p)` yields one more piece than there are matches of `p`. */
  lemma {:induction false} SplitCount(s: string, p: string)
    ensures |Split(s, p)| == Count(s, p) + 1
  {
    if |p| > 0 {
      SplitCountNonEmpty(s, p);
    }
  }

  lemma {:induction false} SplitNoSeparator(parts: seq<string>, c: char)
    requires |parts| >= 1
    requires forall k :: 0 <= k < |parts| ==> c !in parts[k]
    ensures SplitNonEmpty(JoinWith(parts, [c]), [c]) == parts
    decreases |parts|
  {
    var s := JoinWith(parts, [c]);
    if |parts| == 1 {
      ContainsChar(s, c);
    } else {
      var x := parts[0];
      assert s == x + [c] + JoinWith(parts[1..], [c]);
      assert Occurs(s, [c], |x|) by {
        assert s[|x|..|x| + 1] == [c];
      }
      forall j | 0 <= j < |x| ensures !Occurs(s, [c], j) {
        assert s[j] == x[j];
      }
      assert Find(s, [c]) == Some(|x|);
      assert s[..|x|] == x;
      assert s[|x| + 1..] == JoinWith(parts[1..], [c]);
      SplitNoSeparator(parts[1..], c);
      assert parts == [x] + parts[1..];
    }
  }

  /** No piece of a split on one char contains that char. */
  lemma {:induction false} PiecesFree(s: string, c: char)
    ensures forall k :: 0 <= k < |SplitNonEmpty(s, [c])| ==> c !in SplitNonEmpty(s, [c])[k]
    decreases |s|
  {
    var ps := SplitNonEmpty(s, [c]);
    match Find(s, [c])
    case None =>
      ContainsChar(s, c);
    case Some(i) =>
      PiecesFree(s[i + 1..], c);
      forall j | 0 <= j < i ensures s[..i][j] != c {
        assert !Occurs(s, [c], j);
        assert AgreeFrom(s, [c], j, 1);
        assert s[..i][j] == s[j];
      }
  }

  /** Splitting text that lacks the separator char gives the text back. */
  lemma {:induction false} SplitFree(s: string, c: char)
    requires c !in s
    ensures Split(s, [c]) == [s]
  {
    ContainsChar(s, c);
  }

  /** `str::rfind` with a char: the offset of the last occurrence. */
  function RFindChar(s: string, c: char): (r: Option<nat>)
    ensures r.Some? ==> r.value < |s| && s[r.value] == c
    ensures r.Some? ==> forall j :: r.value < j < |s| ==> s[j] != c
    ensures r.None? ==> c !in s
    decreases |s|
  {
    if |s| == 0 then None
    else if s[|s| - 1] == c then Some(|s| - 1)
    else RFindChar(s[..|s| - 1], c)
  }

  /** The last occurrence of `c` is the one `RFindChar` finds. */
  lemma {:induction false} RFindLast(s: string, c: char, i: nat)
    requires i < |s| && s[i] == c
    requires forall j :: i < j < |s| ==> s[j] != c
    ensures RFindChar(s, c) == Some(i)
    decreases |s|
  {
    if i < |s| - 1 {
      RFindLast(s[..|s| - 1], c, i);
    }
  }

  // ---------------------------------------------------------------------------
  // Number parsing
  // ---------------------------------------------------------------------------

  const U32Max: nat := 0xFFFF_FFFF

  predicate AllDigits(s: string) {
    forall i :: 0 <= i < |s| ==> IsAsciiDigit(s[i])
  }

  /** Decimal value of a digit string. */
  function DigitsValue(s: string): nat
    requires AllDigits(s)
    decreases |s|
  {
    if |s| == 0 then 0
    else DigitsValue(s[..|s| - 1]) * 10 + (s[|s| - 1] as int - '0' as int)
  }

  /** `u32::from_str`: an optional `+`, at least one ASCII digit, nothing else,
      and a value that fits in 32 bits. */
  function ParseU32(s: string): (r: Option<nat>)
    ensures r.Some? ==> r.value <= U32Max
    ensures r.Some? ==> |s| > 0 && (IsAsciiDigit(s[0]) || s[0] == '+')
  {
    var digits := if |s| > 0 && s[0] == '+' then s[1..] else s;
    if |digits| > 0 && AllDigits(digits) && DigitsValue(digits) <= U32Max
    then Some(DigitsValue(digits))
    else None
  }

  /** `n.to_string()`. */
  function NatToString(n: nat): (r: string)
    ensures |r| > 0 && AllDigits(r)
    decreases n
  {
    if n < 10 then [('0' as int + n) as char]
    else NatToString(n / 10) + [('0' as int + n % 10) as char]
  }

  lemma {:induction false} NatToStringValue(n: nat)
    ensures DigitsValue(NatToString(n)) == n
    decreases n
  {
    if n >= 10 {
      var s := NatToString(n);
      NatToStringValue(n / 10);
      assert s[..|s| - 1] == NatToString(n / 10);
    }
  }

  /** Printing a 32-bit value and parsing it back gives the value. */
  lemma {:induction false} ParsePrinted(n: nat)
    requires n <= U32Max
    ensures ParseU32(NatToString(n)) == Some(n)
  {
    NatToStringValue(n);
  }
}
