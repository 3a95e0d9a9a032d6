/** The handful of Python `str` operations the assistant relies on, with the exact
    semantics of CPython: `in` (substring test), `str.strip()` with no argument,
    `str.replace(old, '')`, `str.split(sep)`, `sep.join(parts)` and ASCII `str.lower()`. */
module TextOps {

  /** Characters for which Python's `str.isspace()` is true; `strip()` removes these. */
  predicate IsSpace(c: char) {
    c == ' ' || c == '\t' || c == '\n' || c == '\r' || c == '\U{000B}' || c == '\U{000C}'
    || c == '\U{001C}' || c == '\U{001D}' || c == '\U{001E}' || c == '\U{001F}'
    || c == '\U{0085}' || c == '\U{00A0}' || c == '\U{1680}'
    || ('\U{2000}' <= c <= '\U{200A}')
    || c == '\U{2028}' || c == '\U{2029}' || c == '\U{202F}' || c == '\U{205F}' || c == '\U{3000}'
  }

  // ---------------------------------------------------------------------------
  // strip()

  /** `s.lstrip()`: the longest suffix of `s` that does not start with whitespace. */
  function TrimLeft(s: string): (r: string)
    ensures |r| <= |s| && r == s[|s| - |r|..]
    ensures forall k :: 0 <= k < |s| - |r| ==> IsSpace(s[k])
    ensures r != [] ==> !IsSpace(r[0])
    decreases |s|
  {
    if |s| > 0 && IsSpace(s[0]) then TrimLeft(s[1..]) else s
  }

  /** `s.rstrip()`: the longest prefix of `s` that does not end with whitespace. */
  function TrimRight(s: string): (r: string)
    ensures |r| <= |s| && r == s[..|r|]
    ensures forall k :: |r| <= k < |s| ==> IsSpace(s[k])
    ensures r != [] ==> !IsSpace(r[|r| - 1])
    decreases |s|
  {
    if |s| > 0 && IsSpace(s[|s| - 1]) then TrimRight(s[..|s| - 1]) else s
  }

  /** `s.strip()`: `s` without its leading and trailing whitespace. */
  function Strip(s: string): (r: string)
    ensures |r| <= |s|
    ensures r != [] ==> !IsSpace(r[0]) && !IsSpace(r[|r| - 1])
  {
    TrimRight(TrimLeft(s))
  }

  /** The stripped text is the slice of `s` that starts at `i`, and everything of `s`
      outside that slice is whitespace. */
  lemma StripSlice(s: string) returns (i: nat)
    ensures i + |Strip(s)| <= |s| && Strip(s) == s[i..i + |Strip(s)|]
    ensures forall k :: 0 <= k < i ==> IsSpace(s[k])
    ensures forall k :: i + |Strip(s)| <= k < |s| ==> IsSpace(s[k])
  {
    var l := TrimLeft(s);
    i := |s| - |l|;
    var r := TrimRight(l);
    assert Strip(s) == r;
    SliceOfSuffix(s, i, r);
    SpaceAfterSlice(s, i, l, r);
  }

  /** A prefix of the suffix `s[i..]` is a slice of `s`. */
  lemma SliceOfSuffix(s: string, i: nat, r: string)
    requires i <= |s| && |r| <= |s| - i && r == s[i..][..|r|]
    ensures r == s[i..i + |r|]
  {
  }

  /** Whitespace after `r` in `l == s[i..]` is whitespace after the slice in `s`. */
  lemma SpaceAfterSlice(s: string, i: nat, l: string, r: string)
    requires i <= |s| && l == s[i..] && |r| <= |l|
    requires forall k :: |r| <= k < |l| ==> IsSpace(l[k])
    ensures forall k :: i + |r| <= k < |s| ==> IsSpace(s[k])
  {
    forall k | i + |r| <= k < |s| ensures IsSpace(s[k]) {
      assert s[k] == l[k - i];
    }
  }

  /** Text without whitespace at either end is left as it is. */
  lemma StripNoop(s: string)
    requires s != [] ==> !IsSpace(s[0]) && !IsSpace(s[|s| - 1])
    ensures Strip(s) == s
  {
    StripPadded([], s, []);
    assert [] + s + [] == s;
  }

  /** Strip removes exactly surrounding whitespace: text with no whitespace at either
      end, padded with whitespace on both sides, strips back to itself. */
  lemma StripPadded(pre: string, t: string, post: string)
    requires forall k :: 0 <= k < |pre| ==> IsSpace(pre[k])
    requires forall k :: 0 <= k < |post| ==> IsSpace(post[k])
    requires t != [] ==> !IsSpace(t[0]) && !IsSpace(t[|t| - 1])
    ensures Strip(pre + t + post) == t
  {
    var s := pre + t + post;
    if t == [] {
      assert s == (pre + post) + "";
      assert forall k :: 0 <= k < |pre + post| ==> IsSpace((pre + post)[k]);
      TrimLeftPadded(pre + post, "");
      assert TrimLeft(s) == "";
    } else {
      assert s == pre + (t + post);
      assert (t + post)[0] == t[0];
      TrimLeftPadded(pre, t + post);
      assert TrimLeft(s) == t + post;
      TrimRightPadded(t, post);
    }
  }

  lemma {:induction false} TrimLeftPadded(pre: string, t: string)
    requires forall k :: 0 <= k < |pre| ==> IsSpace(pre[k])
    requires t != [] ==> !IsSpace(t[0])
    ensures TrimLeft(pre + t) == t
    decreases |pre|
  {
    if pre != [] {
      assert (pre + t)[1..] == pre[1..] + t;
      TrimLeftPadded(pre[1..], t);
    }
  }

  lemma {:induction false} TrimRightPadded(t: string, post: string)
    requires forall k :: 0 <= k < |post| ==> IsSpace(post[k])
    requires t != [] ==> !IsSpace(t[|t| - 1])
    ensures TrimRight(t + post) == t
    decreases |post|
  {
    if post != [] {
      var q := post[..|post| - 1];
      assert (t + post)[..|t + post| - 1] == t + q;
      TrimRightPadded(t, q);
    }
  }

  /** Stripping twice is stripping once. */
  lemma StripIdempotent(s: string)
    ensures Strip(Strip(s)) == Strip(s)
  {
    StripNoop(Strip(s));
  }

  // ---------------------------------------------------------------------------
  // `p in s`

  predicate StartsWith(s: string, p: string) {
    |p| <= |s| && s[..|p|] == p
  }

  /** `p` occurs in `s` starting at index `i`. */
  predicate OccursAt(s: string, p: string, i: int) {
    0 <= i && i + |p| <= |s| && s[i..i + |p|] == p
  }

  /** Python's `p in s`, scanning `s` from the left. */
  predicate Contains(s: string, p: string)
    decreases |s|
  {
    StartsWith(s, p) || (|s| > 0 && Contains(s[1..], p))
  }

  /** `Contains` is the textbook definition: some index where `p` occurs. */
  lemma {:induction false} ContainsIff(s: string, p: string)
    ensures Contains(s, p) <==> exists i :: OccursAt(s, p, i)
    decreases |s|
  {
    if StartsWith(s, p) {
      assert OccursAt(s, p, 0);
    } else if |s| > 0 {
      ContainsIff(s[1..], p);
      if Contains(s[1..], p) {
        var i :| OccursAt(s[1..], p, i);
        assert s[1..][i..i + |p|] == s[i + 1..i + 1 + |p|];
        assert OccursAt(s, p, i + 1);
      }
      forall i | OccursAt(s, p, i) ensures Contains(s[1..], p) {
        assert i != 0;
        assert s[1..][i - 1..i - 1 + |p|] == s[i..i + |p|];
        assert OccursAt(s[1..], p, i - 1);
      }
    } else {
      forall i | OccursAt(s, p, i) ensures false {
      }
    }
  }

  /** Anything that contains `p + q` contains `p`. */
  lemma ContainsPrefixOfPattern(s: string, p: string, q: string)
    ensures Contains(s, p + q) ==> Contains(s, p)
  {
    if Contains(s, p + q) {
      ContainsIff(s, p + q);
      var i :| OccursAt(s, p + q, i);
      assert s[i..i + |p|] == (p + q)[..|p|] == p;
      assert OccursAt(s, p, i);
      ContainsIff(s, p);
    }
  }

  /** A slice of text without `p` holds no `p` either. */
  lemma SliceIsFree(s: string, p: string, a: nat, b: nat)
    requires a <= b <= |s| && !Contains(s, p)
    ensures !Contains(s[a..b], p)
  {
    ContainsIff(s[a..b], p);
    ContainsIff(s, p);
    forall j | OccursAt(s[a..b], p, j) ensures OccursAt(s, p, a + j) {
      var u, v := s[a..b][j..j + |p|], s[a + j..a + j + |p|];
      assert forall t :: 0 <= t < |p| ==> u[t] == v[t];
      assert u == v;
    }
  }

  /** Stripping cannot create an occurrence. */
  lemma StripIsFree(s: string, p: string)
    requires !Contains(s, p)
    ensures !Contains(Strip(s), p)
  {
    var i := StripSlice(s);
    SliceIsFree(s, p, i, i + |Strip(s)|);
  }

  /** The index-based scan CPython performs for `p in s`, starting at index `i`: try
      each start index in turn and compare character by character. */
  predicate ContainsFrom(s: string, p: string, i: nat)
    decreases |s| - i
  {
    i + |p| <= |s| && (MatchesAt(s, p, i, 0) || ContainsFrom(s, p, i + 1))
  }

  predicate MatchesAt(s: string, p: string, i: nat, j: nat)
    requires i + |p| <= |s| && j <= |p|
    decreases |p| - j
  {
    j == |p| || (s[i + j] == p[j] && MatchesAt(s, p, i, j + 1))
  }

  lemma {:induction false} MatchesAtIff(s: string, p: string, i: nat, j: nat)
    requires i + |p| <= |s| && j <= |p|
    ensures MatchesAt(s, p, i, j) <==> s[i + j..i + |p|] == p[j..]
    decreases |p| - j
  {
    if j < |p| {
      MatchesAtIff(s, p, i, j + 1);
      assert s[i + j..i + |p|] == [s[i + j]] + s[i + j + 1..i + |p|];
      assert p[j..] == [p[j]] + p[j + 1..];
    }
  }

  /** The index-based scan agrees with `Contains`. */
  lemma {:induction false} ContainsFromIff(s: string, p: string, i: nat)
    requires i <= |s|
    ensures ContainsFrom(s, p, i) <==> Contains(s[i..], p)
    decreases |s| - i
  {
    if i + |p| > |s| {
      NoShortContains(s[i..], p);
    } else {
      MatchesAtIff(s, p, i, 0);
      assert StartsWith(s[i..], p) <==> s[i..i + |p|] == p by {
        assert s[i..][..|p|] == s[i..i + |p|];
      }
      if !MatchesAt(s, p, i, 0) {
        ContainsFromIff(s, p, i + 1);
        assert s[i..][1..] == s[i + 1..];
      }
    }
  }

  /** A pattern whose first character is missing from `s` does not occur in it. */
  lemma {:induction false} HeadAbsent(s: string, p: string)
    requires |p| > 0 && p[0] !in s
    ensures !Contains(s, p)
    decreases |s|
  {
    if |s| > 0 {
      assert forall c :: c in s[1..] ==> c in s;
      HeadAbsent(s[1..], p);
    }
  }

  /** A non-empty pattern never occurs in the empty string. */
  lemma NotInEmpty(p: string)
    requires |p| > 0
    ensures !Contains("", p)
  {
  }

  /** The first character of `p` occurs nowhere else in `p`. The patterns the assistant
      looks for ("play", "in", "wikipedia", " ") have this property, so two of their
      occurrences can never overlap. */
  predicate HeadUnique(p: string) {
    forall k :: 0 < k < |p| ==> p[k] != p[0]
  }

  /** The number of indices of `s` at which `p` occurs. */
  function Occurrences(s: string, p: string): (n: nat)
    requires |p| > 0
    ensures n <= |s|
    decreases |s|
  {
    if |s| < |p| then 0
    else (if StartsWith(s, p) then 1 else 0) + Occurrences(s[1..], p)
  }

  lemma {:induction false} OccurrencesPositive(s: string, p: string)
    requires |p| > 0
    ensures Contains(s, p) <==> Occurrences(s, p) > 0
    decreases |s|
  {
    if |s| < |p| {
      if |s| > 0 {
        OccurrencesPositive(s[1..], p);
      }
    } else if !StartsWith(s, p) {
      OccurrencesPositive(s[1..], p);
    }
  }

  /** When `s` starts with a head-unique `p`, none of the next `|p| - 1` indices can start
      another occurrence. */
  lemma {:induction false} SkipInsideOccurrence(s: string, p: string, k: nat)
    requires |p| > 0 && HeadUnique(p) && StartsWith(s, p)
    requires 1 <= k <= |p|
    ensures Occurrences(s[1..], p) == Occurrences(s[k..], p)
    decreases k
  {
    if k > 1 {
      SkipInsideOccurrence(s, p, k - 1);
      var t := s[k - 1..];
      assert t[0] == s[..|p|][k - 1] == p[k - 1] != p[0];
      assert !StartsWith(t, p);
      assert t[1..] == s[k..];
      assert Occurrences(t, p) == Occurrences(t[1..], p);
    }
  }

  // ---------------------------------------------------------------------------
  // str.replace(p, '')

  /** `s.replace(p, '')`: scan from the left and delete each occurrence of `p` found,
      resuming after it. */
  function Remove(s: string, p: string): (r: string)
    requires |p| > 0
    ensures |r| <= |s|
    decreases |s|
  {
    if |s| < |p| then s
    else if StartsWith(s, p) then Remove(s[|p|..], p)
    else [s[0]] + Remove(s[1..], p)
  }

  /** Every occurrence of a head-unique `p` is deleted: the text shrinks by `|p|` for
      each index where `p` occurred. */
  lemma {:induction false} RemoveLength(s: string, p: string)
    requires |p| > 0 && HeadUnique(p)
    ensures |Remove(s, p)| == |s| - |p| * Occurrences(s, p)
    decreases |s|
  {
    if |s| < |p| {
      assert Occurrences(s, p) == 0;
    } else if StartsWith(s, p) {
      var t := s[|p|..];
      RemoveLength(t, p);
      SkipInsideOccurrence(s, p, |p|);
      var n := Occurrences(t, p);
      assert Remove(s, p) == Remove(t, p);
      assert Occurrences(s, p) == 1 + n;
      MulStep(|p|, n);
    } else {
      RemoveLength(s[1..], p);
      assert Remove(s, p) == [s[0]] + Remove(s[1..], p);
      assert Occurrences(s, p) == Occurrences(s[1..], p);
    }
  }

  lemma MulStep(a: int, n: int)
    ensures a * (1 + n) == a + a * n
  {
  }

  /** Text without `p` is untouched. */
  lemma {:induction false} RemoveAbsent(s: string, p: string)
    requires |p| > 0 && !Contains(s, p)
    ensures Remove(s, p) == s
    decreases |s|
  {
    if |s| >= |p| {
      RemoveAbsent(s[1..], p);
    }
  }

  /** Removing a single character keeps every other character, in order. */
  function Without(s: string, c: char): (r: string)
    ensures forall k :: 0 <= k < |r| ==> r[k] != c
    ensures |r| <= |s|
  {
    if s == [] then [] else (if s[0] == c then [] else [s[0]]) + Without(s[1..], c)
  }

  lemma {:induction false} RemoveChar(s: string, c: char)
    ensures Remove(s, [c]) == Without(s, c)
    decreases |s|
  {
    if s != [] {
      RemoveChar(s[1..], c);
    }
  }

  // ---------------------------------------------------------------------------
  // str.split(sep) and sep.join(parts)

  /** `s.split(sep)`: the pieces between the occurrences of `sep` found scanning from
      the left. There is always at least one piece, the first piece is a prefix of `s`,
      and no piece contains `sep`. */
  function Split(s: string, sep: string): (r: seq<string>)
    requires |sep| > 0
    ensures |r| >= 1 && |r[0]| <= |s| && r[0] == s[..|r[0]|]
    ensures forall k :: 0 <= k < |r| ==> !Contains(r[k], sep)
    decreases |s|
  {
    if |s| < |sep| then
      NoShortContains(s, sep);
      [s]
    else if StartsWith(s, sep) then
      [""] + Split(s[|sep|..], sep)
    else
      var rest := Split(s[1..], sep);
      var first := [s[0]] + rest[0];
      assert rest[0] == s[1..][..|rest[0]|];
      assert first == s[..|first|];
      assert !StartsWith(first, sep) by {
        if |sep| <= |first| {
          assert first[..|sep|] == s[..|sep|];
        }
      }
      assert first[1..] == rest[0];
      [first] + rest[1..]
  }

  lemma {:induction false} NoShortContains(s: string, p: string)
    requires |s| < |p|
    ensures !Contains(s, p)
    decreases |s|
  {
    if |s| > 0 {
      NoShortContains(s[1..], p);
    }
  }

  /** `sep.join(parts)`. */
  function Join(parts: seq<string>, sep: string): (r: string)
    ensures |parts| == 1 ==> r == parts[0]
    decreases |parts|
  {
    if |parts| == 0 then ""
    else if |parts| == 1 then parts[0]
    else parts[0] + sep + Join(parts[1..], sep)
  }

  /** The last element of a non-empty sequence (Python's `xs[-1]`). */
  function Last<T>(xs: seq<T>): T
    requires |xs| > 0
  {
    xs[|xs| - 1]
  }

  lemma JoinCons(c: char, parts: seq<string>, sep: string)
    requires |parts| >= 1
    ensures Join([[c] + parts[0]] + parts[1..], sep) == [c] + Join(parts, sep)
  {
    var q := [[c] + parts[0]] + parts[1..];
    assert q[1..] == parts[1..];
  }

  /** Joining the pieces with the separator gives back the original text. */
  lemma {:induction false} JoinSplit(s: string, sep: string)
    requires |sep| > 0
    ensures Join(Split(s, sep), sep) == s
    decreases |s|
  {
    if |s| < |sep| {
    } else if StartsWith(s, sep) {
      var rest := Split(s[|sep|..], sep);
      JoinSplit(s[|sep|..], sep);
      assert ([""] + rest)[1..] == rest;
      assert s == sep + s[|sep|..];
    } else {
      var rest := Split(s[1..], sep);
      JoinSplit(s[1..], sep);
      JoinCons(s[0], rest, sep);
    }
  }

  /** `s.replace(p, '')` is `''.join(s.split(p))`. */
  lemma {:induction false} RemoveIsJoinedSplit(s: string, p: string)
    requires |p| > 0
    ensures Remove(s, p) == Join(Split(s, p), "")
    decreases |s|
  {
    if |s| < |p| {
    } else if StartsWith(s, p) {
      var rest := Split(s[|p|..], p);
      RemoveIsJoinedSplit(s[|p|..], p);
      assert ([""] + rest)[1..] == rest;
    } else {
      var rest := Split(s[1..], p);
      RemoveIsJoinedSplit(s[1..], p);
      JoinCons(s[0], rest, "");
    }
  }

  /** With a head-unique separator there is one piece more than there are occurrences. */
  lemma {:induction false} SplitCount(s: string, sep: string)
    requires |sep| > 0 && HeadUnique(sep)
    ensures |Split(s, sep)| == Occurrences(s, sep) + 1
    decreases |s|
  {
    if |s| < |sep| {
    } else if StartsWith(s, sep) {
      SplitCount(s[|sep|..], sep);
      SkipInsideOccurrence(s, sep, |sep|);
    } else {
      SplitCount(s[1..], sep);
    }
  }

  /** Joining the pieces with the separator and splitting again gives back the pieces,
      provided no piece contains the (head-unique) separator. */
  lemma {:induction false} SplitJoin(parts: seq<string>, sep: string)
    requires |sep| > 0 && HeadUnique(sep) && |parts| >= 1
    requires forall k :: 0 <= k < |parts| ==> !Contains(parts[k], sep)
    ensures Split(Join(parts, sep), sep) == parts
    decreases |parts|
  {
    if |parts| == 1 {
      RemoveAbsentSplit(parts[0], sep);
    } else {
      SplitJoin(parts[1..], sep);
      SplitAfterPiece(parts[0], sep, Join(parts[1..], sep));
    }
  }

  lemma {:induction false} RemoveAbsentSplit(s: string, sep: string)
    requires |sep| > 0 && !Contains(s, sep)
    ensures Split(s, sep) == [s]
    decreases |s|
  {
    if |s| >= |sep| {
      assert !Contains(s[1..], sep);
      RemoveAbsentSplit(s[1..], sep);
      assert [s[0]] + s[1..] == s;
    } else {
      NoShortContains(s, sep);
    }
  }

  /** Splitting `a + sep + rest`, where `a` holds no separator, cuts off exactly `a`. */
  lemma {:induction false} SplitAfterPiece(a: string, sep: string, rest: string)
    requires |sep| > 0 && HeadUnique(sep) && !Contains(a, sep)
    ensures Split(a + sep + rest, sep) == [a] + Split(rest, sep)
    decreases |a|
  {
    var s := a + sep + rest;
    if a == [] {
      assert s == sep + rest;
      assert StartsWith(s, sep);
      assert s[|sep|..] == rest;
    } else {
      NoStartBeforePiece(a, sep, rest);
      assert !Contains(a[1..], sep);
      assert s[1..] == a[1..] + sep + rest;
      SplitAfterPiece(a[1..], sep, rest);
      assert [a[0]] + a[1..] == a;
    }
  }

  /** Text that begins with a non-empty piece free of a head-unique separator does not
      begin with the separator. */
  lemma NoStartBeforePiece(a: string, sep: string, rest: string)
    requires |sep| > 0 && HeadUnique(sep) && !Contains(a, sep) && a != []
    ensures !StartsWith(a + sep + rest, sep)
  {
    var s := a + sep + rest;
    if |a| >= |sep| {
      assert s[..|sep|] == a[..|sep|];
    } else {
      assert s[|a|] == sep[0];
    }
  }

  /** Deleting a head-unique `p` from `a + p + rest`, where `a` holds no `p`, keeps `a`
      and deletes that occurrence. */
  lemma RemoveAfterPiece(a: string, p: string, rest: string)
    requires |p| > 0 && HeadUnique(p) && !Contains(a, p)
    ensures Remove(a + p + rest, p) == a + Remove(rest, p)
  {
    var parts := Split(rest, p);
    RemoveIsJoinedSplit(a + p + rest, p);
    SplitAfterPiece(a, p, rest);
    RemoveIsJoinedSplit(rest, p);
    assert ([a] + parts)[1..] == parts;
    assert Join([a] + parts, "") == a + "" + Join(parts, "");
  }

  /** Splitting at the last piece: `s` is the earlier text, the separator, and the last
      piece, whenever the separator occurs at all. */
  lemma {:induction false} JoinLast(parts: seq<string>, sep: string)
    requires |parts| >= 2
    ensures Join(parts, sep) == Join(parts[..|parts| - 1], sep) + sep + Last(parts)
    decreases |parts|
  {
    var init := parts[..|parts| - 1];
    if |parts| == 2 {
      assert init == [parts[0]];
    } else {
      JoinLast(parts[1..], sep);
      assert parts[1..][..|parts| - 2] == init[1..];
      assert Last(parts[1..]) == Last(parts);
      assert Join(init, sep) == init[0] + sep + Join(init[1..], sep);
      assert init[0] == parts[0];
    }
  }

  // ---------------------------------------------------------------------------
  // str.lower()

  /** ASCII case mapping of one character. */
  function LowerChar(c: char): (d: char)
    ensures 'A' <= c <= 'Z' ==> d as int == c as int + 32
    ensures !('A' <= c <= 'Z') ==> d == c
    ensures !('A' <= d <= 'Z')
  {
    if 'A' <= c <= 'Z' then (c as int + 32) as char else c
  }

  /** `s.lower()` restricted to ASCII letters. */
  function Lower(s: string): (r: string)
    ensures |r| == |s|
    ensures forall k :: 0 <= k < |s| ==> r[k] == LowerChar(s[k])
  {
    seq(|s|, k requires 0 <= k < |s| => LowerChar(s[k]))
  }

  /** Lower-casing lower-case text changes nothing. */
  lemma LowerIdempotent(s: string)
    ensures Lower(Lower(s)) == Lower(s)
  {
  }
}
