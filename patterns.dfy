/** The regular expressions the label counters apply to ZPL text, as matchers on
    positions, with JavaScript's global-match scan and a reference definition
    (every index at which the pattern matches) proved to agree with it. */
module Patterns {
  import opened Text
  import opened Wrappers

  /** The three shapes of regular expression used on ZPL text. */
  datatype Pattern =
    | Literal(lit: string)                             // /lit/
    | NotFollowedBy(lit: string, banned: seq<string>)  // /lit(?!b1|b2|...)/
    | WithDigits(lit: string)                          // /lit(\d+)/

  /** The ZPL markers. Graphic download, label start, label end, print quantity. */
  const Dgr := Literal("~DGR:")
  const Xa := Literal("^XA")
  const Xz := Literal("^XZ")
  /** /\^XA(?!\^QA|\^MMT)/: a label start not immediately followed by ^QA or ^MMT. */
  const StandaloneXa := NotFollowedBy("^XA", ["^QA", "^MMT"])
  /** /\^PQ(\d+)/: a print-quantity command with its numeric argument. */
  const Pq := WithDigits("^PQ")

  /** None of the pattern's matches can begin inside another one: the literal's
      first character does not recur in the literal, nor among the digits. */
  predicate NoSelfOverlap(p: Pattern) {
    p.lit != []
    && (forall k :: 0 < k < |p.lit| ==> p.lit[k] != p.lit[0])
    && (p.WithDigits? ==> !IsDigit(p.lit[0]))
  }

  lemma MarkersDoNotOverlap()
    ensures NoSelfOverlap(Dgr) && NoSelfOverlap(Xa) && NoSelfOverlap(Xz)
    ensures NoSelfOverlap(StandaloneXa) && NoSelfOverlap(Pq)
  {
  }

  /** Length of the run of digits that starts at index i. */
  function DigitRun(s: string, i: nat): (n: nat)
    requires i <= |s|
    ensures i + n <= |s|
    ensures forall k :: i <= k < i + n ==> IsDigit(s[k])
    ensures i + n == |s| || !IsDigit(s[i + n])
    decreases |s| - i
  {
    if i < |s| && IsDigit(s[i]) then 1 + DigitRun(s, i + 1) else 0
  }

  /** The regular expression, tried at index i, matches there. */
  predicate MatchesAt(p: Pattern, s: string, i: nat) {
    OccursAt(s, i, p.lit) &&
    match p
    case Literal(_) => true
    case NotFollowedBy(lit, banned) =>
      forall k :: 0 <= k < |banned| ==> !OccursAt(s, i + |lit|, banned[k])
    case WithDigits(lit) => i + |lit| < |s| && IsDigit(s[i + |lit|])
  }

  /** How many characters the match at i consumes (\d+ is greedy). */
  function MatchLength(p: Pattern, s: string, i: nat): (n: nat)
    requires MatchesAt(p, s, i)
    ensures |p.lit| <= n && i + n <= |s|
    ensures p.WithDigits? ==> |p.lit| < n
  {
    if p.WithDigits? then |p.lit| + DigitRun(s, i + |p.lit|) else |p.lit|
  }

  /** The text the capture group (\d+) holds for the match at i. */
  function Captured(p: Pattern, s: string, i: nat): (ds: string)
    requires p.WithDigits? && MatchesAt(p, s, i)
    ensures ds != [] && AllDigits(ds)
  {
    s[i + |p.lit|..i + MatchLength(p, s, i)]
  }

  /** s.match(/p/g) and s.matchAll(/p/g): the indices where successive matches
      start, the search resuming after the end of each match. */
  function Scan(p: Pattern, s: string, i: nat): seq<nat>
    requires p.lit != []
    decreases |s| - i
  {
    if i >= |s| then []
    else if MatchesAt(p, s, i) then [i] + Scan(p, s, i + MatchLength(p, s, i))
    else Scan(p, s, i + 1)
  }

  /** (s.match(/p/g) || []).length */
  function Count(p: Pattern, s: string): nat
    requires p.lit != []
  {
    |Scan(p, s, 0)|
  }

  /** Reference definition: every index from i on at which the pattern matches. */
  function AllMatches(p: Pattern, s: string, i: nat): seq<nat>
    decreases |s| - i
  {
    if i >= |s| then []
    else (if MatchesAt(p, s, i) then [i] else []) + AllMatches(p, s, i + 1)
  }

  /** The number of indices at which the pattern matches. */
  function Occurrences(p: Pattern, s: string): nat {
    |AllMatches(p, s, 0)|
  }

  /** AllMatches holds exactly the matching indices, in strictly increasing order. */
  lemma {:induction false} AllMatchesExact(p: Pattern, s: string, i: nat)
    ensures forall j :: j in AllMatches(p, s, i) <==> i <= j < |s| && MatchesAt(p, s, j)
    ensures forall a, b :: 0 <= a < b < |AllMatches(p, s, i)| ==>
      AllMatches(p, s, i)[a] < AllMatches(p, s, i)[b]
  {
    AllMatchesMembers(p, s, i);
    AllMatchesSorted(p, s, i);
  }

  lemma {:induction false} AllMatchesMembers(p: Pattern, s: string, i: nat)
    ensures forall j :: j in AllMatches(p, s, i) <==> i <= j < |s| && MatchesAt(p, s, j)
    decreases |s| - i
  {
    if i < |s| {
      AllMatchesMembers(p, s, i + 1);
    }
  }

  lemma {:induction false} AllMatchesSorted(p: Pattern, s: string, i: nat)
    ensures forall a, b :: 0 <= a < b < |AllMatches(p, s, i)| ==>
      AllMatches(p, s, i)[a] < AllMatches(p, s, i)[b]
    decreases |s| - i
  {
    if i < |s| {
      AllMatchesSorted(p, s, i + 1);
      var rest := AllMatches(p, s, i + 1);
      var all := AllMatches(p, s, i);
      if MatchesAt(p, s, i) {
        AllMatchesMembers(p, s, i + 1);
        assert all == [i] + rest;
        forall a, b | 0 <= a < b < |all|
          ensures all[a] < all[b]
        {
          assert all[b] == rest[b - 1] && rest[b - 1] in rest;
          if a > 0 {
            assert all[a] == rest[a - 1];
          }
        }
      } else {
        assert all == rest;
      }
    }
  }

  /** A match cannot start strictly inside another match. */
  lemma NoMatchInside(p: Pattern, s: string, i: nat, j: nat)
    requires NoSelfOverlap(p) && MatchesAt(p, s, i)
    requires i < j < i + MatchLength(p, s, i)
    ensures !MatchesAt(p, s, j)
  {
    if j < i + |p.lit| {
      assert s[j] == s[i..i + |p.lit|][j - i];
    }
    assert s[j] != p.lit[0];
    if j + |p.lit| <= |s| {
      assert s[j..j + |p.lit|][0] == s[j];
    }
  }

  /** Where the pattern matches at i, the reference list continues after the match. */
  lemma SkipMatch(p: Pattern, s: string, i: nat)
    requires NoSelfOverlap(p) && MatchesAt(p, s, i)
    ensures AllMatches(p, s, i) == [i] + AllMatches(p, s, i + MatchLength(p, s, i))
  {
    var n := MatchLength(p, s, i);
    forall j | i + 1 <= j < i + n
      ensures !MatchesAt(p, s, j)
    {
      NoMatchInside(p, s, i, j);
    }
    SkipNoMatches(p, s, i + 1, i + n);
  }

  /** Skipping a stretch without matches does not change the reference list. */
  lemma {:induction false} SkipNoMatches(p: Pattern, s: string, a: nat, b: nat)
    requires a <= b
    requires forall j :: a <= j < b ==> !MatchesAt(p, s, j)
    ensures AllMatches(p, s, a) == AllMatches(p, s, b)
    decreases b - a
  {
    if a < b {
      SkipNoMatches(p, s, a + 1, b);
      if a >= |s| {
        assert AllMatches(p, s, b) == [] == AllMatches(p, s, a);
      }
    }
  }

  /** For a pattern whose matches cannot overlap, the global scan finds every
      matching index: resuming after a match skips nothing. */
  lemma {:induction false} ScanFindsAll(p: Pattern, s: string, i: nat)
    requires NoSelfOverlap(p)
    ensures Scan(p, s, i) == AllMatches(p, s, i)
    decreases |s| - i
  {
    if i < |s| {
      if MatchesAt(p, s, i) {
        SkipMatch(p, s, i);
        ScanFindsAll(p, s, i + MatchLength(p, s, i));
      } else {
        ScanFindsAll(p, s, i + 1);
      }
    }
  }

  /** The global-match count equals the number of matching indices. */
  lemma CountIsOccurrences(p: Pattern, s: string)
    requires NoSelfOverlap(p)
    ensures Count(p, s) == Occurrences(p, s)
  {
    ScanFindsAll(p, s, 0);
  }

  /** s.match(/p/) without g: the least index from i on at which p matches. */
  function FirstMatch(p: Pattern, s: string, i: nat): (r: Option<nat>)
    ensures r.Some? ==> i <= r.value < |s| && MatchesAt(p, s, r.value)
    ensures r.Some? ==> forall k :: i <= k < r.value ==> !MatchesAt(p, s, k)
    ensures r.None? ==> forall k :: i <= k < |s| ==> !MatchesAt(p, s, k)
    decreases |s| - i
  {
    if i >= |s| then None
    else if MatchesAt(p, s, i) then Some(i)
    else FirstMatch(p, s, i + 1)
  }

  /** Where the k-th match's stretch ends: at the next match or the end of s. */
  function NextMatchOrEnd(p: Pattern, s: string, k: nat): nat
    requires k < Occurrences(p, s)
  {
    var ps := AllMatches(p, s, 0);
    if k < |ps| - 1 then ps[k + 1] else |s|
  }

  /** The stretch from the k-th match to the next holds no other match and is
      at least as long as the match itself. */
  lemma MatchStretch(p: Pattern, s: string, k: nat)
    requires NoSelfOverlap(p) && k < Occurrences(p, s)
    ensures MatchesAt(p, s, AllMatches(p, s, 0)[k])
    ensures AllMatches(p, s, 0)[k] + |p.lit| <= NextMatchOrEnd(p, s, k) <= |s|
    ensures forall j :: AllMatches(p, s, 0)[k] < j < NextMatchOrEnd(p, s, k) ==> !MatchesAt(p, s, j)
  {
    var ps := AllMatches(p, s, 0);
    AllMatchesExact(p, s, 0);
    assert ps[k] in ps;
    var e := NextMatchOrEnd(p, s, k);
    forall j | ps[k] < j < e
      ensures !MatchesAt(p, s, j)
    {
      forall m | 0 <= m < |ps|
        ensures ps[m] != j
      {
        if m < k {
          assert ps[m] < ps[k];
        } else if k + 1 < m {
          assert ps[k + 1] < ps[m];
        }
      }
      assert j !in ps;
    }
    if k < |ps| - 1 {
      assert ps[k + 1] in ps;
      forall j | ps[k] < j < ps[k] + |p.lit|
        ensures !MatchesAt(p, s, j)
      {
        NoMatchInside(p, s, ps[k], j);
      }
    }
  }

  /** The patterns never match at or past the end of the text. */
  lemma NoMatchAtEnd(p: Pattern, s: string, i: nat)
    requires p.lit != [] && i >= |s|
    ensures !MatchesAt(p, s, i)
  {
  }

  // ---- Counting literals across concatenations ----

  /** No occurrence of lit begins in a and ends in b. */
  predicate NoStraddle(lit: string, a: string, b: string) {
    forall j: nat :: j < |a| < j + |lit| ==> !OccursAt(a + b, j, lit)
  }

  /** An occurrence across the seam would hold a's last and b's first character. */
  lemma SeamBlocks(lit: string, a: string, b: string)
    requires a == [] || b == [] || a[|a| - 1] !in lit || b[0] !in lit
    ensures NoStraddle(lit, a, b)
  {
    forall j: nat | j < |a| < j + |lit|
      ensures !OccursAt(a + b, j, lit)
    {
      if j + |lit| <= |a + b| {
        var w := (a + b)[j..j + |lit|];
        assert w[|a| - 1 - j] == a[|a| - 1] && w[|a| - j] == b[0];
      }
    }
  }

  lemma {:induction false} ShiftMatches(lit: string, a: string, b: string, k: nat)
    requires k <= |b|
    ensures |AllMatches(Literal(lit), a + b, |a| + k)| == |AllMatches(Literal(lit), b, k)|
    decreases |b| - k
  {
    if k < |b| {
      var s := a + b;
      if |a| + k + |lit| <= |s| {
        assert s[|a| + k..|a| + k + |lit|] == b[k..k + |lit|];
      }
      assert MatchesAt(Literal(lit), s, |a| + k) <==> MatchesAt(Literal(lit), b, k);
      ShiftMatches(lit, a, b, k + 1);
    }
  }

  lemma {:induction false} ConcatMatches(lit: string, a: string, b: string, i: nat)
    requires i <= |a| && NoStraddle(lit, a, b)
    ensures |AllMatches(Literal(lit), a + b, i)|
         == |AllMatches(Literal(lit), a, i)| + |AllMatches(Literal(lit), b, 0)|
    decreases |a| - i
  {
    if i == |a| {
      ShiftMatches(lit, a, b, 0);
    } else {
      var s := a + b;
      if i + |lit| <= |a| {
        assert s[i..i + |lit|] == a[i..i + |lit|];
      }
      assert MatchesAt(Literal(lit), s, i) <==> MatchesAt(Literal(lit), a, i);
      ConcatMatches(lit, a, b, i + 1);
    }
  }

  /** Occurrences of a literal add up across a seam no occurrence can cross. */
  lemma OccurrencesConcat(lit: string, a: string, b: string)
    requires a == [] || b == [] || a[|a| - 1] !in lit || b[0] !in lit
    ensures Occurrences(Literal(lit), a + b)
         == Occurrences(Literal(lit), a) + Occurrences(Literal(lit), b)
  {
    SeamBlocks(lit, a, b);
    ConcatMatches(lit, a, b, 0);
  }

  /** Text that lacks the literal's first character holds no occurrence of it. */
  lemma NoOccurrences(lit: string, s: string)
    requires lit != [] && lit[0] !in s
    ensures Occurrences(Literal(lit), s) == 0
  {
    forall j | 0 <= j < |s|
      ensures !MatchesAt(Literal(lit), s, j)
    {
      if j + |lit| <= |s| {
        assert s[j..j + |lit|][0] == s[j];
      }
    }
    SkipNoMatches(Literal(lit), s, 0, |s|);
  }

  /** Text in which the literal occurs at index 0 and nowhere else. */
  lemma SingleOccurrence(lit: string, s: string)
    requires lit != [] && OccursAt(s, 0, lit)
    requires forall t: nat :: 0 < t < |s| ==> !OccursAt(s, t, lit)
    ensures Occurrences(Literal(lit), s) == 1
  {
    SkipNoMatches(Literal(lit), s, 1, |s|);
  }

  /** Pieces that each hold the literal once, joined by a separator none of whose
      characters appear in the literal, hold it once per piece. */
  lemma {:induction false} OccurrencesJoin(lit: string, parts: seq<string>, sep: string)
    requires lit != [] && sep != []
    requires forall k :: 0 <= k < |sep| ==> sep[k] !in lit
    requires forall k :: 0 <= k < |parts| ==> Occurrences(Literal(lit), parts[k]) == 1
    ensures Occurrences(Literal(lit), JoinWith(parts, sep)) == |parts|
  {
    if |parts| == 0 {
    } else if |parts| == 1 {
    } else {
      var rest := JoinWith(parts[1..], sep);
      OccurrencesJoin(lit, parts[1..], sep);
      NoOccurrences(lit, sep);
      OccurrencesConcat(lit, sep, rest);
      OccurrencesConcat(lit, parts[0], sep + rest);
      assert parts[0] + sep + rest == parts[0] + (sep + rest);
    }
  }
}
