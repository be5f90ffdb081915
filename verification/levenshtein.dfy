/** Case-insensitive Levenshtein distance (src/chatbot.cpp,
    ChatBot::ComputeLevenshteinDistance): a recursive reference definition
    and the rolling single-row dynamic programme the chatbot runs. */
module Levenshtein {
  import opened Text

  function Min3(x: nat, y: nat, z: nat): (r: nat)
    ensures r <= x && r <= y && r <= z
    ensures r == x || r == y || r == z
  {
    if x <= y && x <= z then x else if y <= z then y else z
  }

  /** Drop the last character. */
  function Init(s: string): string
    requires |s| > 0
  {
    s[..|s| - 1]
  }

  function Last(s: string): char
    requires |s| > 0
  {
    s[|s| - 1]
  }

  /** The textbook edit distance: the fewest single-character insertions,
      deletions and substitutions that turn `a` into `b`, by recursion on
      the last characters of both strings. */
  function Lev(a: string, b: string): nat
    decreases |a| + |b|
  {
    if |a| == 0 then |b|
    else if |b| == 0 then |a|
    else
      Min3(Lev(Init(a), b) + 1,
           Lev(a, Init(b)) + 1,
           Lev(Init(a), Init(b)) + (if Last(a) == Last(b) then 0 else 1))
  }

  /** The distance the chatbot uses: Levenshtein on the upper-cased strings. */
  function Distance(s1: string, s2: string): (d: nat)
    ensures d >= |s1| - |s2| && d >= |s2| - |s1|
    ensures d <= if |s1| <= |s2| then |s2| else |s1|
  {
    LevLowerBound(Upper(s1), Upper(s2));
    LevUpperBound(Upper(s1), Upper(s2));
    Lev(Upper(s1), Upper(s2))
  }

  /** The distance is at least the difference of the lengths. */
  lemma {:induction false} LevLowerBound(a: string, b: string)
    ensures Lev(a, b) >= |a| - |b|
    ensures Lev(a, b) >= |b| - |a|
    decreases |a| + |b|
  {
    if |a| > 0 && |b| > 0 {
      LevLowerBound(Init(a), b);
      LevLowerBound(a, Init(b));
      LevLowerBound(Init(a), Init(b));
    }
  }

  /** The distance is at most the length of the longer string. */
  lemma {:induction false} LevUpperBound(a: string, b: string)
    ensures Lev(a, b) <= if |a| <= |b| then |b| else |a|
    decreases |a| + |b|
  {
    if |a| > 0 && |b| > 0 {
      LevUpperBound(Init(a), Init(b));
    }
  }

  /** Edit distance does not depend on the direction of the edit. */
  lemma {:induction false} LevSymmetric(a: string, b: string)
    ensures Lev(a, b) == Lev(b, a)
    decreases |a| + |b|
  {
    if |a| > 0 && |b| > 0 {
      LevSymmetric(Init(a), b);
      LevSymmetric(a, Init(b));
      LevSymmetric(Init(a), Init(b));
    }
  }

  /** Removing the last character of the second string raises the distance
      by at most one. */
  lemma {:induction false} LevInitRight(a: string, b: string)
    requires |b| > 0
    ensures Lev(a, Init(b)) <= Lev(a, b) + 1
    decreases |a| + |b|
  {
    if |a| == 0 {
    } else if |Init(b)| == 0 {
      LevLowerBound(a, b);
    } else {
      // Lev(a, Init(b)) <= Lev(Init(a), Init(b)) + 1 by its own definition,
      // which covers the deletion and the substitution branches of Lev(a, b).
      LevInitRight(Init(a), b);
    }
  }

  /** The same with the roles of the strings exchanged. */
  lemma LevInitLeft(a: string, b: string)
    requires |a| > 0
    ensures Lev(Init(a), b) <= Lev(a, b) + 1
  {
  }

  /** When the last characters agree, keeping them costs nothing: this is
      the shortcut the rolling row takes in its equal-characters branch. */
  lemma LevMatchLast(a: string, b: string)
    requires |a| > 0 && |b| > 0 && Last(a) == Last(b)
    ensures Lev(a, b) == Lev(Init(a), Init(b))
  {
    LevInitRight(Init(a), b);
    LevInitLeft(a, Init(b));
  }

  /** Distance zero exactly when the strings are equal. */
  lemma {:induction false} LevZeroIff(a: string, b: string)
    ensures Lev(a, b) == 0 <==> a == b
    decreases |a| + |b|
  {
    if |a| > 0 && |b| > 0 {
      LevZeroIff(Init(a), Init(b));
      if a == b {
        LevMatchLast(a, b);
      }
    }
  }

  /** Strings with no character in common are as far apart as the longer
      one is long: nothing can be kept, everything is substituted or
      inserted. */
  lemma {:induction false} LevNothingShared(a: string, b: string)
    requires forall x, y :: 0 <= x < |a| && 0 <= y < |b| ==> a[x] != b[y]
    ensures Lev(a, b) == if |a| <= |b| then |b| else |a|
    decreases |a| + |b|
  {
    if |a| > 0 && |b| > 0 {
      LevNothingShared(Init(a), b);
      LevNothingShared(a, Init(b));
      LevNothingShared(Init(a), Init(b));
    }
  }

  /** Edge case of the source: an empty first string is |second| away. */
  lemma DistanceEmptyLeft(s: string)
    ensures Distance([], s) == |s|
  {
  }

  /** Edge case of the source: an empty second string is |first| away. */
  lemma DistanceEmptyRight(s: string)
    ensures Distance(s, []) == |s|
  {
  }

  /** Only the case-folded strings matter: strings that agree ignoring the
      case of their letters are at the same distance from everything. */
  lemma DistanceIgnoresCase(s1: string, t1: string, s2: string, t2: string)
    requires EqualIgnoringCase(s1, t1) && EqualIgnoringCase(s2, t2)
    ensures Distance(s1, s2) == Distance(t1, t2)
  {
    UpperIdentifiesCaseVariants(s1, t1);
    UpperIdentifiesCaseVariants(s2, t2);
  }

  /** The distance is symmetric and vanishes exactly on case variants. */
  lemma DistanceZeroIff(s1: string, s2: string)
    ensures Distance(s1, s2) == Distance(s2, s1)
    ensures Distance(s1, s2) == 0 <==> EqualIgnoringCase(s1, s2)
  {
    LevSymmetric(Upper(s1), Upper(s2));
    LevZeroIff(Upper(s1), Upper(s2));
    UpperIdentifiesCaseVariants(s1, s2);
  }

  /** "FOOD" and "food" are the same keyword. */
  lemma DistanceFoodExample()
    ensures Distance("FOOD", "food") == 0
  {
    var s1, s2 := "FOOD", "food";
    assert UpperChar(s2[0]) == 'F' && UpperChar(s2[1]) == 'O';
    assert UpperChar(s2[2]) == 'O' && UpperChar(s2[3]) == 'D';
    assert EqualIgnoringCase(s1, s2);
    DistanceZeroIff(s1, s2);
  }

  /** One cell of the rolling row: given the three neighbours `up`
      (`Lev(prev, cur2)`), `left` (`Lev(cur, prev2)`) and `diag`
      (`Lev(prev, prev2)`), the value at (`cur`, `cur2`) is what the inner
      loop stores. */
  lemma LevCell(prev: string, cur: string, prev2: string, cur2: string, up: nat, left: nat, diag: nat)
    requires |cur| > 0 && Init(cur) == prev
    requires |cur2| > 0 && Init(cur2) == prev2
    requires up == Lev(prev, cur2) && left == Lev(cur, prev2) && diag == Lev(prev, prev2)
    ensures Last(cur) == Last(cur2) ==> Lev(cur, cur2) == diag
    ensures Last(cur) != Last(cur2) ==> Lev(cur, cur2) == Min3(up, left, diag) + 1
  {
    if Last(cur) == Last(cur2) {
      LevMatchLast(cur, cur2);
    }
  }

  /** The rolling-row dynamic programme of the chatbot, upper-casing both
      strings first and answering the two empty cases directly. */
  method ComputeLevenshteinDistance(s1: string, s2: string) returns (d: nat)
    ensures d == Lev(Upper(s1), Upper(s2))
    ensures |s1| == 0 ==> d == |s2|
    ensures |s2| == 0 ==> d == |s1|
  {
    var u1 := Upper(s1);
    var u2 := Upper(s2);
    if |u1| == 0 {
      return |u2|;
    }
    if |u2| == 0 {
      return |u1|;
    }
    d := RollingRow(u1, u2);
  }

  /** The row of distances from `a` to every prefix of `b`, shortest
      prefix first: the contents of the cost array between passes. */
  ghost function Row(a: string, b: string): (r: seq<nat>)
    ensures |r| == |b| + 1
    decreases |b|
  {
    if |b| == 0 then [Lev(a, b)] else Row(a, Init(b)) + [Lev(a, b)]
  }

  /** Cell `q` of a row is the distance to the prefix of length `q`. */
  lemma {:induction false} RowAt(a: string, b: string, q: nat)
    requires q <= |b|
    ensures Row(a, b)[q] == Lev(a, b[..q])
    decreases |b|
  {
    if q < |b| {
      assert Init(b)[..q] == b[..q];
      RowAt(a, Init(b), q);
    } else {
      assert b[..q] == b;
    }
  }

  /** The first cell of the rows the outer loop visits. */
  lemma RowFirst(u1: string, u2: string, i: nat)
    requires i < |u1|
    ensures Init(u1[..i + 1]) == u1[..i] && Last(u1[..i + 1]) == u1[i]
    ensures Row(u1[..i], u2)[0] == i && Row(u1[..i + 1], u2)[0] == i + 1
  {
  }

  /** The recurrence between two consecutive rows, cell `j + 1`, in terms
      of the three neighbouring cells. */
  lemma RowCell(prev: string, cur: string, b: string, j: nat)
    requires |cur| > 0 && Init(cur) == prev && j < |b|
    ensures Last(cur) == b[j] ==> Row(cur, b)[j + 1] == Row(prev, b)[j]
    ensures Last(cur) != b[j] ==>
      Row(cur, b)[j + 1] == Min3(Row(prev, b)[j + 1], Row(cur, b)[j], Row(prev, b)[j]) + 1
  {
    RowAt(prev, b, j);
    RowAt(prev, b, j + 1);
    RowAt(cur, b, j);
    RowAt(cur, b, j + 1);
    assert Init(b[..j + 1]) == b[..j] && Last(b[..j + 1]) == b[j];
    LevCell(prev, cur, b[..j], b[..j + 1], Row(prev, b)[j + 1], Row(cur, b)[j], Row(prev, b)[j]);
  }

  /** The cost-row loops. After row `i` of the outer loop, `costs` holds the
      distances from the first `i` characters of `u1` to every prefix of
      `u2`; the last cell then holds the full distance. */
  method RollingRow(u1: string, u2: string) returns (d: nat)
    requires |u1| > 0 && |u2| > 0
    ensures d == Lev(u1, u2)
  {
    var m := |u1|;
    var n := |u2|;
    var costs := new nat[n + 1];
    var k := 0;
    while k <= n
      invariant 0 <= k <= n + 1
      invariant forall q :: 0 <= q < k ==> costs[q] == q
    {
      costs[k] := k;
      k := k + 1;
    }
    forall q | 0 <= q <= n
      ensures costs[q] == Row(u1[..0], u2)[q]
    {
      RowAt(u1[..0], u2, q);
    }
    assert costs[..] == Row(u1[..0], u2);

    var i := 0;
    while i < m
      invariant 0 <= i <= m
      invariant costs[..] == Row(u1[..i], u2)
    {
      NextRow(u1, u2, i, costs);
      i := i + 1;
    }
    assert u1[..m] == u1;
    RowAt(u1, u2, n);
    assert u2[..n] == u2;
    d := costs[n];
  }

  /** One pass of the outer loop: turns the row of the first `i` characters
      of `u1` into the row of the first `i + 1`, left to right, with
      `corner` holding the old value of the cell just overwritten. */
  method NextRow(u1: string, u2: string, i: nat, costs: array<nat>)
    requires i < |u1| && costs.Length == |u2| + 1
    requires costs[..] == Row(u1[..i], u2)
    modifies costs
    ensures costs[..] == Row(u1[..i + 1], u2)
  {
    ghost var prev, cur := u1[..i], u1[..i + 1];
    ghost var above, below := Row(prev, u2), Row(cur, u2);
    RowFirst(u1, u2, i);
    var n := |u2|;
    costs[0] := i + 1;
    var corner := i;
    var j := 0;
    while j < n
      invariant 0 <= j <= n
      invariant forall q :: 0 <= q <= j ==> costs[q] == below[q]
      invariant forall q :: j < q <= n ==> costs[q] == above[q]
      invariant corner == above[j]
    {
      var upper := costs[j + 1];
      var cell: nat;
      if u1[i] == u2[j] {
        cell := corner;
      } else {
        var t := if upper < corner then upper else corner;
        cell := (if costs[j] < t then costs[j] else t) + 1;
      }
      RowCell(prev, cur, u2, j);
      costs[j + 1] := cell;
      corner := upper;
      j := j + 1;
    }
    assert costs[..] == below;
  }
}
