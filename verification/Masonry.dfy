/** The column assignment of `Masonry` in apps/web/src/components/ui.tsx: each card goes to the
    currently shortest column, which is list scheduling on identical machines. */
module Masonry {

  // ---- Column sums of an assignment ----

  /** `next` assigns each of the first |sizes| cards a column. */
  ghost predicate Assigns(next: seq<int>, count: nat, columns: nat) {
    |next| == count && forall i :: 0 <= i < count ==> 0 <= next[i] < columns
  }

  ghost function Sum(s: seq<int>): int {
    if s == [] then 0 else Sum(s[..|s| - 1]) + s[|s| - 1]
  }

  /** The total size of the cards assigned to column `c`. */
  ghost function Height(sizes: seq<int>, next: seq<int>, c: int): int
    requires |sizes| == |next|
  {
    if sizes == [] then 0
    else
      Height(sizes[..|sizes| - 1], next[..|next| - 1], c)
        + if next[|next| - 1] == c then sizes[|sizes| - 1] else 0
  }

  ghost function HeightsUpTo(sizes: seq<int>, next: seq<int>, m: nat): int
    requires |sizes| == |next|
  {
    if m == 0 then 0 else HeightsUpTo(sizes, next, m - 1) + Height(sizes, next, m - 1)
  }

  ghost predicate NonNegative(sizes: seq<int>) {
    forall i :: 0 <= i < |sizes| ==> sizes[i] >= 0
  }

  ghost predicate AtMost(sizes: seq<int>, p: int) {
    forall i :: 0 <= i < |sizes| ==> sizes[i] <= p
  }

  // ---- The loop ----

  /** The first `i` cards are placed as `heights` says, each in the first shortest column. */
  ghost predicate Placed(sizes: seq<int>, next: seq<int>, heights: seq<int>, columns: nat) {
    && |next| <= |sizes| && Assigns(next, |next|, columns) && |heights| == columns
    && (forall c :: 0 <= c < columns ==> heights[c] == Height(sizes[..|next|], next, c))
    && (forall i :: 0 <= i < |next| ==> PicksFirstShortest(sizes, next, columns, i))
  }

  /** Card `i` went to the first of the columns that were shortest when it was placed. */
  ghost predicate PicksFirstShortest(sizes: seq<int>, next: seq<int>, columns: nat, i: nat)
    requires i < |sizes| && i < |next|
  {
    FirstShortest(HeightsAt(sizes[..i], next[..i], columns), next[i])
  }

  ghost function HeightsAt(sizes: seq<int>, next: seq<int>, columns: nat): (r: seq<int>)
    requires |sizes| == |next|
    ensures |r| == columns && forall c :: 0 <= c < columns ==> r[c] == Height(sizes, next, c)
  {
    seq(columns, c => Height(sizes, next, c))
  }

  predicate FirstShortest(heights: seq<int>, col: int) {
    && 0 <= col < |heights|
    && (forall c :: 0 <= c < |heights| ==> heights[col] <= heights[c])
    && (forall c :: 0 <= c < col ==> heights[col] < heights[c])
  }

  /** Card sizes are the measured heights plus the gap; an unmounted card measures 0. */
  method Recompute(columns: nat, sizes: seq<int>) returns (assignment: seq<int>, tallness: seq<int>)
    requires columns >= 1 && NonNegative(sizes)
    ensures |assignment| == |sizes| && Placed(sizes, assignment, tallness, columns)
  {
    var heights := new int[columns](_ => 0);
    var next := new int[|sizes|](_ => 0);
    for i := 0 to |sizes|
      invariant Placed(sizes, next[..i], heights[..], columns)
    {
      var col := 0;
      for k := 1 to columns
        invariant 0 <= col < k
        invariant FirstShortest(heights[..k], col)
      {
        if heights[k] < heights[col] {
          col := k;
        }
      }
      ghost var placed, before := next[..i], heights[..];
      assert heights[..columns] == before;
      next[i] := col;
      heights[col] := heights[col] + sizes[i];
      assert next[..i + 1] == placed + [col];
      PlaceOne(sizes, placed, before, columns, col);
    }
    assert next[..|sizes|] == next[..];
    return next[..], heights[..];
  }

  lemma HeightOfLast(sizes: seq<int>, next: seq<int>, p: int, col: int, c: int)
    requires |sizes| == |next|
    ensures Height(sizes + [p], next + [col], c) == Height(sizes, next, c) + if col == c then p else 0
  {
    assert (sizes + [p])[..|sizes|] == sizes && (next + [col])[..|next|] == next;
  }

  /** Placing one more card in the first shortest column. */
  lemma PlaceOne(sizes: seq<int>, next: seq<int>, heights: seq<int>, columns: nat, col: nat)
    requires Placed(sizes, next, heights, columns) && |next| < |sizes| && FirstShortest(heights, col)
    ensures Placed(sizes, next + [col], heights[col := heights[col] + sizes[|next|]], columns)
  {
    var i, next' := |next|, next + [col];
    assert sizes[..i + 1] == sizes[..i] + [sizes[i]];
    var heights' := heights[col := heights[col] + sizes[i]];
    forall c | 0 <= c < columns
      ensures heights'[c] == Height(sizes[..i + 1], next', c)
    {
      HeightOfLast(sizes[..i], next, sizes[i], col, c);
    }
    assert next'[..i] == next && HeightsAt(sizes[..i], next, columns) == heights;
    forall j | 0 <= j < i
      ensures PicksFirstShortest(sizes, next', columns, j)
    {
      assert next'[..j] == next[..j];
      assert PicksFirstShortest(sizes, next, columns, j);
    }
  }

  // ---- What greedy placement guarantees ----

  lemma {:induction false} HeightsSum(sizes: seq<int>, next: seq<int>, m: nat)
    requires |sizes| == |next| && Assigns(next, |next|, m)
    ensures HeightsUpTo(sizes, next, m) == Sum(sizes)
    decreases |sizes|
  {
    if sizes == [] {
      EmptyHeights(m);
    } else {
      var n := |sizes| - 1;
      HeightsSum(sizes[..n], next[..n], m);
      assert sizes == sizes[..n] + [sizes[n]] && next == next[..n] + [next[n]];
      AddOne(sizes[..n], next[..n], sizes[n], next[n], m);
    }
  }

  lemma {:induction false} EmptyHeights(m: nat)
    ensures HeightsUpTo([], [], m) == 0
  {
    if m > 0 {
      EmptyHeights(m - 1);
    }
  }

  lemma {:induction false} AddOne(sizes: seq<int>, next: seq<int>, p: int, col: int, m: nat)
    requires |sizes| == |next| && 0 <= col
    ensures HeightsUpTo(sizes + [p], next + [col], m)
         == HeightsUpTo(sizes, next, m) + if col < m then p else 0
    decreases m
  {
    if m > 0 {
      AddOne(sizes, next, p, col, m - 1);
      HeightOfLast(sizes, next, p, col, m - 1);
    }
  }

  lemma {:induction false} HeightsAboveFloor(sizes: seq<int>, next: seq<int>, m: nat, floor: int)
    requires |sizes| == |next|
    requires forall c :: 0 <= c < m ==> Height(sizes, next, c) >= floor
    ensures HeightsUpTo(sizes, next, m) >= m * floor
  {
    if m > 0 {
      HeightsAboveFloor(sizes, next, m - 1, floor);
    }
  }

  lemma {:induction false} HeightsBelowCeiling(sizes: seq<int>, next: seq<int>, m: nat, ceiling: int)
    requires |sizes| == |next|
    requires forall c :: 0 <= c < m ==> Height(sizes, next, c) <= ceiling
    ensures HeightsUpTo(sizes, next, m) <= m * ceiling
  {
    if m > 0 {
      HeightsBelowCeiling(sizes, next, m - 1, ceiling);
    }
  }

  /** All columns but `top` reach at least `floor`. */
  lemma {:induction false} HeightsWithTop(sizes: seq<int>, next: seq<int>, m: nat, top: nat, floor: int)
    requires |sizes| == |next| && top < m
    requires forall c :: 0 <= c < m ==> Height(sizes, next, c) >= floor
    ensures HeightsUpTo(sizes, next, m) >= Height(sizes, next, top) + (m - 1) * floor
  {
    if top == m - 1 {
      HeightsAboveFloor(sizes, next, m - 1, floor);
    } else {
      HeightsWithTop(sizes, next, m - 1, top, floor);
    }
  }

  /** No two columns differ by more than the largest card. */
  lemma {:induction false} Balanced(sizes: seq<int>, next: seq<int>, heights: seq<int>, columns: nat, p: int)
    requires Placed(sizes, next, heights, columns) && |next| == |sizes|
    requires NonNegative(sizes) && AtMost(sizes, p) && p >= 0
    ensures forall a, b :: 0 <= a < columns && 0 <= b < columns ==> heights[a] - heights[b] <= p
    decreases |sizes|
  {
    if sizes != [] {
      var n := |sizes| - 1;
      var before := HeightsAt(sizes[..n], next[..n], columns);
      forall j | 0 <= j < n
        ensures PicksFirstShortest(sizes[..n], next[..n], columns, j)
      {
        assert sizes[..n][..j] == sizes[..j] && next[..n][..j] == next[..j];
        assert PicksFirstShortest(sizes, next, columns, j);
      }
      assert sizes[..n][..n] == sizes[..n];
      Balanced(sizes[..n], next[..n], before, columns, p);
      assert PicksFirstShortest(sizes, next, columns, n);
      assert sizes == sizes[..n] + [sizes[n]] && next == next[..n] + [next[n]];
      forall c | 0 <= c < columns
        ensures heights[c] == before[c] + if next[n] == c then sizes[n] else 0
      {
        HeightOfLast(sizes[..n], next[..n], sizes[n], next[n], c);
        assert sizes[..|next|] == sizes;
      }
    }
  }

  /** Graham's bound on the total: m times any column is at most the sum of all cards plus m - 1
      times the largest. */
  lemma GrahamBound(sizes: seq<int>, next: seq<int>, heights: seq<int>, columns: nat, p: int, top: nat)
    requires Placed(sizes, next, heights, columns) && |next| == |sizes| && top < columns
    requires NonNegative(sizes) && AtMost(sizes, p) && p >= 0
    ensures columns * heights[top] <= Sum(sizes) + (columns - 1) * p
  {
    Balanced(sizes, next, heights, columns, p);
    assert sizes[..|next|] == sizes;
    var floor := heights[top] - p;
    HeightsWithTop(sizes, next, columns, top, floor);
    HeightsSum(sizes, next, columns);
    FloorToBound(columns, heights[top], Sum(sizes), p);
  }

  lemma FloorToBound(m: int, top: int, sum: int, p: int)
    requires sum >= top + (m - 1) * (top - p)
    ensures m * top <= sum + (m - 1) * p
  {
  }

  lemma {:induction false} CardFitsItsColumn(sizes: seq<int>, other: seq<int>, i: nat)
    requires |sizes| == |other| && i < |sizes| && NonNegative(sizes)
    ensures forall c :: Height(sizes, other, c) >= 0
    ensures Height(sizes, other, other[i]) >= sizes[i]
    decreases |sizes|
  {
    var n := |sizes| - 1;
    if i < n {
      CardFitsItsColumn(sizes[..n], other[..n], i);
      assert sizes[..n][i] == sizes[i];
    } else if n > 0 {
      CardFitsItsColumn(sizes[..n], other[..n], 0);
    }
  }

  /** Against any other assignment of the same cards, whose tallest column is `best`, every greedy
      column is within a factor 2 - 1/m. */
  lemma GrahamRatio(sizes: seq<int>, next: seq<int>, heights: seq<int>, columns: nat, top: nat,
                    other: seq<int>, best: int)
    requires Placed(sizes, next, heights, columns) && |next| == |sizes| && top < columns
    requires NonNegative(sizes) && Assigns(other, |sizes|, columns)
    requires forall c :: 0 <= c < columns ==> Height(sizes, other, c) <= best
    ensures columns * heights[top] <= (2 * columns - 1) * best
  {
    forall i | 0 <= i < |sizes|
      ensures sizes[i] <= best
    {
      CardFitsItsColumn(sizes, other, i);
    }
    assert best >= 0 by {
      if sizes == [] {
        assert Height(sizes, other, 0) == 0;
      } else {
        CardFitsItsColumn(sizes, other, 0);
      }
    }
    GrahamBound(sizes, next, heights, columns, best, top);
    HeightsSum(sizes, other, columns);
    HeightsBelowCeiling(sizes, other, columns, best);
    TwiceLessOne(columns, heights[top], Sum(sizes), best);
  }

  lemma TwiceLessOne(m: int, top: int, sum: int, best: int)
    requires m * top <= sum + (m - 1) * best && sum <= m * best
    ensures m * top <= (2 * m - 1) * best
  {
    assert m * best + (m - 1) * best == (2 * m - 1) * best;
  }

  // ---- Ties ----

  ghost predicate AllOf(sizes: seq<int>, p: int) {
    forall i :: 0 <= i < |sizes| ==> sizes[i] == p
  }

  /** Equal cards are dealt out column by column, from the first to the last and again. */
  lemma {:induction false} EqualCardsDealOut(sizes: seq<int>, next: seq<int>, heights: seq<int>, columns: nat, p: int)
    requires Placed(sizes, next, heights, columns) && |next| == |sizes| && columns >= 1
    requires AllOf(sizes, p) && p > 0
    ensures forall i :: 0 <= i < |next| ==> next[i] == i % columns
    ensures var q, r := |next| / columns, |next| % columns;
            forall c :: 0 <= c < columns ==> heights[c] == p * q + if c < r then p else 0
    decreases |sizes|
  {
    if sizes == [] {
      EmptyColumns(next, heights, columns, p);
    } else {
      var n := |sizes| - 1;
      var before := HeightsAt(sizes[..n], next[..n], columns);
      PlacedBefore(sizes, next, heights, columns);
      EqualCardsDealOut(sizes[..n], next[..n], before, columns, p);
      assert PicksFirstShortest(sizes, next, columns, n);
      FirstOfTwoLevels(before, n / columns, n % columns, p, next[n]);
      NextTurn(n, columns);
      forall c | 0 <= c < columns
        ensures heights[c] == before[c] + if next[n] == c then p else 0
      {
        assert sizes == sizes[..n] + [sizes[n]] && next == next[..n] + [next[n]] && sizes[..|next|] == sizes;
        HeightOfLast(sizes[..n], next[..n], sizes[n], next[n], c);
      }
      OneMoreLevel(p, n / columns);
    }
  }

  lemma EmptyColumns(next: seq<int>, heights: seq<int>, columns: nat, p: int)
    requires Placed([], next, heights, columns) && next == [] && columns >= 1
    ensures 0 / columns == 0 && 0 % columns == 0 && p * 0 == 0
    ensures forall c :: 0 <= c < columns ==> heights[c] == 0
  {
  }

  /** Without its last card a placement is the placement of the others. */
  lemma PlacedBefore(sizes: seq<int>, next: seq<int>, heights: seq<int>, columns: nat)
    requires Placed(sizes, next, heights, columns) && |next| == |sizes| > 0
    ensures var n := |sizes| - 1;
            Placed(sizes[..n], next[..n], HeightsAt(sizes[..n], next[..n], columns), columns)
  {
    var n := |sizes| - 1;
    forall j | 0 <= j < n
      ensures PicksFirstShortest(sizes[..n], next[..n], columns, j)
    {
      assert sizes[..n][..j] == sizes[..j] && next[..n][..j] == next[..j];
      assert PicksFirstShortest(sizes, next, columns, j);
    }
    assert sizes[..n][..n] == sizes[..n];
  }

  lemma FirstOfTwoLevels(heights: seq<int>, q: int, r: int, p: int, col: int)
    requires p > 0 && 0 <= r < |heights| && FirstShortest(heights, col)
    requires forall c :: 0 <= c < |heights| ==> heights[c] == p * q + if c < r then p else 0
    ensures col == r
  {
    assert heights[r] == p * q;
  }

  lemma NextTurn(n: nat, columns: nat)
    requires columns >= 1
    ensures if n % columns == columns - 1 then (n + 1) / columns == n / columns + 1 && (n + 1) % columns == 0
            else (n + 1) / columns == n / columns && (n + 1) % columns == n % columns + 1
  {
    var q, r := n / columns, n % columns;
    assert n == q * columns + r;
    if r == columns - 1 {
      assert n + 1 == (q + 1) * columns + 0;
      QuotientIs(n + 1, columns, q + 1, 0);
    } else {
      QuotientIs(n + 1, columns, q, r + 1);
    }
  }

  lemma QuotientIs(n: int, m: int, q: int, r: int)
    requires m >= 1 && n == q * m + r && 0 <= r < m
    ensures n / m == q && n % m == r
  {
    var x := n / m - q;
    assert m * x == r - n % m by {
      assert n == m * (n / m) + n % m;
    }
    if x >= 1 {
      TimesAtLeast(m, x);
    } else if x <= -1 {
      TimesAtLeast(m, -x);
    }
  }

  lemma TimesAtLeast(m: int, x: int)
    requires m >= 1 && x >= 1
    ensures m * x >= m && m * (-x) <= -m
  {
  }

  lemma OneMoreLevel(p: int, q: int)
    ensures p * (q + 1) == p * q + p
  {
  }
}
