/**
 * The sieve diagram widget: ranking attribute pairs by the chi-square
 * statistic of their contingency tables, the choice of the attributes shown,
 * and the colour and line density of a cell from its Pearson residual.
 * Contingency tables come from the data-mining library and are inputs here,
 * already reduced to counts.
 */
module SieveDiagram {
  import opened Wrappers

  datatype VarKind = Discrete | Continuous | OtherKind

  datatype Attribute = Attribute(name: string, kind: VarKind)

  /** A data table as far as the widget looks at it: its domain and its length. */
  datatype Dataset = Dataset(domain: seq<Attribute>, size: nat)

  /**
   * The counts for one pair of attributes X and Y on the selected data:
   * `n` examples, the marginal counts of X and of Y, and the joint counts
   * indexed by value of X, then value of Y.
   */
  datatype Table = Table(n: nat, valsX: seq<real>, valsY: seq<real>, actual: seq<seq<real>>)

  /** One entry of the ranking: the score, the text shown, and the two attribute names. */
  datatype Ranked = Ranked(score: real, text: string, attrX: string, attrY: string)

  /** `if self.data`: no data, or an empty table, counts as none. */
  predicate Truthy(data: Option<Dataset>)
  {
    data.Some? && data.value.size > 0
  }

  predicate IsDiscrete(k: VarKind)
  {
    k == Discrete
  }

  predicate NotContinuous(k: VarKind)
  {
    k != Continuous
  }

  /** The names of the attributes whose kind passes `keep`, in domain order. */
  function NamesWhere(domain: seq<Attribute>, keep: VarKind -> bool): (r: seq<string>)
    ensures |r| <= |domain|
    ensures forall x :: x in r <==> exists a :: a in domain && keep(a.kind) && a.name == x
  {
    if domain == [] then []
    else
      var last := domain[|domain| - 1];
      assert forall a :: a in domain <==> a in domain[..|domain| - 1] || a == last;
      NamesWhere(domain[..|domain| - 1], keep) + (if keep(last.kind) then [last.name] else [])
  }

  /** `[attr.name for attr in domain]`. */
  function Names(domain: seq<Attribute>): (r: seq<string>)
    ensures |r| == |domain|
    ensures forall k :: 0 <= k < |domain| ==> r[k] == domain[k].name
  {
    seq(|domain|, k requires 0 <= k < |domain| => domain[k].name)
  }

  /** The loop collecting the attributes whose kind passes `keep`. */
  method AttributeNames(domain: seq<Attribute>, keep: VarKind -> bool) returns (names: seq<string>)
    ensures names == NamesWhere(domain, keep)
  {
    names := [];
    for k := 0 to |domain|
      invariant names == NamesWhere(domain[..k], keep)
    {
      assert domain[..k + 1][..k] == domain[..k];
      if keep(domain[k].kind) {
        names := names + [domain[k].name];
      }
    }
    assert domain[..|domain|] == domain;
  }

  // ---------------------------------------------------------------------
  // Attribute pairs

  /** The pairs (a, b) with a < b < n whose first index is `a`, in order of b. */
  function Row(n: nat, a: nat): (r: seq<(nat, nat)>)
    ensures |r| == if a + 1 < n then n - a - 1 else 0
  {
    RowFrom(n, a, a + 1)
  }

  /** The pairs (a, b') with b <= b' < n, in order of b'. */
  function RowFrom(n: nat, a: nat, b: nat): (r: seq<(nat, nat)>)
    ensures |r| == if b < n then n - b else 0
    decreases n - b
  {
    if b >= n then [] else [(a, b)] + RowFrom(n, a, b + 1)
  }

  /** The `k`-th pair of a row is (a, a + 1 + k). */
  lemma RowEntries(n: nat, a: nat)
    ensures forall k :: 0 <= k < |Row(n, a)| ==> Row(n, a)[k] == (a, a + 1 + k)
  {
    RowFromEntries(n, a, a + 1);
  }

  lemma {:induction false} RowFromEntries(n: nat, a: nat, b: nat)
    ensures forall k :: 0 <= k < |RowFrom(n, a, b)| ==> RowFrom(n, a, b)[k] == (a, b + k)
    decreases n - b
  {
    if b < n {
      RowFromEntries(n, a, b + 1);
    }
  }

  /** The rows of the first indices below `a`, one after the other. */
  function RowsBelow(n: nat, a: nat): seq<(nat, nat)>
    decreases a
  {
    if a == 0 then [] else RowsBelow(n, a - 1) + Row(n, a - 1)
  }

  /** The order in which calculatePairs visits pairs of `n` attributes. */
  function Pairs(n: nat): seq<(nat, nat)>
  {
    RowsBelow(n, n)
  }

  predicate LexLess(p: (nat, nat), q: (nat, nat))
  {
    p.0 < q.0 || (p.0 == q.0 && p.1 < q.1)
  }

  lemma {:induction false} RowsBelowMembers(n: nat, a: nat)
    ensures forall p :: p in RowsBelow(n, a) <==> p.0 < a && p.0 < p.1 < n
  {
    if a > 0 {
      RowsBelowMembers(n, a - 1);
      RowEntries(n, a - 1);
      var r := Row(n, a - 1);
      forall p: (nat, nat) | p.0 == a - 1 && p.0 < p.1 < n
        ensures p in r
      {
        assert r[p.1 - a] == p;
      }
    }
  }

  lemma {:induction false} RowsBelowOrdered(n: nat, a: nat)
    ensures forall i, j :: 0 <= i < j < |RowsBelow(n, a)| ==> LexLess(RowsBelow(n, a)[i], RowsBelow(n, a)[j])
  {
    if a > 0 {
      RowsBelowOrdered(n, a - 1);
      RowsBelowMembers(n, a - 1);
      RowEntries(n, a - 1);
      var pre, r := RowsBelow(n, a - 1), Row(n, a - 1);
      forall i | 0 <= i < |pre|
        ensures pre[i].0 < a - 1
      {
        assert pre[i] in pre;
      }
    }
  }

  /**
   * calculatePairs scores every pair (attr1, attr2) with attr1 < attr2 of
   * the discrete attributes, each exactly once, in lexicographic order.
   */
  lemma PairsExactlyOnce(n: nat)
    ensures forall p :: p in Pairs(n) <==> p.0 < p.1 < n
    ensures forall i, j :: 0 <= i < j < |Pairs(n)| ==> LexLess(Pairs(n)[i], Pairs(n)[j])
    ensures forall i, j :: 0 <= i < j < |Pairs(n)| ==> Pairs(n)[i] != Pairs(n)[j]
  {
    RowsBelowMembers(n, n);
    RowsBelowOrdered(n, n);
  }

  lemma {:induction false} RowsBelowPrefix(n: nat, a: nat, b: nat)
    requires a <= b
    ensures |RowsBelow(n, a)| <= |RowsBelow(n, b)|
    ensures RowsBelow(n, b)[..|RowsBelow(n, a)|] == RowsBelow(n, a)
    decreases b
  {
    if a < b {
      RowsBelowPrefix(n, a, b - 1);
      assert RowsBelow(n, b) == RowsBelow(n, b - 1) + Row(n, b - 1);
    }
  }

  lemma RowsBelowStep(n: nat, a: nat)
    requires a < n
    ensures |RowsBelow(n, a + 1)| == |RowsBelow(n, a)| + (n - a - 1)
  {
    assert RowsBelow(n, a + 1) == RowsBelow(n, a) + Row(n, a);
  }

  /** The pair (a, b) sits right after the rows below `a` and the b - a - 1 pairs before it in its row. */
  lemma PairsAt(n: nat, a: nat, b: nat, k: nat)
    requires a < b < n && k == |RowsBelow(n, a)| + (b - a - 1)
    ensures k < |Pairs(n)| && Pairs(n)[k] == (a, b)
  {
    RowsBelowPrefix(n, a + 1, n);
    RowEntries(n, a);
    assert RowsBelow(n, a + 1) == RowsBelow(n, a) + Row(n, a);
    assert RowsBelow(n, a + 1)[|RowsBelow(n, a)| + (b - a - 1)] == (a, b);
  }

  // ---------------------------------------------------------------------
  // Chi-square

  /** The joint count, or 0 when the table has no entry for the cell (the `except` branch). */
  function Actual(t: Table, i: nat, j: nat): real
  {
    if i < |t.actual| && j < |t.actual[i]| then t.actual[i][j] else 0.0
  }

  function Expected(t: Table, i: nat, j: nat): real
    requires t.n > 0 && i < |t.valsX| && j < |t.valsY|
  {
    t.valsX[i] * t.valsY[j] / (t.n as real)
  }

  /** (actual - expected)^2 / expected, or nothing for a cell whose expected count is 0. */
  function Term(t: Table, i: nat, j: nat): real
    requires t.n > 0 && i < |t.valsX| && j < |t.valsY|
  {
    var e := Expected(t, i, j);
    if e == 0.0 then 0.0 else (Actual(t, i, j) - e) * (Actual(t, i, j) - e) / e
  }

  /** The terms of row `i` for the first `m` values of Y. */
  function RowChi(t: Table, i: nat, m: nat): real
    requires t.n > 0 && i < |t.valsX| && m <= |t.valsY|
  {
    if m == 0 then 0.0 else RowChi(t, i, m - 1) + Term(t, i, m - 1)
  }

  /** The terms of the first `m` rows. */
  function Chi(t: Table, m: nat): real
    requires t.n > 0 && m <= |t.valsX|
  {
    if m == 0 then 0.0 else Chi(t, m - 1) + RowChi(t, m - 1, |t.valsY|)
  }

  function ChiSquare(t: Table): real
    requires t.n > 0
  {
    Chi(t, |t.valsX|)
  }

  /** Counts are never negative. */
  predicate Counts(t: Table)
  {
    (forall x :: x in t.valsX ==> x >= 0.0) && (forall y :: y in t.valsY ==> y >= 0.0)
  }

  lemma TermNonNegative(t: Table, i: nat, j: nat)
    requires t.n > 0 && i < |t.valsX| && j < |t.valsY| && Counts(t)
    ensures Term(t, i, j) >= 0.0
  {
    assert t.valsX[i] in t.valsX && t.valsY[j] in t.valsY;
    var e := Expected(t, i, j);
    assert t.valsX[i] * t.valsY[j] >= 0.0;
    assert e >= 0.0;
    if e != 0.0 {
      var d := Actual(t, i, j) - e;
      assert d * d >= 0.0;
    }
  }

  lemma {:induction false} RowChiNonNegative(t: Table, i: nat, m: nat)
    requires t.n > 0 && i < |t.valsX| && m <= |t.valsY| && Counts(t)
    ensures RowChi(t, i, m) >= 0.0
  {
    if m > 0 {
      RowChiNonNegative(t, i, m - 1);
      TermNonNegative(t, i, m - 1);
    }
  }

  lemma {:induction false} ChiNonNegative(t: Table, m: nat)
    requires t.n > 0 && m <= |t.valsX| && Counts(t)
    ensures Chi(t, m) >= 0.0
  {
    if m > 0 {
      ChiNonNegative(t, m - 1);
      RowChiNonNegative(t, m - 1, |t.valsY|);
    }
  }

  /** The chi-square of a table of counts is never negative. */
  lemma ChiSquareNonNegative(t: Table)
    requires t.n > 0 && Counts(t)
    ensures ChiSquare(t) >= 0.0
  {
    ChiNonNegative(t, |t.valsX|);
  }

  /** The nested loops of calculatePairs and updateData that add up chi-square. */
  method AccumulateChiSquare(t: Table) returns (chisquare: real)
    requires t.n > 0
    ensures chisquare == ChiSquare(t)
    ensures Counts(t) ==> chisquare >= 0.0
  {
    chisquare := 0.0;
    for i := 0 to |t.valsX|
      invariant chisquare == Chi(t, i)
    {
      chisquare := AccumulateRow(t, i, chisquare);
    }
    if Counts(t) {
      ChiSquareNonNegative(t);
    }
  }

  /** The inner loop: adds the terms of row `i` to `start`. */
  method AccumulateRow(t: Table, i: nat, start: real) returns (chisquare: real)
    requires t.n > 0 && i < |t.valsX|
    ensures chisquare == start + RowChi(t, i, |t.valsY|)
  {
    chisquare := start;
    for j := 0 to |t.valsY|
      invariant chisquare == start + RowChi(t, i, j)
    {
      chisquare := AddCell(t, i, j, chisquare);
    }
  }

  /** One pass of the inner loop: a cell with expected count 0 is skipped (`continue`). */
  method AddCell(t: Table, i: nat, j: nat, sum: real) returns (chisquare: real)
    requires t.n > 0 && i < |t.valsX| && j < |t.valsY|
    ensures chisquare == sum + Term(t, i, j)
  {
    var expected := t.valsX[i] * t.valsY[j] / (t.n as real);
    assert expected == Expected(t, i, j);
    if expected == 0.0 {
      return sum;
    }
    var actual := Actual(t, i, j);
    var pearson2 := (actual - expected) * (actual - expected) / expected;
    assert pearson2 == Term(t, i, j);
    chisquare := sum + pearson2;
  }

  // ---------------------------------------------------------------------
  // The cell dictionary of updateData, keyed by value names

  /** The key updateData files a cell under: the names of its X and Y values joined by "-". */
  function CellKey(x: string, y: string): string
  {
    x + "-" + y
  }

  /**
   * `probs` after row `i` has written its first `m` cells. A cell is filed
   * as its indices, which fix the tuple the source stores (both counts, the
   * joint count and the example count); a later write under the same key
   * replaces an earlier one.
   */
  function ProbsRow(xs: seq<string>, ys: seq<string>, i: nat, m: nat, probs: map<string, (nat, nat)>): map<string, (nat, nat)>
    requires i < |xs| && m <= |ys|
  {
    if m == 0 then probs else ProbsRow(xs, ys, i, m - 1, probs)[CellKey(xs[i], ys[m - 1]) := (i, m - 1)]
  }

  /** `probs` after the first `m` rows of the filling loop. */
  function ProbsRows(xs: seq<string>, ys: seq<string>, m: nat): map<string, (nat, nat)>
    requires m <= |xs|
  {
    if m == 0 then map[] else ProbsRow(xs, ys, m - 1, |ys|, ProbsRows(xs, ys, m - 1))
  }

  /** The term the chi-square loop adds for cell (i, j): that of the cell last filed under its key. */
  function KeyedTerm(t: Table, xs: seq<string>, ys: seq<string>, probs: map<string, (nat, nat)>, i: nat, j: nat): real
    requires t.n > 0 && i < |xs| && j < |ys|
  {
    var k := CellKey(xs[i], ys[j]);
    if k in probs && probs[k].0 < |t.valsX| && probs[k].1 < |t.valsY| then Term(t, probs[k].0, probs[k].1) else 0.0
  }

  function KeyedRowChi(t: Table, xs: seq<string>, ys: seq<string>, probs: map<string, (nat, nat)>, i: nat, m: nat): real
    requires t.n > 0 && i < |xs| && m <= |ys|
  {
    if m == 0 then 0.0 else KeyedRowChi(t, xs, ys, probs, i, m - 1) + KeyedTerm(t, xs, ys, probs, i, m - 1)
  }

  function KeyedChi(t: Table, xs: seq<string>, ys: seq<string>, probs: map<string, (nat, nat)>, m: nat): real
    requires t.n > 0 && m <= |xs|
  {
    if m == 0 then 0.0 else KeyedChi(t, xs, ys, probs, m - 1) + KeyedRowChi(t, xs, ys, probs, m - 1, |ys|)
  }

  /**
   * The chi-square as updateData computes it: the cells are filed in `probs`
   * under the names `xs` and `ys` of the X and Y values, then read back by key.
   */
  function KeyedChiSquare(t: Table, xs: seq<string>, ys: seq<string>): real
    requires t.n > 0 && |xs| == |t.valsX| && |ys| == |t.valsY|
  {
    KeyedChi(t, xs, ys, ProbsRows(xs, ys, |xs|), |xs|)
  }

  /** No two cells share a key. */
  ghost predicate KeysDistinct(xs: seq<string>, ys: seq<string>)
  {
    forall a, b, c, d ::
      (0 <= a < |xs| && 0 <= c < |xs| && 0 <= b < |ys| && 0 <= d < |ys| && CellKey(xs[a], ys[b]) == CellKey(xs[c], ys[d])) ==>
        a == c && b == d
  }

  /** Every cell is found in `probs` under its own key. */
  ghost predicate Filed(xs: seq<string>, ys: seq<string>, probs: map<string, (nat, nat)>)
  {
    forall a, b :: 0 <= a < |xs| && 0 <= b < |ys| ==>
      CellKey(xs[a], ys[b]) in probs && probs[CellKey(xs[a], ys[b])] == (a, b)
  }

  /** Row `i` files its first `m` cells under their own keys and leaves the other cells' entries alone. */
  lemma {:induction false} ProbsRowFiles(xs: seq<string>, ys: seq<string>, i: nat, m: nat, probs: map<string, (nat, nat)>, a: nat, b: nat)
    requires KeysDistinct(xs, ys) && i < |xs| && m <= |ys| && a < |xs| && b < |ys|
    ensures a == i && b < m ==>
              CellKey(xs[a], ys[b]) in ProbsRow(xs, ys, i, m, probs)
              && ProbsRow(xs, ys, i, m, probs)[CellKey(xs[a], ys[b])] == (a, b)
    ensures !(a == i && b < m) && CellKey(xs[a], ys[b]) in probs ==>
              CellKey(xs[a], ys[b]) in ProbsRow(xs, ys, i, m, probs)
              && ProbsRow(xs, ys, i, m, probs)[CellKey(xs[a], ys[b])] == probs[CellKey(xs[a], ys[b])]
  {
    if m > 0 {
      ProbsRowFiles(xs, ys, i, m - 1, probs, a, b);
      if !(a == i && b == m - 1) {
        assert CellKey(xs[a], ys[b]) != CellKey(xs[i], ys[m - 1]);
      }
    }
  }

  /** After the first `m` rows, every cell of those rows is found under its own key. */
  lemma {:induction false} ProbsRowsFiles(xs: seq<string>, ys: seq<string>, m: nat, a: nat, b: nat)
    requires KeysDistinct(xs, ys) && m <= |xs| && a < m && b < |ys|
    ensures CellKey(xs[a], ys[b]) in ProbsRows(xs, ys, m)
    ensures ProbsRows(xs, ys, m)[CellKey(xs[a], ys[b])] == (a, b)
  {
    ProbsRowFiles(xs, ys, m - 1, |ys|, ProbsRows(xs, ys, m - 1), a, b);
    if a < m - 1 {
      ProbsRowsFiles(xs, ys, m - 1, a, b);
    }
  }

  lemma {:induction false} KeyedRowChiAgrees(t: Table, xs: seq<string>, ys: seq<string>, probs: map<string, (nat, nat)>, i: nat, m: nat)
    requires t.n > 0 && |xs| == |t.valsX| && |ys| == |t.valsY| && Filed(xs, ys, probs)
    requires i < |xs| && m <= |ys|
    ensures KeyedRowChi(t, xs, ys, probs, i, m) == RowChi(t, i, m)
  {
    if m > 0 {
      KeyedRowChiAgrees(t, xs, ys, probs, i, m - 1);
      assert probs[CellKey(xs[i], ys[m - 1])] == (i, m - 1);
    }
  }

  lemma {:induction false} KeyedChiAgrees(t: Table, xs: seq<string>, ys: seq<string>, probs: map<string, (nat, nat)>, m: nat)
    requires t.n > 0 && |xs| == |t.valsX| && |ys| == |t.valsY| && Filed(xs, ys, probs)
    requires m <= |xs|
    ensures KeyedChi(t, xs, ys, probs, m) == Chi(t, m)
  {
    if m > 0 {
      KeyedChiAgrees(t, xs, ys, probs, m - 1);
      KeyedRowChiAgrees(t, xs, ys, probs, m - 1, |ys|);
    }
  }

  /** When no two cells share a key, reading the cells back by key gives the chi-square of the table. */
  lemma DistinctKeysChiSquare(t: Table, xs: seq<string>, ys: seq<string>)
    requires t.n > 0 && |xs| == |t.valsX| && |ys| == |t.valsY| && KeysDistinct(xs, ys)
    ensures KeyedChiSquare(t, xs, ys) == ChiSquare(t)
  {
    var probs := ProbsRows(xs, ys, |xs|);
    forall a, b | 0 <= a < |xs| && 0 <= b < |ys|
      ensures CellKey(xs[a], ys[b]) in probs && probs[CellKey(xs[a], ys[b])] == (a, b)
    {
      ProbsRowsFiles(xs, ys, |xs|, a, b);
    }
    KeyedChiAgrees(t, xs, ys, probs, |xs|);
  }

  /** X values named "a-b" and "a", Y values named "c" and "b-c". */
  const CollidingX: seq<string> := ["a-b", "a"]
  const CollidingY: seq<string> := ["c", "b-c"]

  /** The sum of a sequence of counts. */
  function Total(s: seq<real>): real
  {
    if s == [] then 0.0 else Total(s[..|s| - 1]) + s[|s| - 1]
  }

  /** The joint counts of column `j`. */
  function Column(rows: seq<seq<real>>, j: nat): seq<real>
    requires forall r :: r in rows ==> j < |r|
  {
    seq(|rows|, k requires 0 <= k < |rows| => rows[k][j])
  }

  /**
   * A table that data can give: the joint counts are a full grid whose rows
   * add up to the X counts, whose columns add up to the Y counts, and whose
   * X counts add up to the number of examples.
   */
  ghost predicate Consistent(t: Table)
  {
    && |t.actual| == |t.valsX|
    && (forall r :: r in t.actual ==> |r| == |t.valsY|)
    && (forall i :: 0 <= i < |t.valsX| ==> Total(t.actual[i]) == t.valsX[i])
    && (forall j :: 0 <= j < |t.valsY| ==> Total(Column(t.actual, j)) == t.valsY[j])
    && Total(t.valsX) == t.n as real
  }

  /** Four examples: one with the first X and Y values, three with the second X and Y values. */
  const SkewedTable := Table(4, [1.0, 3.0], [1.0, 3.0], [[1.0, 0.0], [0.0, 3.0]])

  lemma SkewedConsistent()
    ensures Consistent(SkewedTable)
  {
    var t := SkewedTable;
    assert Total(t.actual[0]) == 1.0 && Total(t.actual[1]) == 3.0;
    assert Column(t.actual, 0) == [1.0, 0.0] && Column(t.actual, 1) == [0.0, 3.0];
    assert Total([1.0, 0.0]) == 1.0 && Total([0.0, 3.0]) == 3.0;
    assert Total(t.valsX) == 4.0;
  }

  /** Cells (0, 0) and (1, 1) share the key "a-b-c", and the later write, of cell (1, 1), wins. */
  lemma CollidingFiling()
    ensures !KeysDistinct(CollidingX, CollidingY)
    ensures var p := ProbsRows(CollidingX, CollidingY, 2);
            CellKey(CollidingX[0], CollidingY[0]) in p && p[CellKey(CollidingX[0], CollidingY[0])] == (1, 1)
            && CellKey(CollidingX[0], CollidingY[1]) in p && p[CellKey(CollidingX[0], CollidingY[1])] == (0, 1)
            && CellKey(CollidingX[1], CollidingY[0]) in p && p[CellKey(CollidingX[1], CollidingY[0])] == (1, 0)
            && CellKey(CollidingX[1], CollidingY[1]) in p && p[CellKey(CollidingX[1], CollidingY[1])] == (1, 1)
  {
    var xs, ys := CollidingX, CollidingY;
    var k00, k01, k10, k11 := CellKey(xs[0], ys[0]), CellKey(xs[0], ys[1]), CellKey(xs[1], ys[0]), CellKey(xs[1], ys[1]);
    assert k00 == "a-b-c" == k11;
    assert |k01| == 7 && |k10| == 3 && |k11| == 5;
    var p1 := ProbsRows(xs, ys, 1);
    assert p1 == ProbsRow(xs, ys, 0, 2, map[]);
    assert k00 in p1 && k01 in p1 && p1[k01] == (0, 1);
    var p := ProbsRows(xs, ys, 2);
    assert p == ProbsRow(xs, ys, 1, 2, p1);
    assert p == p1[k10 := (1, 0)][k11 := (1, 1)];
  }

  lemma SkewedTerms()
    ensures Term(SkewedTable, 0, 0) == 2.25 && Term(SkewedTable, 0, 1) == 0.75
    ensures Term(SkewedTable, 1, 0) == 0.75 && Term(SkewedTable, 1, 1) == 0.25
  {
    assert Expected(SkewedTable, 0, 0) == 0.25 && Expected(SkewedTable, 0, 1) == 0.75;
    assert Expected(SkewedTable, 1, 0) == 0.75 && Expected(SkewedTable, 1, 1) == 2.25;
  }

  /** The terms the chi-square loop reads back for the four cells under the colliding names. */
  lemma CollidingTerms()
    ensures var p := ProbsRows(CollidingX, CollidingY, 2);
            KeyedTerm(SkewedTable, CollidingX, CollidingY, p, 0, 0) == 0.25
            && KeyedTerm(SkewedTable, CollidingX, CollidingY, p, 0, 1) == 0.75
            && KeyedTerm(SkewedTable, CollidingX, CollidingY, p, 1, 0) == 0.75
            && KeyedTerm(SkewedTable, CollidingX, CollidingY, p, 1, 1) == 0.25
  {
    CollidingFiling();
    SkewedTerms();
  }

  /** A 2 x 2 keyed sum is the sum of its four keyed terms. */
  lemma KeyedChiTwoByTwo(t: Table, xs: seq<string>, ys: seq<string>, probs: map<string, (nat, nat)>)
    requires t.n > 0 && |xs| == 2 && |ys| == 2
    ensures KeyedChi(t, xs, ys, probs, 2)
              == KeyedTerm(t, xs, ys, probs, 0, 0) + KeyedTerm(t, xs, ys, probs, 0, 1)
                 + KeyedTerm(t, xs, ys, probs, 1, 0) + KeyedTerm(t, xs, ys, probs, 1, 1)
  {
    assert KeyedRowChi(t, xs, ys, probs, 0, 1) == KeyedTerm(t, xs, ys, probs, 0, 0);
    assert KeyedRowChi(t, xs, ys, probs, 0, 2) == KeyedTerm(t, xs, ys, probs, 0, 0) + KeyedTerm(t, xs, ys, probs, 0, 1);
    assert KeyedChi(t, xs, ys, probs, 1) == KeyedRowChi(t, xs, ys, probs, 0, 2);
    assert KeyedRowChi(t, xs, ys, probs, 1, 1) == KeyedTerm(t, xs, ys, probs, 1, 0);
    assert KeyedRowChi(t, xs, ys, probs, 1, 2) == KeyedTerm(t, xs, ys, probs, 1, 0) + KeyedTerm(t, xs, ys, probs, 1, 1);
  }

  /**
   * Under the colliding names, updateData adds the term of cell (1, 1)
   * twice and that of cell (0, 0) never: for a table that data can give,
   * whose chi-square is 4, it reports 2.
   */
  lemma KeyCollisionMiscounts()
    ensures !KeysDistinct(CollidingX, CollidingY)
    ensures Consistent(SkewedTable)
    ensures ChiSquare(SkewedTable) == 4.0
    ensures KeyedChiSquare(SkewedTable, CollidingX, CollidingY) == 2.0
  {
    CollidingFiling();
    SkewedConsistent();
    SkewedTerms();
    CollidingTerms();
    var t := SkewedTable;
    assert RowChi(t, 0, 2) == 3.0 && RowChi(t, 1, 2) == 1.0;
    KeyedChiTwoByTwo(t, CollidingX, CollidingY, ProbsRows(CollidingX, CollidingY, 2));
  }

  // ---------------------------------------------------------------------
  // The ranking

  /** Non-increasing order of score. */
  predicate Sorted(r: seq<Ranked>)
  {
    forall i, j :: 0 <= i < j < |r| ==> r[i].score >= r[j].score
  }

  /** The first index of a ranking whose score is not above `score`. */
  function InsertPosition(ranking: seq<Ranked>, score: real): (i: nat)
    ensures i <= |ranking|
  {
    if ranking == [] || ranking[0].score <= score then 0 else 1 + InsertPosition(ranking[1..], score)
  }

  /** Every entry before that index scores higher, and the entry at it (if any) does not. */
  lemma {:induction false} InsertPositionSplits(ranking: seq<Ranked>, score: real)
    ensures forall j :: 0 <= j < InsertPosition(ranking, score) ==> ranking[j].score > score
    ensures InsertPosition(ranking, score) < |ranking| ==> ranking[InsertPosition(ranking, score)].score <= score
  {
    if ranking != [] && ranking[0].score > score {
      InsertPositionSplits(ranking[1..], score);
    }
  }

  /** The `while i` scan of calculatePairs, which finds that index. */
  method FindInsertPosition(ranking: seq<Ranked>, score: real) returns (i: nat)
    ensures i == InsertPosition(ranking, score)
    ensures forall j :: 0 <= j < i ==> ranking[j].score > score
    ensures i < |ranking| ==> ranking[i].score <= score
  {
    i := 0;
    while i < |ranking| && ranking[i].score > score
      invariant i <= |ranking|
      invariant forall j :: 0 <= j < i ==> ranking[j].score > score
      invariant InsertPosition(ranking, score) == i + InsertPosition(ranking[i..], score)
    {
      assert ranking[i..][1..] == ranking[i + 1..];
      i := i + 1;
    }
  }

  /** A ranking with `e` inserted before the first entry whose score is not above its own. */
  function Insert(ranking: seq<Ranked>, e: Ranked): seq<Ranked>
  {
    var i := InsertPosition(ranking, e.score);
    ranking[..i] + [e] + ranking[i..]
  }

  /**
   * Inserting at that index keeps the ranking sorted, and the new entry
   * comes before every entry with an equal score.
   */
  lemma InsertKeepsSorted(ranking: seq<Ranked>, i: nat, e: Ranked)
    requires Sorted(ranking) && i <= |ranking|
    requires forall j :: 0 <= j < i ==> ranking[j].score > e.score
    requires i < |ranking| ==> ranking[i].score <= e.score
    ensures Sorted(ranking[..i] + [e] + ranking[i..])
    ensures forall j :: i < j < |ranking| + 1 ==> (ranking[..i] + [e] + ranking[i..])[j].score <= e.score
  {
    var r := ranking[..i] + [e] + ranking[i..];
    forall j | i < j < |r|
      ensures r[j].score <= e.score
    {
      assert r[j] == ranking[j - 1];
      assert ranking[i].score >= ranking[j - 1].score;
    }
  }

  /** The score of a pair's counts: their chi-square (a table without examples is never scored). */
  function ChiScore(t: Table): real
  {
    if t.n == 0 then 0.0 else ChiSquare(t)
  }

  /** What calculatePairs puts in the ranking for the pair (a, b) of discrete attributes. */
  function EntryFor(disc: seq<string>, tableOf: (string, string) -> Table, score: Table -> real, p: (nat, nat)): (r: seq<Ranked>)
    ensures |r| <= 1
  {
    if p.0 < |disc| && p.1 < |disc| then
      var t := tableOf(disc[p.0], disc[p.1]);
      if t.n == 0 then [] else [Ranked(score(t), disc[p.0] + " - " + disc[p.1], disc[p.0], disc[p.1])]
    else []
  }

  /** The entries for the first `k` pairs of `ps`, in visiting order. */
  function RankEntries(disc: seq<string>, tableOf: (string, string) -> Table, score: Table -> real,
                       ps: seq<(nat, nat)>, k: nat): seq<Ranked>
    requires k <= |ps|
  {
    if k == 0 then [] else RankEntries(disc, tableOf, score, ps, k - 1) + EntryFor(disc, tableOf, score, ps[k - 1])
  }

  /** Insertion adds exactly the new entry. */
  lemma InsertAddsEntry(ranking: seq<Ranked>, e: Ranked)
    ensures multiset(Insert(ranking, e)) == multiset(ranking) + multiset{e}
  {
    var i := InsertPosition(ranking, e.score);
    assert ranking == ranking[..i] + ranking[i..];
  }

  /** The ranking built by inserting `entries` one after the other into an empty one. */
  function RankingOf(entries: seq<Ranked>): seq<Ranked>
  {
    if entries == [] then [] else Insert(RankingOf(entries[..|entries| - 1]), entries[|entries| - 1])
  }

  /** Inserting one more entry extends that ranking by one insertion. */
  lemma RankingOfAppend(entries: seq<Ranked>, e: Ranked)
    ensures RankingOf(entries + [e]) == Insert(RankingOf(entries), e)
  {
    assert (entries + [e])[..|entries|] == entries;
  }

  /** Every ranking built that way is sorted by score. */
  lemma {:induction false} RankingOfSorted(entries: seq<Ranked>)
    ensures Sorted(RankingOf(entries))
  {
    if entries != [] {
      var r := RankingOf(entries[..|entries| - 1]);
      var e := entries[|entries| - 1];
      RankingOfSorted(entries[..|entries| - 1]);
      InsertPositionSplits(r, e.score);
      InsertKeepsSorted(r, InsertPosition(r, e.score), e);
    }
  }

  /** ... and holds exactly the entries inserted, each as often as it was inserted. */
  lemma {:induction false} RankingOfPermutes(entries: seq<Ranked>)
    ensures multiset(RankingOf(entries)) == multiset(entries)
  {
    if entries != [] {
      var init := entries[..|entries| - 1];
      var e := entries[|entries| - 1];
      RankingOfPermutes(init);
      InsertAddsEntry(RankingOf(init), e);
      assert entries == init + [e];
    }
  }

  /** `r` is the ranking after the first `k` pairs of the discrete attributes `disc`. */
  ghost predicate RankedAfter(r: seq<Ranked>, disc: seq<string>, tableOf: (string, string) -> Table, score: Table -> real, k: nat)
  {
    k <= |Pairs(|disc|)| && r == RankingOf(RankEntries(disc, tableOf, score, Pairs(|disc|), k))
  }

  /** How many pairs calculatePairs gets through when the stop button acts after `stopAfter` of them. */
  function Visited(total: nat, stopAfter: Option<nat>): nat
  {
    if stopAfter.Some? && stopAfter.value < total then stopAfter.value else total
  }

  /** setData keeps the attribute choice when old and new data exist and share a domain checksum. */
  predicate SameDomain(oldData: Option<Dataset>, newData: Option<Dataset>, sameChecksum: bool)
  {
    Truthy(newData) && Truthy(oldData) && sameChecksum
  }

  /** Whether the selection list given to setShownAttributes is taken up. */
  predicate ShownAttributesApply(data: Option<Dataset>, attrList: Option<seq<string>>)
  {
    Truthy(data) && attrList.Some? && |attrList.value| >= 2
    && attrList.value[0] in Names(data.value.domain) && attrList.value[1] in Names(data.value.domain)
  }

  class SieveWidget {
    var data: Option<Dataset>
    var attrX: string
    var attrY: string
    var attrCondition: Option<string>
    var attributeSelectionList: Option<seq<string>>
    var chisquares: seq<Ranked>
    var stopCalculating: bool

    /** A new widget: no data, no shown pair, no condition and no selection list. */
    constructor ()
      ensures data == None && chisquares == [] && !stopCalculating
      ensures attrX == "" && attrY == "" && attrCondition == None && attributeSelectionList == None
    {
      data := None;
      attrX, attrY, attrCondition := "", "", None;
      attributeSelectionList := None;
      chisquares := [];
      stopCalculating := false;
    }

    /** The insertion into `chisquares` at the first index whose score is not above the new one. */
    method InsertRanked(e: Ranked) returns (i: nat)
      modifies this`chisquares
      ensures i == InsertPosition(old(chisquares), e.score)
      ensures chisquares == Insert(old(chisquares), e)
    {
      i := FindInsertPosition(chisquares, e.score);
      chisquares := chisquares[..i] + [e] + chisquares[i..];
    }

    /** `chisquares` is the ranking after the first `k` pairs of the discrete attributes `disc`. */
    ghost predicate RankedUpTo(disc: seq<string>, tableOf: (string, string) -> Table, score: Table -> real, k: nat)
      reads this
    {
      RankedAfter(chisquares, disc, tableOf, score, k)
    }

    /** One visited pair, the `k`-th: scored and inserted unless its conditional data is empty. */
    method ScorePair(disc: seq<string>, tableOf: (string, string) -> Table, ghost score: Table -> real,
                     attr1: nat, attr2: nat, ghost k: nat)
      requires score == ChiScore
      requires k < |Pairs(|disc|)|
      requires Pairs(|disc|)[k] == (attr1, attr2)
      requires attr1 < |disc|
      requires attr2 < |disc|
      requires RankedUpTo(disc, tableOf, score, k)
      modifies this`chisquares
      ensures RankedUpTo(disc, tableOf, score, k + 1)
    {
      var t := tableOf(disc[attr1], disc[attr2]);
      ghost var before := RankEntries(disc, tableOf, score, Pairs(|disc|), k);
      assert RankEntries(disc, tableOf, score, Pairs(|disc|), k + 1) == before + EntryFor(disc, tableOf, score, (attr1, attr2));
      if t.n != 0 {
        var chisquare := AccumulateChiSquare(t);
        var e := Ranked(chisquare, disc[attr1] + " - " + disc[attr2], disc[attr1], disc[attr2]);
        assert EntryFor(disc, tableOf, score, (attr1, attr2)) == [e];
        RankingOfAppend(before, e);
        var _ := InsertRanked(e);
      } else {
        assert before + EntryFor(disc, tableOf, score, (attr1, attr2)) == before;
      }
    }

    /**
     * One step of the inner loop of calculatePairs, at the `k`-th pair: the
     * counter reaches k + 1, and the stop flag either ends the computation
     * there or the pair is scored.
     */
    method VisitPair(disc: seq<string>, tableOf: (string, string) -> Table, ghost score: Table -> real,
                     stopAfter: Option<nat>, attr1: nat, attr2: nat, k: nat) returns (stopped: bool)
      requires score == ChiScore
      requires attr1 < attr2 < |disc| && k == |RowsBelow(|disc|, attr1)| + (attr2 - attr1 - 1)
      requires stopAfter.Some? ==> k <= stopAfter.value
      requires !stopCalculating && RankedUpTo(disc, tableOf, score, k)
      modifies this`chisquares, this`stopCalculating
      ensures stopped <==> stopAfter.Some? && k == stopAfter.value
      ensures stopCalculating == stopped
      ensures stopped ==> k == Visited(|Pairs(|disc|)|, stopAfter) < |Pairs(|disc|)| && RankedUpTo(disc, tableOf, score, k)
      ensures !stopped ==> RankedUpTo(disc, tableOf, score, k + 1)
    {
      PairsAt(|disc|, attr1, attr2, k);
      if stopAfter.Some? && k + 1 > stopAfter.value {
        stopCalculating := true;
        return true;
      }
      ScorePair(disc, tableOf, score, attr1, attr2, k);
      return false;
    }

    /**
     * The inner loop of calculatePairs for the pairs (attr1, attr2): each
     * advances the counter, then either meets the stop flag and ends the
     * whole computation, or is scored.
     */
    method ScoreRow(disc: seq<string>, tableOf: (string, string) -> Table, ghost score: Table -> real,
                    stopAfter: Option<nat>, attr1: nat, current: nat) returns (next: nat)
      requires score == ChiScore
      requires attr1 < |disc| && current == |RowsBelow(|disc|, attr1)|
      requires stopAfter.Some? ==> current <= stopAfter.value
      requires !stopCalculating && RankedUpTo(disc, tableOf, score, current)
      modifies this`chisquares, this`stopCalculating
      ensures RankedUpTo(disc, tableOf, score, next)
      ensures stopCalculating ==> next == Visited(|Pairs(|disc|)|, stopAfter) < |Pairs(|disc|)|
      ensures !stopCalculating ==> next == current + (|disc| - attr1 - 1) && (stopAfter.Some? ==> next <= stopAfter.value)
    {
      next := current;
      var attr2 := attr1 + 1;
      while attr2 < |disc|
        invariant attr1 + 1 <= attr2 <= |disc|
        invariant next == current + (attr2 - attr1 - 1)
        invariant stopAfter.Some? ==> next <= stopAfter.value
        invariant !stopCalculating && RankedUpTo(disc, tableOf, score, next)
      {
        var stopped := VisitPair(disc, tableOf, score, stopAfter, attr1, attr2, next);
        if stopped {
          return;
        }
        next := next + 1;
        attr2 := attr2 + 1;
      }
    }

    /** The outer loop of calculatePairs over the first attribute of each pair. */
    method RankPairs(disc: seq<string>, tableOf: (string, string) -> Table, ghost score: Table -> real, stopAfter: Option<nat>)
      requires score == ChiScore
      requires chisquares == [] && !stopCalculating
      modifies this`chisquares, this`stopCalculating
      ensures RankedUpTo(disc, tableOf, score, Visited(|Pairs(|disc|)|, stopAfter))
      ensures stopCalculating <==> Visited(|Pairs(|disc|)|, stopAfter) < |Pairs(|disc|)|
    {
      var current := 0;
      var attr1 := 0;
      while attr1 < |disc|
        invariant 0 <= attr1 <= |disc|
        invariant current == |RowsBelow(|disc|, attr1)|
        invariant stopAfter.Some? ==> current <= stopAfter.value
        invariant !stopCalculating && RankedUpTo(disc, tableOf, score, current)
      {
        current := ScoreRow(disc, tableOf, score, stopAfter, attr1, current);
        if stopCalculating {
          return;
        }
        RowsBelowStep(|disc|, attr1);
        attr1 := attr1 + 1;
      }
      assert current == |Pairs(|disc|)|;
      assert Visited(|Pairs(|disc|)|, stopAfter) == current;
    }

    /**
     * calculatePairs: visits the pairs of discrete attributes in order,
     * skips those whose conditional data is empty, and ranks the others by
     * chi-square. `tableOf` gives the counts of a pair on the conditional
     * data; the stop button takes effect once `stopAfter` pairs have been
     * visited, and the loop then returns at once.
     */
    method CalculatePairs(tableOf: (string, string) -> Table, stopAfter: Option<nat>)
      modifies this`chisquares, this`stopCalculating
      ensures Sorted(chisquares)
      ensures !Truthy(data) ==> chisquares == [] && !stopCalculating
      ensures Truthy(data) ==>
                var disc := NamesWhere(data.value.domain, IsDiscrete);
                chisquares == RankingOf(RankEntries(disc, tableOf, ChiScore, Pairs(|disc|), Visited(|Pairs(|disc|)|, stopAfter)))
                && multiset(chisquares) == multiset(RankEntries(disc, tableOf, ChiScore, Pairs(|disc|), Visited(|Pairs(|disc|)|, stopAfter)))
                && (stopCalculating <==> Visited(|Pairs(|disc|)|, stopAfter) < |Pairs(|disc|)|)
    {
      chisquares := [];
      stopCalculating := false;
      if !Truthy(data) {
        return;
      }
      var disc := AttributeNames(data.value.domain, IsDiscrete);
      RankPairs(disc, tableOf, ChiScore, stopAfter);
      RankingOfSorted(RankEntries(disc, tableOf, ChiScore, Pairs(|disc|), Visited(|Pairs(|disc|)|, stopAfter)));
      RankingOfPermutes(RankEntries(disc, tableOf, ChiScore, Pairs(|disc|), Visited(|Pairs(|disc|)|, stopAfter)));
    }

    /**
     * setShownAttributes: the first two names of the list become the shown
     * pair when there is data and both names belong to its domain.
     */
    method SetShownAttributes(attrList: Option<seq<string>>)
      modifies this
      ensures attributeSelectionList == attrList
      ensures data == old(data) && chisquares == old(chisquares) && attrCondition == old(attrCondition)
      ensures ShownAttributesApply(data, attrList) ==> attrX == attrList.value[0] && attrY == attrList.value[1]
      ensures !ShownAttributesApply(data, attrList) ==> attrX == old(attrX) && attrY == old(attrY)
    {
      attributeSelectionList := attrList;
      if Truthy(data) && attrList.Some? && attrList.value != [] && |attrList.value| >= 2 {
        var attrs := Names(data.value.domain);
        if attrList.value[0] in attrs && attrList.value[1] in attrs {
          attrX := attrList.value[0];
          attrY := attrList.value[1];
        }
      }
    }

    /**
     * initCombos: the attribute lists offer every attribute that is not
     * continuous; X becomes the first and Y the second, or the first again
     * when there is only one; the condition goes back to "(None)".
     */
    method InitCombos()
      modifies this
      ensures data == old(data) && chisquares == old(chisquares) && attributeSelectionList == old(attributeSelectionList)
      ensures !Truthy(data) ==> attrX == old(attrX) && attrY == old(attrY) && attrCondition == old(attrCondition)
      ensures Truthy(data) ==> attrCondition == Some("(None)")
      ensures Truthy(data) && NamesWhere(data.value.domain, NotContinuous) == [] ==>
                attrX == old(attrX) && attrY == old(attrY)
      ensures Truthy(data) && NamesWhere(data.value.domain, NotContinuous) != [] ==>
                var names := NamesWhere(data.value.domain, NotContinuous);
                attrX == names[0] && attrY == names[if |names| > 1 then 1 else 0]
    {
      if !Truthy(data) {
        return;
      }
      var names := AttributeNames(data.value.domain, NotContinuous);
      attrCondition := Some("(None)");
      if |names| > 0 {
        attrX := names[0];
        attrY := names[if |names| > 1 then 1 else 0];
      }
    }

    /**
     * setData: the new (already discretised) table replaces the old one; the
     * attribute choice is rebuilt unless both tables exist and their domains
     * have the same checksum, and the selection list is applied again. The
     * ranking is left as it is.
     */
    method SetData(newData: Option<Dataset>, sameChecksum: bool)
      modifies this
      ensures data == newData && chisquares == old(chisquares)
      ensures attributeSelectionList == old(attributeSelectionList)
      ensures SameDomain(old(data), newData, sameChecksum) ==> attrCondition == old(attrCondition)
      ensures !SameDomain(old(data), newData, sameChecksum) && Truthy(newData) ==> attrCondition == Some("(None)")
      ensures !Truthy(newData) ==> attrCondition == old(attrCondition) && attrX == old(attrX) && attrY == old(attrY)
      ensures ShownAttributesApply(newData, old(attributeSelectionList)) ==>
                attrX == old(attributeSelectionList).value[0] && attrY == old(attributeSelectionList).value[1]
      ensures !ShownAttributesApply(newData, old(attributeSelectionList)) && SameDomain(old(data), newData, sameChecksum) ==>
                attrX == old(attrX) && attrY == old(attrY)
      ensures !ShownAttributesApply(newData, old(attributeSelectionList)) && !SameDomain(old(data), newData, sameChecksum)
              && Truthy(newData) && NamesWhere(newData.value.domain, NotContinuous) != [] ==>
                var names := NamesWhere(newData.value.domain, NotContinuous);
                attrX == names[0] && attrY == names[if |names| > 1 then 1 else 0]
    {
      var sameDomain := SameDomain(data, newData, sameChecksum);
      data := newData;
      if !sameDomain {
        InitCombos();
      }
      SetShownAttributes(attributeSelectionList);
    }

    /**
     * The computing part of updateData: nothing without data, without both
     * attributes or without conditional examples; otherwise the chi-square
     * of the conditional counts `conditional`.
     */
    method UpdateData(conditional: Option<Table>) returns (chisquare: Option<real>)
      ensures chisquare.Some? <==>
                Truthy(data) && attrX != "" && attrY != "" && conditional.Some? && conditional.value.n > 0
      ensures chisquare.Some? ==> chisquare.value == ChiSquare(conditional.value)
      ensures chisquare.Some? && Counts(conditional.value) ==> chisquare.value >= 0.0
    {
      if !Truthy(data) {
        return None;
      }
      if attrX == "" || attrY == "" {
        return None;
      }
      if conditional.None? || conditional.value.n == 0 {
        return None;
      }
      var c := AccumulateChiSquare(conditional.value);
      chisquare := Some(c);
    }
  }

  // ---------------------------------------------------------------------
  // Cell colour and line density

  datatype Rgb = Rgb(r: int, g: int, b: int)

  function Ceil(p: real): int
  {
    -((-p).Floor)
  }

  function MaxInt(a: int, b: int): int
  {
    if a >= b then a else b
  }

  /**
   * The cell colour for a standardized Pearson residual: shades of blue
   * for more examples than expected, of red for fewer, white for exactly
   * as many; each step of 1 in the residual takes 20 off the other two
   * channels, down to 55.
   */
  function CellColour(pearson: real): (c: Rgb)
    ensures 55 <= c.r <= 255 && 55 <= c.g <= 255 && 55 <= c.b <= 255
    ensures pearson > 0.0 ==> c.b == 255 && c.r == c.g == MaxInt(255 - 20 * pearson.Floor, 55)
    ensures pearson < 0.0 ==> c.r == 255 && c.b == c.g == MaxInt(255 + 20 * Ceil(pearson), 55)
    ensures pearson == 0.0 ==> c == Rgb(255, 255, 255)
  {
    if pearson > 0.0 then
      var v := MaxInt(255 - pearson.Floor * 20, 55);
      Rgb(v, v, 255)
    else if pearson < 0.0 then
      var v := MaxInt(255 + Ceil(pearson) * 20, 55);
      Rgb(255, v, v)
    else
      Rgb(255, 255, 255)
  }

  /** A residual and its negation get mirror colours: red and blue swap. */
  lemma CellColourSymmetric(p: real)
    ensures CellColour(-p) == Rgb(CellColour(p).b, CellColour(p).g, CellColour(p).r)
  {
    if p > 0.0 {
      assert Ceil(-p) == -(p.Floor);
    } else if p < 0.0 {
      assert (-p).Floor == -Ceil(p);
    }
  }

  /** The larger a positive residual, the deeper the blue. */
  lemma CellColourMonotone(p: real, q: real)
    requires 0.0 < p <= q
    ensures CellColour(q).r <= CellColour(p).r
  {
    assert p.Floor <= q.Floor;
  }

  function MinReal(a: real, b: real): real
  {
    if a <= b then a else b
  }

  function MaxReal(a: real, b: real): real
  {
    if a >= b then a else b
  }

  /**
   * The line density factor: the residual is clipped to [-10, 10]; a
   * positive one maps into [0.2, 1), any other into [1, 5].
   */
  function Kvoc(pearson: real): (k: real)
    ensures pearson > 0.0 ==> 0.2 <= k < 1.0
    ensures pearson <= 0.0 ==> 1.0 <= k <= 5.0
    ensures pearson >= 10.0 ==> k == 0.2
    ensures pearson <= -10.0 ==> k == 5.0
  {
    if pearson > 0.0 then 1.0 - 0.08 * MinReal(pearson, 10.0)
    else 1.0 - 0.4 * MaxReal(pearson, -10.0)
  }

  /** The factor never grows with the residual. */
  lemma KvocNonIncreasing(p: real, q: real)
    requires p <= q
    ensures Kvoc(q) <= Kvoc(p)
  {
    if p > 0.0 {
      assert MinReal(p, 10.0) <= MinReal(q, 10.0);
    } else if q <= 0.0 {
      assert MaxReal(p, -10.0) <= MaxReal(q, -10.0);
    }
  }
}
