/**
 * The signal manager as the schema document sees it: a set of link tuples
 * (source widget, target widget, output signal, input signal), the directed
 * graph they induce, and the path query the document asks before it connects
 * two widgets.
 */
module SignalGraph {

  /** Identity of a widget instance on the canvas. */
  type WidgetId = nat

  /** One signal connection held by the signal manager. */
  datatype SignalLink = SignalLink(src: WidgetId, dst: WidgetId, outName: string, inName: string)

  type Edge = (WidgetId, WidgetId)

  /** The widget graph: one edge per ordered pair that some signal joins. */
  function Edges(links: set<SignalLink>): (e: set<Edge>)
    ensures forall l :: l in links ==> (l.src, l.dst) in e
    ensures forall p :: p in e ==> exists l :: l in links && p == (l.src, l.dst)
  {
    set l | l in links :: (l.src, l.dst)
  }

  /** Dropping one link can only lose that link's own pair of widgets. */
  lemma EdgesWithout(links: set<SignalLink>, s: SignalLink)
    ensures Edges(links - {s}) <= Edges(links)
    ensures Edges(links) - {(s.src, s.dst)} <= Edges(links - {s})
  {
    forall p | p in Edges(links) - {(s.src, s.dst)}
      ensures p in Edges(links - {s})
    {
      var l :| l in links && p == (l.src, l.dst);
      assert l in links - {s};
    }
  }

  /** Dropping every link between one pair of widgets loses exactly that pair. */
  lemma EdgesWithoutPair(links: set<SignalLink>, pair: Edge)
    ensures Edges(set s | s in links && (s.src, s.dst) != pair) == Edges(links) - {pair}
  {
    var rest := set s | s in links && (s.src, s.dst) != pair;
    forall p | p in Edges(links) - {pair}
      ensures p in Edges(rest)
    {
      var l :| l in links && p == (l.src, l.dst);
      assert l in rest;
    }
  }

  lemma EdgesWith(links: set<SignalLink>, s: SignalLink)
    ensures Edges(links + {s}) == Edges(links) + {(s.src, s.dst)}
  {
  }

  /** Links added between one pair of widgets add at most that pair. */
  lemma EdgesGrowth(before: set<SignalLink>, after: set<SignalLink>, pair: Edge)
    requires forall s :: s in after && s !in before ==> (s.src, s.dst) == pair
    ensures Edges(after) <= Edges(before) + {pair}
  {
    forall p | p in Edges(after)
      ensures p in Edges(before) + {pair}
    {
      var l :| l in after && p == (l.src, l.dst);
    }
  }

  /** A walk of exactly `n` edges from `a` to `b`. */
  ghost predicate Walk(E: set<Edge>, a: WidgetId, b: WidgetId, n: nat)
    decreases n
  {
    if n == 0 then a == b else exists c :: (a, c) in E && Walk(E, c, b, n - 1)
  }

  /** `b` can be reached from `a` in zero or more steps. */
  ghost predicate Reach(E: set<Edge>, a: WidgetId, b: WidgetId)
  {
    exists n: nat :: Walk(E, a, b, n)
  }

  /** `b` can be reached from `a` in one or more steps. */
  ghost predicate Path(E: set<Edge>, a: WidgetId, b: WidgetId)
  {
    exists n: nat :: n >= 1 && Walk(E, a, b, n)
  }

  ghost predicate Acyclic(E: set<Edge>)
  {
    forall x :: !Path(E, x, x)
  }

  function Successors(E: set<Edge>, S: set<WidgetId>): set<WidgetId>
  {
    set e | e in E && e.0 in S :: e.1
  }

  function Targets(E: set<Edge>): set<WidgetId>
  {
    set e | e in E :: e.1
  }

  lemma ProperSubsetSmaller<T>(A: set<T>, B: set<T>)
    requires A < B
    ensures |A| < |B|
  {
    var d := B - A;
    assert B == A + d;
    assert A * d == {};
    var x :| x in d;
    assert |d| >= 1 by { assert x in d; }
  }

  /** Least superset of `R` closed under taking successors. */
  function Closure(E: set<Edge>, R: set<WidgetId>): (C: set<WidgetId>)
    requires R <= Targets(E)
    ensures R <= C <= Targets(E)
    ensures Successors(E, C) <= C
    decreases |Targets(E) - R|
  {
    var R' := R + Successors(E, R);
    if R' == R then R
    else
      ProperSubsetSmaller(Targets(E) - R', Targets(E) - R);
      Closure(E, R')
  }

  /**
   * The signal manager's `existsPath(from, to)`: whether signals already lead
   * from `from` to `to` over one or more links.
   */
  function ExistsPath(links: set<SignalLink>, from: WidgetId, to: WidgetId): bool
  {
    var E := Edges(links);
    to in Closure(E, Successors(E, {from}))
  }

  lemma {:induction false} WalkSnoc(E: set<Edge>, a: WidgetId, b: WidgetId, c: WidgetId, n: nat)
    requires Walk(E, a, b, n) && (b, c) in E
    ensures Walk(E, a, c, n + 1)
    decreases n
  {
    if n > 0 {
      var d :| (a, d) in E && Walk(E, d, b, n - 1);
      WalkSnoc(E, d, b, c, n - 1);
    }
  }

  lemma {:induction false} WalkConcat(E: set<Edge>, a: WidgetId, b: WidgetId, c: WidgetId, m: nat, n: nat)
    requires Walk(E, a, b, m) && Walk(E, b, c, n)
    ensures Walk(E, a, c, m + n)
    decreases m
  {
    if m > 0 {
      var d :| (a, d) in E && Walk(E, d, b, m - 1);
      WalkConcat(E, d, b, c, m - 1, n);
    }
  }

  lemma {:induction false} WalkMono(E: set<Edge>, F: set<Edge>, a: WidgetId, b: WidgetId, n: nat)
    requires E <= F && Walk(E, a, b, n)
    ensures Walk(F, a, b, n)
    decreases n
  {
    if n > 0 {
      var d :| (a, d) in E && Walk(E, d, b, n - 1);
      WalkMono(E, F, d, b, n - 1);
    }
  }

  lemma {:induction false} ClosureSound(E: set<Edge>, a: WidgetId, R: set<WidgetId>)
    requires R <= Targets(E)
    requires forall x :: x in R ==> Path(E, a, x)
    ensures forall x :: x in Closure(E, R) ==> Path(E, a, x)
    decreases |Targets(E) - R|
  {
    var R' := R + Successors(E, R);
    if R' != R {
      forall x | x in R'
        ensures Path(E, a, x)
      {
        if x !in R {
          var e :| e in E && e.0 in R && e.1 == x;
          var n :| n >= 1 && Walk(E, a, e.0, n);
          WalkSnoc(E, a, e.0, x, n);
        }
      }
      ProperSubsetSmaller(Targets(E) - R', Targets(E) - R);
      ClosureSound(E, a, R');
    }
  }

  lemma {:induction false} ClosureComplete(E: set<Edge>, a: WidgetId, C: set<WidgetId>, x: WidgetId, b: WidgetId, n: nat)
    requires Successors(E, {a}) <= C && Successors(E, C) <= C
    requires x == a || x in C
    requires n >= 1 && Walk(E, x, b, n)
    ensures b in C
    decreases n
  {
    var d :| (x, d) in E && Walk(E, d, b, n - 1);
    assert d in Successors(E, {a}) || d in Successors(E, C);
    if n > 1 {
      ClosureComplete(E, a, C, d, b, n - 1);
    }
  }

  /** The path query answers exactly "is there a path of one or more links". */
  lemma ExistsPathIsPath(links: set<SignalLink>, from: WidgetId, to: WidgetId)
    ensures ExistsPath(links, from, to) <==> Path(Edges(links), from, to)
  {
    var E := Edges(links);
    var R := Successors(E, {from});
    forall x | x in R
      ensures Path(E, from, x)
    {
      assert Walk(E, x, x, 0);
      assert Walk(E, from, x, 1);
    }
    ClosureSound(E, from, R);
    if Path(E, from, to) {
      var n :| n >= 1 && Walk(E, from, to, n);
      ClosureComplete(E, from, Closure(E, R), from, to, n);
    }
  }

  /** Dropping edges never closes a cycle. */
  lemma SubgraphAcyclic(E: set<Edge>, F: set<Edge>)
    requires F <= E && Acyclic(E)
    ensures Acyclic(F)
  {
    forall x | Path(F, x, x)
      ensures false
    {
      var n :| n >= 1 && Walk(F, x, x, n);
      WalkMono(F, E, x, x, n);
      assert Path(E, x, x);
    }
  }

  /**
   * A walk in E plus the edge (u, v) either avoids the new edge or passes
   * through it: then it reaches u and leaves from v inside E.
   */
  lemma {:induction false} WalkWithEdge(E: set<Edge>, u: WidgetId, v: WidgetId, x: WidgetId, y: WidgetId, n: nat)
    requires Walk(E + {(u, v)}, x, y, n)
    ensures Walk(E, x, y, n) || (Reach(E, x, u) && Reach(E, v, y))
    decreases n
  {
    if n > 0 {
      var F := E + {(u, v)};
      var c :| (x, c) in F && Walk(F, c, y, n - 1);
      WalkWithEdge(E, u, v, c, y, n - 1);
      if (x, c) in E {
        if Walk(E, c, y, n - 1) {
          assert Walk(E, x, y, n);
        } else {
          var m: nat :| Walk(E, c, u, m);
          assert Walk(E, x, u, m + 1);
        }
      } else {
        assert x == u && c == v;
        assert Walk(E, x, u, 0);
        if Walk(E, c, y, n - 1) {
          assert Reach(E, v, y);
        }
      }
    }
  }

  /**
   * The rule `addLine` relies on: when no path leads back from the target to
   * the source, joining source to target keeps the widget graph acyclic.
   */
  lemma AddEdgeKeepsAcyclic(E: set<Edge>, u: WidgetId, v: WidgetId)
    requires Acyclic(E) && !Path(E, v, u) && u != v
    ensures Acyclic(E + {(u, v)})
  {
    forall x | Path(E + {(u, v)}, x, x)
      ensures false
    {
      var n :| n >= 1 && Walk(E + {(u, v)}, x, x, n);
      WalkWithEdge(E, u, v, x, x, n);
      if Walk(E, x, x, n) {
        assert Path(E, x, x);
      } else {
        var m1: nat :| Walk(E, x, u, m1);
        var m2: nat :| Walk(E, v, x, m2);
        WalkConcat(E, v, x, u, m2, m1);
      }
    }
  }
}
