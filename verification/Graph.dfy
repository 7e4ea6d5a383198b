/** Directed graphs as sets of arrows: reachability, acyclicity, and what one new arrow does to them. */
module Graph {

  type Vertex = nat

  datatype Arrow = Arrow(from: Vertex, to: Vertex)

  ghost predicate IsPath(arrows: set<Arrow>, p: seq<Vertex>) {
    p != [] && forall i | 0 <= i < |p| - 1 :: Arrow(p[i], p[i + 1]) in arrows
  }

  ghost predicate Connects(arrows: set<Arrow>, p: seq<Vertex>, a: Vertex, b: Vertex) {
    IsPath(arrows, p) && p[0] == a && p[|p| - 1] == b
  }

  /** Whether a directed path, possibly empty, leads from `a` to `b`. */
  ghost predicate Reach(arrows: set<Arrow>, a: Vertex, b: Vertex) {
    exists p :: Connects(arrows, p, a, b)
  }

  /** No arrow lies on a cycle. A path may be empty, so there are no self-loops either. */
  ghost predicate Acyclic(arrows: set<Arrow>) {
    forall e | e in arrows :: !Reach(arrows, e.to, e.from)
  }

  lemma ReachSelf(arrows: set<Arrow>, a: Vertex)
    ensures Reach(arrows, a, a)
  {
    assert Connects(arrows, [a], a, a);
  }

  lemma ReachArrow(arrows: set<Arrow>, a: Vertex, b: Vertex)
    requires Arrow(a, b) in arrows
    ensures Reach(arrows, a, b)
  {
    assert Connects(arrows, [a, b], a, b);
  }

  lemma ReachTrans(arrows: set<Arrow>, a: Vertex, b: Vertex, c: Vertex)
    requires Reach(arrows, a, b) && Reach(arrows, b, c)
    ensures Reach(arrows, a, c)
  {
    var p :| Connects(arrows, p, a, b);
    var q :| Connects(arrows, q, b, c);
    assert Connects(arrows, p + q[1..], a, c);
  }

  lemma ReachMonotonic(small: set<Arrow>, large: set<Arrow>, a: Vertex, b: Vertex)
    requires small <= large && Reach(small, a, b)
    ensures Reach(large, a, b)
  {
    var p :| Connects(small, p, a, b);
    assert Connects(large, p, a, b);
  }

  lemma PathTail(arrows: set<Arrow>, p: seq<Vertex>, a: Vertex, b: Vertex)
    requires Connects(arrows, p, a, b) && |p| > 1
    ensures Arrow(a, p[1]) in arrows && Connects(arrows, p[1..], p[1], b)
  {
    assert Arrow(p[0], p[1]) in arrows;
    forall i | 0 <= i < |p[1..]| - 1 ensures Arrow(p[1..][i], p[1..][i + 1]) in arrows {
      assert Arrow(p[i + 1], p[i + 2]) in arrows;
    }
  }

  /** A set closed under arrows holds everything reachable from its members. */
  lemma {:induction false} ClosedHoldsPath(arrows: set<Arrow>, closed: set<Vertex>, p: seq<Vertex>, a: Vertex, b: Vertex)
    requires forall e | e in arrows && e.from in closed :: e.to in closed
    requires a in closed && Connects(arrows, p, a, b)
    ensures b in closed
    decreases |p|
  {
    if |p| > 1 {
      PathTail(arrows, p, a, b);
      assert Arrow(a, p[1]).to in closed;
      ClosedHoldsPath(arrows, closed, p[1..], p[1], b);
    }
  }

  lemma ClosedHoldsReachable(arrows: set<Arrow>, closed: set<Vertex>, a: Vertex, b: Vertex)
    requires forall e | e in arrows && e.from in closed :: e.to in closed
    requires a in closed && Reach(arrows, a, b)
    ensures b in closed
  {
    var p :| Connects(arrows, p, a, b);
    ClosedHoldsPath(arrows, closed, p, a, b);
  }

  lemma {:induction false} PathThroughNew(arrows: set<Arrow>, f: Vertex, t: Vertex, p: seq<Vertex>, a: Vertex, b: Vertex)
    requires Connects(arrows + {Arrow(f, t)}, p, a, b)
    ensures Reach(arrows, a, b) || (Reach(arrows, a, f) && Reach(arrows, t, b))
    decreases |p|
  {
    if |p| == 1 {
      ReachSelf(arrows, a);
    } else {
      PathTail(arrows + {Arrow(f, t)}, p, a, b);
      PathThroughNew(arrows, f, t, p[1..], p[1], b);
      if Arrow(a, p[1]) in arrows {
        ReachArrow(arrows, a, p[1]);
        if Reach(arrows, p[1], b) {
          ReachTrans(arrows, a, p[1], b);
        } else {
          ReachTrans(arrows, a, p[1], f);
        }
      } else {
        ReachSelf(arrows, f);
      }
    }
  }

  /** One new arrow adds exactly the paths that cross it once. */
  lemma ReachWithNew(arrows: set<Arrow>, f: Vertex, t: Vertex, a: Vertex, b: Vertex)
    ensures Reach(arrows + {Arrow(f, t)}, a, b) <==> Reach(arrows, a, b) || (Reach(arrows, a, f) && Reach(arrows, t, b))
  {
    var more := arrows + {Arrow(f, t)};
    if p :| Connects(more, p, a, b) {
      PathThroughNew(arrows, f, t, p, a, b);
    }
    if Reach(arrows, a, b) {
      ReachMonotonic(arrows, more, a, b);
    }
    if Reach(arrows, a, f) && Reach(arrows, t, b) {
      ReachMonotonic(arrows, more, a, f);
      ReachMonotonic(arrows, more, t, b);
      ReachArrow(more, f, t);
      ReachTrans(more, a, f, t);
      ReachTrans(more, a, t, b);
    }
  }

  /** A new arrow keeps the graph acyclic exactly when its head does not already reach its tail. */
  lemma AcyclicWithNew(arrows: set<Arrow>, f: Vertex, t: Vertex)
    requires Acyclic(arrows)
    ensures Acyclic(arrows + {Arrow(f, t)}) <==> !Reach(arrows, t, f)
  {
    var more := arrows + {Arrow(f, t)};
    if Reach(arrows, t, f) {
      ReachMonotonic(arrows, more, t, f);
      assert Arrow(f, t) in more && Reach(more, Arrow(f, t).to, Arrow(f, t).from);
    } else {
      forall e | e in more ensures !Reach(more, e.to, e.from) {
        ReachWithNew(arrows, f, t, e.to, e.from);
        if e in arrows && Reach(arrows, e.to, f) && Reach(arrows, t, e.from) {
          ReachArrow(arrows, e.from, e.to);
          ReachTrans(arrows, t, e.from, e.to);
          ReachTrans(arrows, t, e.to, f);
        }
      }
    }
  }

  lemma AcyclicSubset(small: set<Arrow>, large: set<Arrow>)
    requires small <= large && Acyclic(large)
    ensures Acyclic(small)
  {
    forall e | e in small ensures !Reach(small, e.to, e.from) {
      if Reach(small, e.to, e.from) {
        ReachMonotonic(small, large, e.to, e.from);
      }
    }
  }
}
