/** A response's edges, inserted one after another: exactly which batches are accepted, whatever
    their order. */
module EdgeBatches {
  import opened Common
  import opened Graph
  import opened Records
  import opened Database
  import opened Invariants

  datatype NewEdge = NewEdge(id: EdgeId, from: NodeId, to: NodeId, edgeType: EdgeType)

  datatype Triple = Triple(from: NodeId, to: NodeId, edgeType: EdgeType)

  ghost function InsertEdges(db: Db, project: ProjectId, batch: seq<NewEdge>): Result<Db, StoreError> {
    if batch == [] then Ok(db)
    else
      var rest := InsertEdges(db, project, batch[..|batch| - 1]);
      var e := batch[|batch| - 1];
      if rest.Err? then rest else InsertEdge(rest.value, project, e.id, e.from, e.to, e.edgeType)
  }

  // ---- Which batches are acceptable ----

  function RowOf(project: ProjectId, e: NewEdge): Edge { Edge(e.id, project, e.from, e.to, e.edgeType) }

  function Rows(project: ProjectId, batch: seq<NewEdge>): (rows: seq<Edge>)
    ensures |rows| == |batch|
  {
    seq(|batch|, i requires 0 <= i < |batch| => RowOf(project, batch[i]))
  }

  function TripleOf(e: NewEdge): Triple { Triple(e.from, e.to, e.edgeType) }

  function EdgeTriple(e: Edge): Triple { Triple(e.from, e.to, e.edgeType) }

  predicate EndpointsInProject(nodes: map<NodeId, Node>, project: ProjectId, batch: seq<NewEdge>) {
    forall e | e in batch :: NodeInProject(nodes, project, e.from) && NodeInProject(nodes, project, e.to)
  }

  predicate NoSelfLoop(batch: seq<NewEdge>) { forall e | e in batch :: e.from != e.to }

  predicate DistinctTriples(batch: seq<NewEdge>) {
    forall i, j | 0 <= i < j < |batch| :: TripleOf(batch[i]) != TripleOf(batch[j])
  }

  predicate FreshTriples(edges: seq<Edge>, batch: seq<NewEdge>) {
    forall e, x | e in batch && x in edges :: TripleOf(e) != EdgeTriple(x)
  }

  predicate FreeIds(edges: seq<Edge>, batch: seq<NewEdge>) {
    (forall e, x | e in batch && x in edges :: e.id != x.id)
    && forall i, j | 0 <= i < j < |batch| :: batch[i].id != batch[j].id
  }

  function BatchArrows(batch: seq<NewEdge>): set<Arrow> { set e | e in batch :: Arrow(e.from, e.to) }

  /** What a batch must satisfy, as a whole: no order is mentioned. */
  ghost predicate Admissible(db: Db, project: ProjectId, batch: seq<NewEdge>) {
    EndpointsInProject(db.nodes, project, batch) && NoSelfLoop(batch)
    && DistinctTriples(batch) && FreshTriples(db.edges, batch)
    && FreeIds(db.edges, batch) && Acyclic(ArrowsOf(db.edges) + BatchArrows(batch))
  }

  // ---- Why an edge is refused ----

  predicate HasTriple(edges: seq<Edge>, from: NodeId, to: NodeId, edgeType: EdgeType) {
    exists x :: x in edges && x.from == from && x.to == to && x.edgeType == edgeType
  }

  /** A refusal says what is wrong with the edge, and that nothing it checks for earlier is. */
  lemma RefusedBecause(db: Db, project: ProjectId, id: EdgeId, from: NodeId, to: NodeId, edgeType: EdgeType)
    requires project in db.projects && InsertEdge(db, project, id, from, to, edgeType).Err?
    ensures var known := NodeInProject(db.nodes, project, from) && NodeInProject(db.nodes, project, to);
      match InsertEdge(db, project, id, from, to, edgeType).error
      case UnknownNode(n) => !NodeInProject(db.nodes, project, n) && (n == from || (n == to && NodeInProject(db.nodes, project, from)))
      case SelfLoop(n) => known && n == from == to
      case DuplicateEdge(a, b, c) => known && from != to && (a, b, c) == (from, to, edgeType) && HasTriple(db.edges, from, to, edgeType)
      case Cycle(a, b, c) =>
        known && from != to && (a, b, c) == (from, to, edgeType) && !HasTriple(db.edges, from, to, edgeType) && Reach(ArrowsOf(db.edges), to, from)
      case IdTaken =>
        known && from != to && !HasTriple(db.edges, from, to, edgeType) && !Reach(ArrowsOf(db.edges), to, from) && exists x :: x in db.edges && x.id == id
      case _ => false
  {
  }

  // ---- One more edge ----

  lemma InBatch(batch: seq<NewEdge>, e: NewEdge)
    ensures forall x :: x in batch + [e] <==> x in batch || x == e
  {
  }

  lemma BatchArrowsAppend(batch: seq<NewEdge>, e: NewEdge)
    ensures BatchArrows(batch + [e]) == BatchArrows(batch) + {Arrow(e.from, e.to)}
  {
    InBatch(batch, e);
    forall a ensures a in BatchArrows(batch + [e]) <==> a in BatchArrows(batch) || a == Arrow(e.from, e.to) {
      if a in BatchArrows(batch) {
        var x :| x in batch && Arrow(x.from, x.to) == a;
        assert x in batch + [e];
      }
      if a == Arrow(e.from, e.to) {
        assert e in batch + [e];
      }
    }
  }

  lemma RowsArrows(edges: seq<Edge>, project: ProjectId, batch: seq<NewEdge>)
    ensures ArrowsOf(edges + Rows(project, batch)) == ArrowsOf(edges) + BatchArrows(batch)
  {
    var rows := Rows(project, batch);
    forall a ensures a in ArrowsOf(edges + rows) <==> a in ArrowsOf(edges) || a in BatchArrows(batch) {
      if a in ArrowsOf(edges) {
        var x :| x in edges && Arrow(x.from, x.to) == a;
        assert x in edges + rows;
      }
      if a in BatchArrows(batch) {
        var x :| x in batch && Arrow(x.from, x.to) == a;
        var i :| 0 <= i < |batch| && batch[i] == x;
        assert rows[i] in edges + rows;
      }
      if a in ArrowsOf(edges + rows) && a !in ArrowsOf(edges) {
        var x :| x in edges + rows && Arrow(x.from, x.to) == a;
        var i :| 0 <= i < |rows| && rows[i] == x;
        assert batch[i] in batch;
      }
    }
  }

  /** The last edge of a batch, against the tables the earlier ones left. */
  ghost predicate LastFits(db: Db, project: ProjectId, batch: seq<NewEdge>, e: NewEdge) {
    NodeInProject(db.nodes, project, e.from) && NodeInProject(db.nodes, project, e.to) && e.from != e.to
    && (forall x | x in batch :: TripleOf(x) != TripleOf(e) && x.id != e.id)
    && (forall x | x in db.edges :: EdgeTriple(x) != TripleOf(e) && x.id != e.id)
    && !Reach(ArrowsOf(db.edges) + BatchArrows(batch), e.to, e.from)
  }

  lemma LastFitsIsAccepted(db: Db, project: ProjectId, batch: seq<NewEdge>, e: NewEdge)
    requires project in db.projects
    ensures InsertEdge(db.(edges := db.edges + Rows(project, batch)), project, e.id, e.from, e.to, e.edgeType).Ok?
      <==> LastFits(db, project, batch, e)
  {
    var rows := Rows(project, batch);
    var mid := db.(edges := db.edges + rows);
    RowsArrows(db.edges, project, batch);
    forall x | x in batch ensures RowOf(project, x) in rows {
      var i :| 0 <= i < |batch| && batch[i] == x;
      assert rows[i] == RowOf(project, x);
    }
    forall y | y in rows ensures exists x :: x in batch && RowOf(project, x) == y {
      var i :| 0 <= i < |rows| && rows[i] == y;
      assert RowOf(project, batch[i]) == y;
    }
    if LastFits(db, project, batch, e) {
      forall y | y in mid.edges ensures !(y.from == e.from && y.to == e.to && y.edgeType == e.edgeType) && y.id != e.id {
        if y in db.edges {
          assert EdgeTriple(y) != TripleOf(e);
        }
      }
    } else if InsertEdge(mid, project, e.id, e.from, e.to, e.edgeType).Ok? {
      forall x | x in batch ensures TripleOf(x) != TripleOf(e) && x.id != e.id {
        assert RowOf(project, x) in mid.edges;
      }
      forall x | x in db.edges ensures EdgeTriple(x) != TripleOf(e) && x.id != e.id {
        assert x in mid.edges;
      }
    }
  }

  lemma AdmissibleAppend(db: Db, project: ProjectId, batch: seq<NewEdge>, e: NewEdge)
    ensures Admissible(db, project, batch + [e]) <==> Admissible(db, project, batch) && LastFits(db, project, batch, e)
  {
    var more := batch + [e];
    InBatch(batch, e);
    BatchArrowsAppend(batch, e);
    var arrows := ArrowsOf(db.edges) + BatchArrows(batch);
    assert ArrowsOf(db.edges) + BatchArrows(more) == arrows + {Arrow(e.from, e.to)};
    if Acyclic(arrows) {
      AcyclicWithNew(arrows, e.from, e.to);
    } else if Acyclic(arrows + {Arrow(e.from, e.to)}) {
      AcyclicSubset(arrows, arrows + {Arrow(e.from, e.to)});
      assert false;
    }
    PairsAppend(db.edges, batch, e);
  }

  lemma PairsAppend(edges: seq<Edge>, batch: seq<NewEdge>, e: NewEdge)
    ensures DistinctTriples(batch + [e]) <==> DistinctTriples(batch) && forall x | x in batch :: TripleOf(x) != TripleOf(e)
    ensures FreeIds(edges, batch + [e]) <==>
      FreeIds(edges, batch) && (forall x | x in batch :: x.id != e.id) && (forall x | x in edges :: x.id != e.id)
    ensures FreshTriples(edges, batch + [e]) <==>
      FreshTriples(edges, batch) && forall x | x in edges :: EdgeTriple(x) != TripleOf(e)
  {
    InBatch(batch, e);
    DistinctAppend(batch, e);
    IdsAppend(edges, batch, e);
  }

  lemma DistinctAppend(batch: seq<NewEdge>, e: NewEdge)
    ensures DistinctTriples(batch + [e]) <==> DistinctTriples(batch) && forall x | x in batch :: TripleOf(x) != TripleOf(e)
  {
    var more := batch + [e];
    if DistinctTriples(more) {
      forall i, j | 0 <= i < j < |batch| ensures TripleOf(batch[i]) != TripleOf(batch[j]) {
        assert more[i] == batch[i] && more[j] == batch[j];
      }
      forall x | x in batch ensures TripleOf(x) != TripleOf(e) {
        var i :| 0 <= i < |batch| && batch[i] == x;
        assert more[i] == x && more[|batch|] == e;
      }
    }
  }

  lemma IdsAppend(edges: seq<Edge>, batch: seq<NewEdge>, e: NewEdge)
    ensures FreeIds(edges, batch + [e]) <==>
      FreeIds(edges, batch) && (forall x | x in batch :: x.id != e.id) && (forall x | x in edges :: x.id != e.id)
  {
    var more := batch + [e];
    InBatch(batch, e);
    if FreeIds(edges, more) {
      forall i, j | 0 <= i < j < |batch| ensures batch[i].id != batch[j].id {
        assert more[i] == batch[i] && more[j] == batch[j];
      }
      forall x | x in batch ensures x.id != e.id {
        var i :| 0 <= i < |batch| && batch[i] == x;
        assert more[i] == x && more[|batch|] == e;
      }
      forall y, x | y in batch && x in edges ensures y.id != x.id { assert y in more; }
      forall x | x in edges ensures x.id != e.id { assert e in more; }
    }
  }

  // ---- Main results ----

  /** A batch is accepted if and only if it is admissible, and then its rows are what is added. */
  lemma {:induction false} AcceptedIffAdmissible(db: Db, project: ProjectId, batch: seq<NewEdge>)
    requires project in db.projects && GraphOk(db.nodes, db.edges)
    ensures InsertEdges(db, project, batch).Ok? <==> Admissible(db, project, batch)
    ensures InsertEdges(db, project, batch).Ok? ==>
      InsertEdges(db, project, batch).value == db.(edges := db.edges + Rows(project, batch))
    decreases |batch|
  {
    if batch == [] {
      assert BatchArrows(batch) == {} && ArrowsOf(db.edges) + {} == ArrowsOf(db.edges);
      assert db.edges + Rows(project, batch) == db.edges;
    } else {
      var init, e := batch[..|batch| - 1], batch[|batch| - 1];
      assert batch == init + [e];
      AcceptedIffAdmissible(db, project, init);
      AdmissibleAppend(db, project, init, e);
      LastFitsIsAccepted(db, project, init, e);
      assert db.edges + Rows(project, init) + [RowOf(project, e)] == db.edges + Rows(project, batch);
    }
  }

  predicate IsReordering(a: seq<NewEdge>, b: seq<NewEdge>) { multiset(a) == multiset(b) }

  lemma SameMembers(a: seq<NewEdge>, b: seq<NewEdge>)
    requires IsReordering(a, b)
    ensures forall e :: e in a <==> e in b
  {
    forall e ensures e in a <==> e in b {
      assert e in a <==> e in multiset(a);
      assert e in b <==> e in multiset(b);
    }
  }

  function AllBut(batch: seq<NewEdge>, i: nat): seq<NewEdge>
    requires i < |batch|
  {
    batch[..i] + batch[i + 1..]
  }

  lemma RemoveOne(a: seq<NewEdge>, i: nat, init: seq<NewEdge>)
    requires i < |a| && multiset(a) == multiset(init + [a[i]])
    ensures IsReordering(AllBut(a, i), init)
  {
    assert a == a[..i] + [a[i]] + a[i + 1..];
    assert multiset(AllBut(a, i)) == multiset(a) - multiset{a[i]};
  }

  /** Pairwise difference does not depend on order. */
  lemma {:induction false} DistinctReordered(edges: seq<Edge>, a: seq<NewEdge>, b: seq<NewEdge>)
    requires IsReordering(a, b) && DistinctTriples(a) && FreeIds(edges, a)
    ensures DistinctTriples(b) && FreeIds(edges, b)
    decreases |b|
  {
    if b != [] {
      var init, e := b[..|b| - 1], b[|b| - 1];
      assert b == init + [e];
      SameMembers(a, b);
      assert e in b && e in a;
      var i :| 0 <= i < |a| && a[i] == e;
      RemoveOne(a, i, init);
      OthersDiffer(edges, a, i);
      DistinctReordered(edges, AllBut(a, i), init);
      LastDiffers(edges, AllBut(a, i), init, e);
    }
  }

  lemma LastDiffers(edges: seq<Edge>, rest: seq<NewEdge>, init: seq<NewEdge>, e: NewEdge)
    requires IsReordering(rest, init) && DistinctTriples(init) && FreeIds(edges, init)
    requires forall x | x in rest :: TripleOf(x) != TripleOf(e) && x.id != e.id
    requires forall x | x in edges :: x.id != e.id
    ensures DistinctTriples(init + [e]) && FreeIds(edges, init + [e])
  {
    SameMembers(rest, init);
    DistinctAppend(init, e);
    IdsAppend(edges, init, e);
  }

  lemma OthersDiffer(edges: seq<Edge>, a: seq<NewEdge>, i: nat)
    requires i < |a| && DistinctTriples(a) && FreeIds(edges, a)
    ensures DistinctTriples(AllBut(a, i)) && FreeIds(edges, AllBut(a, i))
    ensures forall x | x in AllBut(a, i) :: TripleOf(x) != TripleOf(a[i]) && x.id != a[i].id
    ensures forall x | x in edges :: x.id != a[i].id
  {
    var rest := AllBut(a, i);
    forall k | 0 <= k < |rest| ensures rest[k] == a[if k < i then k else k + 1] {}
    forall x | x in rest ensures x in a && TripleOf(x) != TripleOf(a[i]) && x.id != a[i].id {
      var k :| 0 <= k < |rest| && rest[k] == x;
      assert rest[k] == a[if k < i then k else k + 1];
    }
    forall k, l | 0 <= k < l < |rest| ensures TripleOf(rest[k]) != TripleOf(rest[l]) && rest[k].id != rest[l].id {
      assert rest[k] == a[if k < i then k else k + 1] && rest[l] == a[if l < i then l else l + 1];
    }
    assert a[i] in a;
  }

  /** Acceptance does not depend on the order of emission. */
  lemma OrderDoesNotMatter(db: Db, project: ProjectId, a: seq<NewEdge>, b: seq<NewEdge>)
    requires project in db.projects && GraphOk(db.nodes, db.edges)
    requires IsReordering(a, b)
    ensures InsertEdges(db, project, a).Ok? <==> InsertEdges(db, project, b).Ok?
  {
    AcceptedIffAdmissible(db, project, a);
    AcceptedIffAdmissible(db, project, b);
    if Admissible(db, project, a) {
      AdmissibleReordered(db, project, a, b);
    }
    if Admissible(db, project, b) {
      AdmissibleReordered(db, project, b, a);
    }
  }

  lemma AdmissibleReordered(db: Db, project: ProjectId, a: seq<NewEdge>, b: seq<NewEdge>)
    requires IsReordering(a, b) && Admissible(db, project, a)
    ensures Admissible(db, project, b)
  {
    SameMembers(a, b);
    DistinctReordered(db.edges, a, b);
    assert BatchArrows(a) == BatchArrows(b);
  }
}
