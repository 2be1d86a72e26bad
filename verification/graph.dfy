/** The knowledge graph both Cytoscape builders produce
    (src/components/CTA/cytoscape.ts, src/components/explore/cytoscape.ts):
    entities and relations in insertion order, with at most one entity per
    id and one relation per (source, target) pair. */
module KnowledgeGraph {
  const AttributeKind := "attribute"

  datatype Entity = Entity(id: string, caption: string, kind: string)
  datatype Relation = Relation(source: string, target: string, kind: string)
  datatype Graph = Graph(entities: seq<Entity>, relations: seq<Relation>)

  const Empty := Graph([], [])

  predicate HasEntity(g: Graph, id: string) {
    exists e :: e in g.entities && e.id == id
  }

  predicate HasRelation(g: Graph, source: string, target: string) {
    exists r :: r in g.relations && r.source == source && r.target == target
  }

  /** What the builders keep: distinct entity ids, one relation per pair,
      and every relation between two entities. */
  predicate Valid(g: Graph) {
    && (forall i, j :: 0 <= i < j < |g.entities| ==> g.entities[i].id != g.entities[j].id)
    && (forall i, j :: 0 <= i < j < |g.relations| ==>
          g.relations[i].source != g.relations[j].source ||
          g.relations[i].target != g.relations[j].target)
    && (forall r :: r in g.relations ==> HasEntity(g, r.source) && HasEntity(g, r.target))
  }

  /** `h` is `g` with entities and relations appended. */
  predicate Grows(g: Graph, h: Graph) {
    g.entities <= h.entities && g.relations <= h.relations
  }

  lemma GrowsKeeps(g: Graph, h: Graph)
    requires Grows(g, h)
    ensures forall id :: HasEntity(g, id) ==> HasEntity(h, id)
    ensures forall s, t :: HasRelation(g, s, t) ==> HasRelation(h, s, t)
    ensures forall r :: r in g.relations ==> r in h.relations
  {
    assert forall e :: e in g.entities ==> e in h.entities by {
      forall e | e in g.entities ensures e in h.entities {
        var i :| 0 <= i < |g.entities| && g.entities[i] == e;
        assert h.entities[i] == e;
      }
    }
    assert forall r :: r in g.relations ==> r in h.relations by {
      forall r | r in g.relations ensures r in h.relations {
        var i :| 0 <= i < |g.relations| && g.relations[i] == r;
        assert h.relations[i] == r;
      }
    }
  }

  /** The find-then-push on entities: `e` is appended unless its id is
      already present. */
  function AddEntity(g: Graph, e: Entity): (r: Graph)
    ensures HasEntity(r, e.id)
    ensures HasEntity(g, e.id) ==> r == g
    ensures !HasEntity(g, e.id) ==> r.entities == g.entities + [e]
    ensures forall id :: HasEntity(r, id) <==> HasEntity(g, id) || id == e.id
    ensures r.relations == g.relations && Grows(g, r)
    ensures Valid(g) ==> Valid(r)
  {
    if HasEntity(g, e.id) then g
    else
      var r := Graph(g.entities + [e], g.relations);
      assert r.entities[|g.entities|] == e;
      assert forall x :: x in r.entities <==> x in g.entities || x == e;
      r
  }

  /** The find-then-push on relations: `rel` is appended unless a relation
      with the same source and target is already present, whose type is
      then kept. */
  function AddRelation(g: Graph, rel: Relation): (r: Graph)
    ensures HasRelation(r, rel.source, rel.target)
    ensures HasRelation(g, rel.source, rel.target) ==> r == g
    ensures forall s, t :: HasRelation(r, s, t) <==>
      HasRelation(g, s, t) || (s == rel.source && t == rel.target)
    ensures forall x :: x in r.relations ==> x in g.relations || x == rel
    ensures r.entities == g.entities && Grows(g, r)
    ensures Valid(g) && HasEntity(g, rel.source) && HasEntity(g, rel.target) ==> Valid(r)
  {
    if HasRelation(g, rel.source, rel.target) then g
    else
      var r := Graph(g.entities, g.relations + [rel]);
      assert r.relations[|g.relations|] == rel;
      assert forall x :: x in r.relations <==> x in g.relations || x == rel;
      r
  }

  /** One edge of a builder: the target becomes an attribute entity labelled
      `caption` (cytoscape.ts's `label`) if new, and the pair becomes a relation of type `kind` if new. */
  function Link(g: Graph, source: string, target: string, caption: string, kind: string): (r: Graph)
    ensures HasEntity(r, target) && HasRelation(r, source, target)
    ensures HasEntity(g, target) && HasRelation(g, source, target) ==> r == g
    ensures forall id :: HasEntity(r, id) <==> HasEntity(g, id) || id == target
    ensures forall s, t :: HasRelation(r, s, t) <==> HasRelation(g, s, t) || (s == source && t == target)
    ensures forall x :: x in r.relations ==> x in g.relations || x == Relation(source, target, kind)
    ensures HasEntity(g, target) ==> r.entities == g.entities
    ensures !HasEntity(g, target) ==> r.entities == g.entities + [Entity(target, caption, AttributeKind)]
    ensures Grows(g, r)
    ensures Valid(g) && HasEntity(g, source) ==> Valid(r)
  {
    var g1 := AddEntity(g, Entity(target, caption, AttributeKind));
    var r := AddRelation(g1, Relation(source, target, kind));
    r
  }

  /** Every entity `h` holds beyond those of `g` is an attribute whose id is
      one of `ids`. */
  predicate NewAttributes(g: Graph, h: Graph, ids: set<string>) {
    forall x :: x in h.entities ==> x in g.entities || (x.kind == AttributeKind && x.id in ids)
  }

  /** Attributes added in two steps are added by the two steps together. */
  lemma NewAttributesChain(g: Graph, h: Graph, k: Graph, a: set<string>, b: set<string>)
    requires NewAttributes(g, h, a) && NewAttributes(h, k, b)
    ensures NewAttributes(g, k, a + b)
  {
  }

  lemma InPrefix<T>(a: seq<T>, b: seq<T>, x: T)
    requires a <= b && x in a
    ensures x in b
  {
    var i :| 0 <= i < |a| && a[i] == x;
    assert b[i] == x;
  }
}
