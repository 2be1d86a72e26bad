/** The graph of people and what they link to, built from person documents
    (src/components/CTA/cytoscape.ts). */
module PersonGraph {
  import opened Wrappers
  import opened KnowledgeGraph

  const PersonPrefix := "Person/"
  const PersonKind := "person"
  const VouchesFor := "vouches_for"
  const LinkedIn := "LI"
  /** The link fields visited for every person, in order. */
  const LinkTypes := [VouchesFor, LinkedIn]

  /** A link field after the builder's attempt to JSON-decode it: missing,
      a list whose elements may be undefined, or one text value together
      with the field as stored (`raw`), which labels a new scalar entity. */
  datatype LinkValue = Undefined | Many(items: seq<Option<string>>) | One(text: string, raw: string)

  datatype PersonDoc = PersonDoc(id: string, name: string, vouchesFor: LinkValue, li: LinkValue)

  function PersonId(doc: PersonDoc): (pid: string)
    ensures |PersonPrefix| <= |pid| && pid[..|PersonPrefix|] == PersonPrefix
  {
    PersonPrefix + doc.id
  }

  /** `document[link]`: the field a link type names. */
  function FieldOf(doc: PersonDoc, link: string): LinkValue {
    if link == VouchesFor then doc.vouchesFor
    else if link == LinkedIn then doc.li
    else Undefined
  }

  /** `s.replace(/^"|"$/g, '')`: one double quote removed at each end. */
  function StripQuotes(s: string): (r: string)
    ensures var a := if s != "" && s[0] == '"' then 1 else 0;
      a + |r| <= |s| <= a + |r| + 1 && r == s[a..a + |r|]
    ensures s == "" || (s[0] != '"' && s[|s| - 1] != '"') ==> r == s
  {
    var t := if s != "" && s[0] == '"' then s[1..] else s;
    var r := if t != "" && t[|t| - 1] == '"' then t[..|t| - 1] else t;
    r
  }

  /** Quoting a text and stripping the quotes gives the text back. */
  lemma StripQuoted(t: string)
    ensures StripQuotes("\"" + t + "\"") == t
  {
    var s := "\"" + t + "\"";
    assert s[1..] == t + "\"";
    assert (t + "\"")[..|t|] == t;
  }

  // ---------------------------------------------------------------------
  // The ids a field contributes

  /** The ids an element list contributes: defined elements whose text is
      not empty once the quotes are stripped. */
  function ItemTargets(items: seq<Option<string>>): set<string> {
    set x | x in items && x.Some? && StripQuotes(x.value) != "" :: StripQuotes(x.value)
  }

  /** The ids a field contributes. */
  function Targets(v: LinkValue): (ts: set<string>)
    ensures "" !in ts
  {
    match v
    case Undefined => {}
    case Many(items) => ItemTargets(items)
    case One(text, _) => if StripQuotes(text) != "" then {StripQuotes(text)} else {}
  }

  /** A list holding one value and the value itself contribute the same id. */
  lemma OneAsMany(v: string)
    ensures Targets(Many([Some(v)])) == Targets(One(v, v))
  {
    assert forall x :: x in [Some(v)] <==> x == Some(v);
  }

  // ---------------------------------------------------------------------
  // The builder, as specification functions

  /** One list element: skipped when undefined or empty once stripped;
      otherwise linked, labelled with the element as stored. */
  function LinkItem(g: Graph, source: string, item: Option<string>, kind: string): Graph {
    match item
    case None => g
    case Some(v) =>
      var id := StripQuotes(v);
      if id != "" then Link(g, source, id, v, kind) else g
  }

  /** The elements of a list, in order. */
  function LinkItems(g: Graph, source: string, items: seq<Option<string>>, kind: string): (r: Graph)
    ensures Grows(g, r)
    ensures forall id :: HasEntity(r, id) <==> HasEntity(g, id) || id in ItemTargets(items)
    ensures forall s, t :: HasRelation(r, s, t) <==>
      HasRelation(g, s, t) || (s == source && t in ItemTargets(items))
    ensures forall x :: x in r.relations ==> x in g.relations || (x.source == source && x.kind == kind)
    ensures Valid(g) && HasEntity(g, source) ==> Valid(r)
  {
    if items == [] then g
    else
      var init := items[..|items| - 1];
      var last := items[|items| - 1];
      var h := LinkItems(g, source, init, kind);
      assert items == init + [last];
      assert forall x :: x in items <==> x in init || x == last;
      assert ItemTargets(items) == ItemTargets(init) +
        (if last.Some? && StripQuotes(last.value) != "" then {StripQuotes(last.value)} else {});
      GrowsKeeps(g, h);
      var r := LinkItem(h, source, last, kind);
      r
  }

  /** The scalar branch as written: the emptiness test comes before the
      quotes are stripped, so a field holding a lone `"` yields an entity
      with the empty id. */
  function ScalarLinkAsWritten(g: Graph, source: string, text: string, raw: string, kind: string): Graph {
    if text != "" then Link(g, source, StripQuotes(text), raw, kind) else g
  }

  lemma ScalarLinkAsWrittenAddsEmptyId(g: Graph, source: string)
    ensures HasEntity(ScalarLinkAsWritten(g, source, "\"", "\"", VouchesFor), "")
  {
    assert StripQuotes("\"") == "";
  }

  /** The scalar branch with the test after stripping, as the list branch
      does it. */
  function ScalarLink(g: Graph, source: string, text: string, raw: string, kind: string): Graph {
    var id := StripQuotes(text);
    if id != "" then Link(g, source, id, raw, kind) else g
  }

  /** One field of a person. */
  function LinkField(g: Graph, source: string, v: LinkValue, kind: string): (r: Graph)
    ensures Grows(g, r)
    ensures forall id :: HasEntity(r, id) <==> HasEntity(g, id) || id in Targets(v)
    ensures forall s, t :: HasRelation(r, s, t) <==> HasRelation(g, s, t) || (s == source && t in Targets(v))
    ensures forall x :: x in r.relations ==> x in g.relations || (x.source == source && x.kind == kind)
    ensures Valid(g) && HasEntity(g, source) ==> Valid(r)
  {
    match v
    case Undefined => g
    case Many(items) => LinkItems(g, source, items, kind)
    case One(text, raw) => ScalarLink(g, source, text, raw, kind)
  }

  /** The first `k` link types of a person. */
  function LinkFields(g: Graph, doc: PersonDoc, k: nat): (r: Graph)
    requires k <= |LinkTypes|
    ensures Grows(g, r)
    ensures forall id :: HasEntity(r, id) <==> (
      || HasEntity(g, id)
      || exists i :: 0 <= i < k && id in Targets(FieldOf(doc, LinkTypes[i])))
    ensures forall s, t :: HasRelation(r, s, t) <==> (
      || HasRelation(g, s, t)
      || (s == PersonId(doc) && exists i :: 0 <= i < k && t in Targets(FieldOf(doc, LinkTypes[i]))))
    ensures forall x :: x in r.relations ==> (
      || x in g.relations
      || (x.source == PersonId(doc) && x.kind in LinkTypes[..k]))
    ensures Valid(g) && HasEntity(g, PersonId(doc)) ==> Valid(r)
  {
    if k == 0 then g
    else
      var h := LinkFields(g, doc, k - 1);
      GrowsKeeps(g, h);
      var r := LinkField(h, PersonId(doc), FieldOf(doc, LinkTypes[k - 1]), LinkTypes[k - 1]);
      assert LinkTypes[..k] == LinkTypes[..k - 1] + [LinkTypes[k - 1]];
      r
  }

  /** Everything a person contributes: the person entity, then both link
      fields. */
  function AddPerson(g: Graph, doc: PersonDoc): Graph {
    LinkFields(AddEntity(g, Entity(PersonId(doc), doc.name, PersonKind)), doc, |LinkTypes|)
  }

  /** An id the documents mention: a person's id or a link target. */
  predicate Mentioned(docs: seq<PersonDoc>, id: string) {
    exists d :: d in docs && MentionedBy(d, id)
  }

  /** A person of the documents links to `target`. */
  predicate Linked(docs: seq<PersonDoc>, source: string, target: string) {
    exists d :: d in docs && LinkedBy(d, source, target)
  }

  lemma AddPersonFacts(g: Graph, doc: PersonDoc)
    ensures var r := AddPerson(g, doc);
      && Grows(g, r)
      && (forall id :: HasEntity(r, id) <==> (
            || HasEntity(g, id) || id == PersonId(doc)
            || id in Targets(doc.vouchesFor) || id in Targets(doc.li)))
      && (forall s, t :: HasRelation(r, s, t) <==> (
            || HasRelation(g, s, t)
            || (s == PersonId(doc) && (t in Targets(doc.vouchesFor) || t in Targets(doc.li)))))
      && (forall x :: x in r.relations ==> (
            || x in g.relations
            || (x.source == PersonId(doc) && x.kind in LinkTypes)))
      && (Valid(g) ==> Valid(r))
  {
    var g1 := AddEntity(g, Entity(PersonId(doc), doc.name, PersonKind));
    var r := LinkFields(g1, doc, |LinkTypes|);
    GrowsKeeps(g1, r);
    assert LinkTypes[..|LinkTypes|] == LinkTypes;
    BothFields(doc);
  }

  /** The targets of the link types are those of the two link fields. */
  lemma BothFields(doc: PersonDoc)
    ensures forall id :: (exists i :: 0 <= i < |LinkTypes| && id in Targets(FieldOf(doc, LinkTypes[i]))) <==>
      id in Targets(doc.vouchesFor) || id in Targets(doc.li)
  {
    assert FieldOf(doc, LinkTypes[0]) == doc.vouchesFor;
    assert FieldOf(doc, LinkTypes[1]) == doc.li;
  }

  /** The relations a person adds start at that person and carry a link type. */
  lemma AddPersonKinds(g: Graph, doc: PersonDoc)
    ensures forall x :: x in AddPerson(g, doc).relations ==>
      x in g.relations || (x.source == PersonId(doc) && x.kind in LinkTypes)
  {
    assert LinkTypes[..|LinkTypes|] == LinkTypes;
  }

  /** `generateKnowledgeGraph` on a list of person documents. */
  function PersonGraph(docs: seq<PersonDoc>): (g: Graph)
    ensures Valid(g)
  {
    if docs == [] then Empty
    else
      var h := PersonGraph(docs[..|docs| - 1]);
      AddPersonFacts(h, docs[|docs| - 1]);
      AddPerson(h, docs[|docs| - 1])
  }

  /** What a person document contributes to `Mentioned` and `Linked`. */
  predicate MentionedBy(d: PersonDoc, id: string) {
    id == PersonId(d) || id in Targets(d.vouchesFor) || id in Targets(d.li)
  }

  predicate LinkedBy(d: PersonDoc, source: string, target: string) {
    source == PersonId(d) && (target in Targets(d.vouchesFor) || target in Targets(d.li))
  }

  lemma Snoc(docs: seq<PersonDoc>)
    requires docs != []
    ensures var init, last := docs[..|docs| - 1], docs[|docs| - 1];
      && (forall id :: Mentioned(docs, id) <==> Mentioned(init, id) || MentionedBy(last, id))
      && (forall s, t :: Linked(docs, s, t) <==> Linked(init, s, t) || LinkedBy(last, s, t))
  {
    var init, last := docs[..|docs| - 1], docs[|docs| - 1];
    assert docs == init + [last];
    assert forall d :: d in docs <==> d in init || d == last;
  }

  /** The entities are exactly the persons and their link targets. */
  lemma {:induction false} PersonGraphEntities(docs: seq<PersonDoc>)
    ensures forall id :: HasEntity(PersonGraph(docs), id) <==> Mentioned(docs, id)
  {
    if docs != [] {
      var init, last := docs[..|docs| - 1], docs[|docs| - 1];
      PersonGraphEntities(init);
      AddPersonFacts(PersonGraph(init), last);
      Snoc(docs);
    }
  }

  /** There is a relation from a person to every target of their links, and
      no other. */
  lemma {:induction false} PersonGraphRelations(docs: seq<PersonDoc>)
    ensures forall s, t :: HasRelation(PersonGraph(docs), s, t) <==> Linked(docs, s, t)
  {
    if docs != [] {
      var init, last := docs[..|docs| - 1], docs[|docs| - 1];
      PersonGraphRelations(init);
      AddPersonFacts(PersonGraph(init), last);
      Snoc(docs);
    }
  }

  /** Every relation starts at a person and has a link type as its type. */
  lemma {:induction false} PersonGraphKinds(docs: seq<PersonDoc>)
    ensures forall x :: x in PersonGraph(docs).relations ==>
      x.kind in LinkTypes && exists d :: d in docs && x.source == PersonId(d)
  {
    if docs != [] {
      var init, last := docs[..|docs| - 1], docs[|docs| - 1];
      PersonGraphKinds(init);
      AddPersonKinds(PersonGraph(init), last);
      assert docs == init + [last];
      forall x | x in PersonGraph(docs).relations
        ensures x.kind in LinkTypes && exists d :: d in docs && x.source == PersonId(d)
      {
        if x in PersonGraph(init).relations {
          var d :| d in init && x.source == PersonId(d);
          assert d in docs;
        } else {
          assert last in docs;
        }
      }
    }
  }

  /** No entity has the empty id. */
  lemma NoEmptyId(docs: seq<PersonDoc>)
    ensures !HasEntity(PersonGraph(docs), "")
  {
    PersonGraphEntities(docs);
  }

  /** Each person appears once, however many documents name them. */
  lemma PersonOnce(docs: seq<PersonDoc>, d: PersonDoc)
    requires d in docs
    ensures exists i :: 0 <= i < |PersonGraph(docs).entities| && PersonGraph(docs).entities[i].id == PersonId(d)
    ensures forall i, j :: 0 <= i < j < |PersonGraph(docs).entities| ==>
      PersonGraph(docs).entities[i].id != PersonGraph(docs).entities[j].id
  {
    var g := PersonGraph(docs);
    PersonGraphEntities(docs);
    assert Mentioned(docs, PersonId(d));
    var e :| e in g.entities && e.id == PersonId(d);
  }

  // ---------------------------------------------------------------------
  // Entity types and labels

  /** The ids of a list with one more element. */
  lemma ItemTargetsSnoc(init: seq<Option<string>>, last: Option<string>)
    ensures ItemTargets(init + [last]) == ItemTargets(init) +
      (if last.Some? && StripQuotes(last.value) != "" then {StripQuotes(last.value)} else {})
  {
    assert forall x :: x in init + [last] <==> x in init || x == last;
  }

  /** The new entities of a list field are attributes of its targets. */
  lemma {:induction false} LinkItemsAttributes(g: Graph, source: string, items: seq<Option<string>>, kind: string)
    ensures NewAttributes(g, LinkItems(g, source, items, kind), ItemTargets(items))
  {
    if items != [] {
      var init, last := items[..|items| - 1], items[|items| - 1];
      LinkItemsAttributes(g, source, init, kind);
      var h := LinkItems(g, source, init, kind);
      assert LinkItems(g, source, items, kind) == LinkItem(h, source, last, kind);
      assert items == init + [last];
      ItemTargetsSnoc(init, last);
      if last.Some? && StripQuotes(last.value) != "" {
        NewAttributesChain(g, h, LinkItem(h, source, last, kind), ItemTargets(init), {StripQuotes(last.value)});
      }
    }
  }

  /** The new entities of a field are attributes of its targets. */
  lemma LinkFieldAttributes(g: Graph, source: string, v: LinkValue, kind: string)
    ensures NewAttributes(g, LinkField(g, source, v, kind), Targets(v))
  {
    if v.Many? {
      LinkItemsAttributes(g, source, v.items, kind);
    }
  }

  /** An entity a person document can contribute: the person, typed `person`
      and labelled with their name, or an attribute for one of their link
      targets. */
  predicate EntityFrom(d: PersonDoc, x: Entity) {
    || x == Entity(PersonId(d), d.name, PersonKind)
    || (x.kind == AttributeKind && (x.id in Targets(d.vouchesFor) || x.id in Targets(d.li)))
  }

  /** A person document adds its person entity, unless that id is already
      present (then the entity found first is kept, whatever its type), and
      attributes for its link targets; nothing else. */
  lemma AddPersonEntities(g: Graph, doc: PersonDoc)
    ensures forall x :: x in AddPerson(g, doc).entities ==> x in g.entities || EntityFrom(doc, x)
    ensures !HasEntity(g, PersonId(doc)) ==>
      Entity(PersonId(doc), doc.name, PersonKind) in AddPerson(g, doc).entities
  {
    var g1 := AddEntity(g, Entity(PersonId(doc), doc.name, PersonKind));
    var g2 := LinkFields(g1, doc, 1);
    var r := LinkFields(g1, doc, 2);
    assert FieldOf(doc, LinkTypes[0]) == doc.vouchesFor;
    assert FieldOf(doc, LinkTypes[1]) == doc.li;
    assert LinkFields(g1, doc, 0) == g1;
    LinkFieldAttributes(g1, PersonId(doc), doc.vouchesFor, VouchesFor);
    LinkFieldAttributes(g2, PersonId(doc), doc.li, LinkedIn);
    NewAttributesChain(g1, g2, r, Targets(doc.vouchesFor), Targets(doc.li));
    assert !HasEntity(g, PersonId(doc)) ==> Entity(PersonId(doc), doc.name, PersonKind) in g1.entities;
    GrowsKeeps(g1, r);
  }

  /** Every entity of the graph is a person of the documents, typed `person`
      and labelled with a name a document gives, or an attribute for a link
      target of a document. */
  lemma {:induction false} PersonGraphLabels(docs: seq<PersonDoc>)
    ensures forall x :: x in PersonGraph(docs).entities ==> exists d :: d in docs && EntityFrom(d, x)
  {
    if docs != [] {
      var init, last := docs[..|docs| - 1], docs[|docs| - 1];
      PersonGraphLabels(init);
      AddPersonEntities(PersonGraph(init), last);
      assert docs == init + [last];
      forall x | x in PersonGraph(docs).entities
        ensures exists d :: d in docs && EntityFrom(d, x)
      {
        if x in PersonGraph(init).entities {
          var d :| d in init && EntityFrom(d, x);
          assert d in docs;
        } else {
          assert last in docs;
        }
      }
    }
  }

  /** The graph of a prefix of the documents is kept by the later ones. */
  lemma {:induction false} PersonGraphPrefix(docs: seq<PersonDoc>, k: nat)
    requires k <= |docs|
    ensures Grows(PersonGraph(docs[..k]), PersonGraph(docs))
    decreases |docs|
  {
    if k < |docs| {
      var init := docs[..|docs| - 1];
      assert docs[..k] == init[..k];
      PersonGraphPrefix(init, k);
      AddPersonFacts(PersonGraph(init), docs[|docs| - 1]);
    } else {
      assert docs[..k] == docs;
    }
  }

  /** A person no earlier document mentions is an entity typed `person` and
      labelled with the name of the first document about them. */
  lemma {:induction false} PersonLabelled(docs: seq<PersonDoc>, i: nat)
    requires i < |docs| && forall j :: 0 <= j < i ==> !MentionedBy(docs[j], PersonId(docs[i]))
    ensures Entity(PersonId(docs[i]), docs[i].name, PersonKind) in PersonGraph(docs).entities
  {
    PersonAddedAt(docs, i);
    KeptByLater(docs, i + 1, Entity(PersonId(docs[i]), docs[i].name, PersonKind));
  }

  lemma {:induction false} KeptByLater(docs: seq<PersonDoc>, k: nat, x: Entity)
    requires k <= |docs| && x in PersonGraph(docs[..k]).entities
    ensures x in PersonGraph(docs).entities
  {
    PersonGraphPrefix(docs, k);
    InPrefix(PersonGraph(docs[..k]).entities, PersonGraph(docs).entities, x);
  }

  lemma {:induction false} PersonAddedAt(docs: seq<PersonDoc>, i: nat)
    requires i < |docs| && forall j :: 0 <= j < i ==> !MentionedBy(docs[j], PersonId(docs[i]))
    ensures Entity(PersonId(docs[i]), docs[i].name, PersonKind) in PersonGraph(docs[..i + 1]).entities
  {
    assert !Mentioned(docs[..i], PersonId(docs[i])) by {
      forall d | d in docs[..i] ensures !MentionedBy(d, PersonId(docs[i])) {
        var j :| 0 <= j < i && docs[..i][j] == d;
        assert docs[j] == d;
      }
    }
    var prefix := docs[..i + 1];
    assert prefix[..i] == docs[..i] && prefix[i] == docs[i];
    assert PersonGraph(prefix) == AddPerson(PersonGraph(docs[..i]), docs[i]);
    assert !HasEntity(PersonGraph(docs[..i]), PersonId(docs[i])) by {
      PersonGraphEntities(docs[..i]);
    }
    AddPersonEntities(PersonGraph(docs[..i]), docs[i]);
  }

  /** A person whose id is already an entity (an attribute made for an
      earlier link to them, say) keeps that entity: its type and label stay,
      and no `person` entity is added for them. */
  lemma FoundFirstKept(g: Graph, doc: PersonDoc, x: Entity)
    requires Valid(g) && x in g.entities && x.id == PersonId(doc)
    ensures x in AddPerson(g, doc).entities
    ensures forall y :: y in AddPerson(g, doc).entities && y.id == PersonId(doc) ==> y == x
  {
    var r := AddPerson(g, doc);
    AddPersonFacts(g, doc);
    var i :| 0 <= i < |g.entities| && g.entities[i] == x;
    assert r.entities[i] == x;
    forall y | y in r.entities && y.id == PersonId(doc)
      ensures y == x
    {
      var j :| 0 <= j < |r.entities| && r.entities[j] == y;
      assert i == j;
    }
  }

  // ---------------------------------------------------------------------
  // The builder's loops, with the corrected scalar test of `ScalarLink`

  /** One link type's value of a person: the list branch visits the
      elements in order; the scalar branch is one step, testing the id
      after the quotes are stripped (`ScalarLinkAsWritten` tests before). */
  method AddLinkValue(g: Graph, personId: string, value: LinkValue, link: string) returns (r: Graph)
    ensures r == LinkField(g, personId, value, link)
  {
    r := g;
    match value {
      case Undefined =>
      case Many(items) =>
        for j := 0 to |items|
          invariant r == LinkItems(g, personId, items[..j], link)
        {
          assert items[..j + 1][..j] == items[..j];
          if items[j].None? {
            continue;
          }
          var linkId := StripQuotes(items[j].value);
          if linkId != "" {
            r := Link(r, personId, linkId, items[j].value, link);
          }
        }
        assert items[..|items|] == items;
      case One(text, raw) =>
        var linkId := StripQuotes(text);
        if linkId != "" {
          r := Link(r, personId, linkId, raw, link);
        }
    }
  }

  /** `generateKnowledgeGraph`: for every document, the person entity, then
      each link type's value. */
  method GenerateKnowledgeGraph(docs: seq<PersonDoc>) returns (g: Graph)
    ensures g == PersonGraph(docs)
    ensures Valid(g)
  {
    g := Empty;
    for i := 0 to |docs|
      invariant g == PersonGraph(docs[..i])
    {
      assert docs[..i + 1][..i] == docs[..i];
      var doc := docs[i];
      var personId := PersonPrefix + doc.id;
      g := AddEntity(g, Entity(personId, doc.name, PersonKind));
      ghost var start := g;
      for k := 0 to |LinkTypes|
        invariant g == LinkFields(start, doc, k)
      {
        g := AddLinkValue(g, personId, FieldOf(doc, LinkTypes[k]), LinkTypes[k]);
      }
    }
    assert docs[..|docs|] == docs;
  }
}
