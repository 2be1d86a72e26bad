/** The graph of organisations and their attributes, built from the
    organisation documents fetched for a list of ids
    (src/components/explore/cytoscape.ts). */
module OrgGraph {
  import opened Wrappers
  import opened KnowledgeGraph

  const OrgPrefix := "Organization/"
  const OrgKind := "organization"
  const AssigneeSuffix := " assignee"
  const AssigneeType := "assignee"
  const EcosystemType := "blockchain ecosystem"
  const TopicType := "topic"
  const Web3Type := "web3"
  /** The relation types, in the order the fields are visited. */
  const RelationTypes := [AssigneeType, EcosystemType, TopicType, Web3Type]

  /** A multi-valued field: missing, one value, or a list whose elements may
      be undefined. */
  datatype FieldValue = Undefined | One(value: string) | Many(items: seq<Option<string>>)

  datatype OrgDoc = OrgDoc(
    name: string,
    assignee: Option<string>,
    blockchainEcosystem: FieldValue,
    topic: FieldValue,
    web3: FieldValue)

  function OrgId(id: string): string {
    OrgPrefix + id
  }

  // ---------------------------------------------------------------------
  // The ids a document contributes

  function ItemTargets(items: seq<Option<string>>): set<string> {
    set x | x in items && x.Some? && x.value != "" :: x.value
  }

  function FieldTargets(v: FieldValue): (ts: set<string>)
    ensures "" !in ts
  {
    match v
    case Undefined => {}
    case One(x) => if x != "" then {x} else {}
    case Many(items) => ItemTargets(items)
  }

  function AssigneeTargets(a: Option<string>): (ts: set<string>)
    ensures "" !in ts
  {
    if a.Some? && a.value != "" then {a.value} else {}
  }

  /** Every attribute id a document links its organisation to. */
  function DocTargets(doc: OrgDoc): (ts: set<string>)
    ensures "" !in ts
  {
    AssigneeTargets(doc.assignee) + FieldTargets(doc.blockchainEcosystem) +
    FieldTargets(doc.topic) + FieldTargets(doc.web3)
  }

  // ---------------------------------------------------------------------
  // The builder, as specification functions

  /** One list element: skipped when undefined or empty, otherwise linked
      and labelled with itself. */
  function LinkItem(g: Graph, source: string, item: Option<string>, kind: string): Graph {
    if item.Some? && item.value != "" then Link(g, source, item.value, item.value, kind) else g
  }

  function LinkItems(g: Graph, source: string, items: seq<Option<string>>, kind: string): (r: Graph)
    ensures Grows(g, r)
    ensures forall id :: HasEntity(r, id) <==> HasEntity(g, id) || id in ItemTargets(items)
    ensures forall s, t :: HasRelation(r, s, t) <==>
      HasRelation(g, s, t) || (s == source && t in ItemTargets(items))
    ensures forall x :: x in r.relations ==> x in g.relations || (x.source == source && x.kind == kind)
    ensures Valid(g) && HasEntity(g, source) ==> Valid(r)
  {
    if items == [] then g
    else
      var init := items[..|items| - 1];
      var last := items[|items| - 1];
      var h := LinkItems(g, source, init, kind);
      assert items == init + [last];
      assert forall x :: x in items <==> x in init || x == last;
      assert ItemTargets(items) == ItemTargets(init) +
        (if last.Some? && last.value != "" then {last.value} else {});
      GrowsKeeps(g, h);
      LinkItem(h, source, last, kind)
  }

  /** One field: the list branch element by element, the scalar branch as
      one step labelled with the field's value. */
  function LinkField(g: Graph, source: string, v: FieldValue, kind: string): (r: Graph)
    ensures Grows(g, r)
    ensures forall id :: HasEntity(r, id) <==> HasEntity(g, id) || id in FieldTargets(v)
    ensures forall s, t :: HasRelation(r, s, t) <==> HasRelation(g, s, t) || (s == source && t in FieldTargets(v))
    ensures forall x :: x in r.relations ==> x in g.relations || (x.source == source && x.kind == kind)
    ensures Valid(g) && HasEntity(g, source) ==> Valid(r)
  {
    match v
    case Undefined => g
    case One(x) => if x != "" then Link(g, source, x, x, kind) else g
    case Many(items) => LinkItems(g, source, items, kind)
  }

  /** A list holding one value builds the same graph as the value itself. */
  lemma OneAsMany(g: Graph, source: string, x: string, kind: string)
    ensures LinkField(g, source, Many([Some(x)]), kind) == LinkField(g, source, One(x), kind)
  {
    assert [Some(x)][..0] == [];
    assert LinkItems(g, source, [], kind) == g;
  }

  /** The assignee: a defined, non-empty value becomes an attribute labelled
      with the organisation's name and " assignee". */
  function LinkAssignee(g: Graph, source: string, doc: OrgDoc): (r: Graph)
    ensures Grows(g, r)
    ensures forall id :: HasEntity(r, id) <==> HasEntity(g, id) || id in AssigneeTargets(doc.assignee)
    ensures forall s, t :: HasRelation(r, s, t) <==>
      HasRelation(g, s, t) || (s == source && t in AssigneeTargets(doc.assignee))
    ensures forall x :: x in r.relations ==> x in g.relations || (x.source == source && x.kind == AssigneeType)
    ensures Valid(g) && HasEntity(g, source) ==> Valid(r)
    ensures doc.assignee.Some? && doc.assignee.value != "" && !HasEntity(g, doc.assignee.value) ==>
      Entity(doc.assignee.value, doc.name + AssigneeSuffix, AttributeKind) in r.entities
  {
    if doc.assignee.Some? && doc.assignee.value != "" then
      var a := doc.assignee.value;
      var g1 := AddEntity(g, Entity(a, doc.name + AssigneeSuffix, AttributeKind));
      assert !HasEntity(g, a) ==> g1.entities[|g.entities|] == Entity(a, doc.name + AssigneeSuffix, AttributeKind);
      AddRelation(g1, Relation(source, a, AssigneeType))
    else g
  }

  /** Everything one fetched document contributes: the organisation entity,
      then assignee, blockchain ecosystem, topic and web3, in that order. */
  function AddOrgDoc(g: Graph, orgId: string, doc: OrgDoc): Graph {
    var g1 := AddEntity(g, Entity(orgId, doc.name, OrgKind));
    var g2 := LinkAssignee(g1, orgId, doc);
    var g3 := LinkField(g2, orgId, doc.blockchainEcosystem, EcosystemType);
    var g4 := LinkField(g3, orgId, doc.topic, TopicType);
    LinkField(g4, orgId, doc.web3, Web3Type)
  }

  lemma AddOrgDocFacts(g: Graph, orgId: string, doc: OrgDoc)
    ensures var r := AddOrgDoc(g, orgId, doc);
      && Grows(g, r)
      && (forall id :: HasEntity(r, id) <==> (HasEntity(g, id) || id == orgId || id in DocTargets(doc)))
      && (forall s, t :: HasRelation(r, s, t) <==> (HasRelation(g, s, t) || (s == orgId && t in DocTargets(doc))))
      && (forall x :: x in r.relations ==> (x in g.relations || (x.source == orgId && x.kind in RelationTypes)))
      && (Valid(g) ==> Valid(r))
  {
    var g1 := AddEntity(g, Entity(orgId, doc.name, OrgKind));
    var g2 := LinkAssignee(g1, orgId, doc);
    var g3 := LinkField(g2, orgId, doc.blockchainEcosystem, EcosystemType);
    var g4 := LinkField(g3, orgId, doc.topic, TopicType);
    var r := LinkField(g4, orgId, doc.web3, Web3Type);
    GrowsKeeps(g1, g2);
    GrowsKeeps(g2, g3);
    GrowsKeeps(g3, g4);
    GrowsKeeps(g4, r);
  }

  /** All documents fetched for one id. */
  function AddOrgDocs(g: Graph, orgId: string, docs: seq<OrgDoc>): (r: Graph)
    ensures Valid(g) ==> Valid(r)
  {
    if docs == [] then g
    else
      var h := AddOrgDocs(g, orgId, docs[..|docs| - 1]);
      AddOrgDocFacts(h, orgId, docs[|docs| - 1]);
      AddOrgDoc(h, orgId, docs[|docs| - 1])
  }

  /** What one requested id contributes, given the documents fetched for it. */
  predicate MentionedIn(orgId: string, docs: seq<OrgDoc>, id: string) {
    (docs != [] && id == orgId) || exists d :: d in docs && id in DocTargets(d)
  }

  predicate LinkedIn(orgId: string, docs: seq<OrgDoc>, s: string, t: string) {
    s == orgId && exists d :: d in docs && t in DocTargets(d)
  }

  lemma {:induction false} AddOrgDocsFacts(g: Graph, orgId: string, docs: seq<OrgDoc>)
    ensures var r := AddOrgDocs(g, orgId, docs);
      && Grows(g, r)
      && (forall id :: HasEntity(r, id) <==> (HasEntity(g, id) || MentionedIn(orgId, docs, id)))
      && (forall s, t :: HasRelation(r, s, t) <==> (HasRelation(g, s, t) || LinkedIn(orgId, docs, s, t)))
      && (forall x :: x in r.relations ==> (x in g.relations || (x.source == orgId && x.kind in RelationTypes)))
  {
    if docs != [] {
      var init, last := docs[..|docs| - 1], docs[|docs| - 1];
      AddOrgDocsFacts(g, orgId, init);
      var h := AddOrgDocs(g, orgId, init);
      AddOrgDocFacts(h, orgId, last);
      GrowsKeeps(g, h);
      SnocDocs(orgId, docs);
    }
  }

  lemma SnocDocs(orgId: string, docs: seq<OrgDoc>)
    requires docs != []
    ensures var init, last := docs[..|docs| - 1], docs[|docs| - 1];
      && (forall id :: MentionedIn(orgId, docs, id) <==>
            (MentionedIn(orgId, init, id) || id == orgId || id in DocTargets(last)))
      && (forall s, t :: LinkedIn(orgId, docs, s, t) <==>
            (LinkedIn(orgId, init, s, t) || (s == orgId && t in DocTargets(last))))
  {
    var init, last := docs[..|docs| - 1], docs[|docs| - 1];
    assert docs == init + [last];
    assert forall d :: d in docs <==> d in init || d == last;
  }

  /** `generateKnowledgeGraph` for the ids `ids`, where `getDocument` is the
      database's answer for one organisation id. */
  function OrgGraph(ids: seq<string>, getDocument: string -> seq<OrgDoc>): (g: Graph)
    ensures Valid(g)
  {
    if ids == [] then Empty
    else
      var id := ids[|ids| - 1];
      AddOrgDocs(OrgGraph(ids[..|ids| - 1], getDocument), OrgId(id), getDocument(OrgId(id)))
  }

  predicate Mentioned(ids: seq<string>, getDocument: string -> seq<OrgDoc>, id: string) {
    exists i :: i in ids && MentionedIn(OrgId(i), getDocument(OrgId(i)), id)
  }

  predicate Linked(ids: seq<string>, getDocument: string -> seq<OrgDoc>, s: string, t: string) {
    exists i :: i in ids && LinkedIn(OrgId(i), getDocument(OrgId(i)), s, t)
  }

  lemma Snoc(ids: seq<string>, getDocument: string -> seq<OrgDoc>)
    requires ids != []
    ensures var init, last := ids[..|ids| - 1], ids[|ids| - 1];
      && (forall id :: Mentioned(ids, getDocument, id) <==>
            (Mentioned(init, getDocument, id) || MentionedIn(OrgId(last), getDocument(OrgId(last)), id)))
      && (forall s, t :: Linked(ids, getDocument, s, t) <==>
            (Linked(init, getDocument, s, t) || LinkedIn(OrgId(last), getDocument(OrgId(last)), s, t)))
  {
    var init, last := ids[..|ids| - 1], ids[|ids| - 1];
    assert ids == init + [last];
    assert forall i :: i in ids <==> i in init || i == last;
  }

  /** The entities are the organisations that were found and their
      attributes; an id the database does not know contributes nothing. */
  lemma {:induction false} OrgGraphEntities(ids: seq<string>, getDocument: string -> seq<OrgDoc>)
    ensures forall id :: HasEntity(OrgGraph(ids, getDocument), id) <==> Mentioned(ids, getDocument, id)
  {
    if ids != [] {
      var init, last := ids[..|ids| - 1], ids[|ids| - 1];
      OrgGraphEntities(init, getDocument);
      AddOrgDocsFacts(OrgGraph(init, getDocument), OrgId(last), getDocument(OrgId(last)));
      Snoc(ids, getDocument);
    }
  }

  /** Each found organisation is related to exactly its attributes. */
  lemma {:induction false} OrgGraphRelations(ids: seq<string>, getDocument: string -> seq<OrgDoc>)
    ensures forall s, t :: HasRelation(OrgGraph(ids, getDocument), s, t) <==> Linked(ids, getDocument, s, t)
  {
    if ids != [] {
      var init, last := ids[..|ids| - 1], ids[|ids| - 1];
      OrgGraphRelations(init, getDocument);
      AddOrgDocsFacts(OrgGraph(init, getDocument), OrgId(last), getDocument(OrgId(last)));
      Snoc(ids, getDocument);
    }
  }

  /** The relations the documents of one id add start at that id. */
  lemma AddOrgDocsKinds(g: Graph, orgId: string, docs: seq<OrgDoc>)
    ensures forall x :: x in AddOrgDocs(g, orgId, docs).relations ==>
      x in g.relations || (x.source == orgId && x.kind in RelationTypes)
  {
    AddOrgDocsFacts(g, orgId, docs);
  }

  /** Every relation starts at a requested organisation and has one of the
      four relation types. */
  lemma {:induction false} OrgGraphKinds(ids: seq<string>, getDocument: string -> seq<OrgDoc>)
    ensures forall x :: x in OrgGraph(ids, getDocument).relations ==>
      x.kind in RelationTypes && exists i :: i in ids && x.source == OrgId(i)
  {
    if ids != [] {
      var init, last := ids[..|ids| - 1], ids[|ids| - 1];
      OrgGraphKinds(init, getDocument);
      AddOrgDocsKinds(OrgGraph(init, getDocument), OrgId(last), getDocument(OrgId(last)));
      assert ids == init + [last];
      forall x | x in OrgGraph(ids, getDocument).relations
        ensures x.kind in RelationTypes && exists i :: i in ids && x.source == OrgId(i)
      {
        if x in OrgGraph(init, getDocument).relations {
          var i :| i in init && x.source == OrgId(i);
          assert i in ids;
        } else {
          assert last in ids;
        }
      }
    }
  }

  // ---------------------------------------------------------------------
  // Entity types and labels

  /** The new entities of a list field are attributes of its targets. */
  lemma {:induction false} LinkItemsAttributes(g: Graph, source: string, items: seq<Option<string>>, kind: string)
    ensures NewAttributes(g, LinkItems(g, source, items, kind), ItemTargets(items))
  {
    if items != [] {
      var init, last := items[..|items| - 1], items[|items| - 1];
      LinkItemsAttributes(g, source, init, kind);
      var h := LinkItems(g, source, init, kind);
      assert LinkItems(g, source, items, kind) == LinkItem(h, source, last, kind);
      if last.Some? && last.value != "" {
        assert ItemTargets(init) + {last.value} <= ItemTargets(items) by {
          assert items == init + [last];
        }
        NewAttributesChain(g, h, LinkItem(h, source, last, kind), ItemTargets(init), {last.value});
      } else {
        assert ItemTargets(init) <= ItemTargets(items) by {
          assert items == init + [last];
        }
      }
    }
  }

  /** The new entities of a field are attributes of its targets. */
  lemma {:induction false} LinkFieldAttributes(g: Graph, source: string, v: FieldValue, kind: string)
    ensures NewAttributes(g, LinkField(g, source, v, kind), FieldTargets(v))
  {
    if v.Many? {
      LinkItemsAttributes(g, source, v.items, kind);
    }
  }

  /** An entity an organisation document can contribute: the organisation,
      typed `organization` and labelled with the document's name, or an
      attribute for one of its targets. */
  predicate EntityFrom(orgId: string, d: OrgDoc, x: Entity) {
    || x == Entity(orgId, d.name, OrgKind)
    || (x.kind == AttributeKind && x.id in DocTargets(d))
  }

  /** The entity the assignee step adds is an attribute for the assignee. */
  lemma LinkAssigneeAttributes(g: Graph, orgId: string, doc: OrgDoc)
    ensures NewAttributes(g, LinkAssignee(g, orgId, doc), AssigneeTargets(doc.assignee))
  {
    if doc.assignee.Some? && doc.assignee.value != "" {
      var a := doc.assignee.value;
      var h := AddEntity(g, Entity(a, doc.name + AssigneeSuffix, AttributeKind));
      assert LinkAssignee(g, orgId, doc) == AddRelation(h, Relation(orgId, a, AssigneeType));
    }
  }

  /** The entities the three field steps add are attributes for their
      targets. */
  lemma {:induction false} FieldsAttributes(g: Graph, orgId: string, doc: OrgDoc)
    ensures NewAttributes(g, LinkField(LinkField(LinkField(g, orgId, doc.blockchainEcosystem, EcosystemType),
                                                 orgId, doc.topic, TopicType), orgId, doc.web3, Web3Type),
                          FieldTargets(doc.blockchainEcosystem) + FieldTargets(doc.topic) + FieldTargets(doc.web3))
  {
    var g3 := LinkField(g, orgId, doc.blockchainEcosystem, EcosystemType);
    var g4 := LinkField(g3, orgId, doc.topic, TopicType);
    var r := LinkField(g4, orgId, doc.web3, Web3Type);
    LinkFieldAttributes(g, orgId, doc.blockchainEcosystem, EcosystemType);
    LinkFieldAttributes(g3, orgId, doc.topic, TopicType);
    LinkFieldAttributes(g4, orgId, doc.web3, Web3Type);
    NewAttributesChain(g, g3, g4, FieldTargets(doc.blockchainEcosystem), FieldTargets(doc.topic));
    NewAttributesChain(g, g4, r, FieldTargets(doc.blockchainEcosystem) + FieldTargets(doc.topic),
                       FieldTargets(doc.web3));
  }

  /** A document adds its organisation entity, or nothing when the id is
      already present, and attributes for its targets; nothing else. */
  lemma {:induction false} AddOrgDocEntities(g: Graph, orgId: string, doc: OrgDoc)
    ensures forall x :: x in AddOrgDoc(g, orgId, doc).entities ==> x in g.entities || EntityFrom(orgId, doc, x)
  {
    var g1 := AddEntity(g, Entity(orgId, doc.name, OrgKind));
    var g2 := LinkAssignee(g1, orgId, doc);
    LinkAssigneeAttributes(g1, orgId, doc);
    FieldsAttributes(g2, orgId, doc);
    var fields := FieldTargets(doc.blockchainEcosystem) + FieldTargets(doc.topic) + FieldTargets(doc.web3);
    NewAttributesChain(g1, g2, AddOrgDoc(g, orgId, doc), AssigneeTargets(doc.assignee), fields);
    assert AssigneeTargets(doc.assignee) + fields <= DocTargets(doc);
    OrgOrAttributes(g, AddOrgDoc(g, orgId, doc), orgId, doc, AssigneeTargets(doc.assignee) + fields);
  }

  /** Adding the organisation entity and then only attributes for targets of
      the document leaves only entities the document can contribute. */
  lemma OrgOrAttributes(g: Graph, r: Graph, orgId: string, doc: OrgDoc, ids: set<string>)
    requires NewAttributes(AddEntity(g, Entity(orgId, doc.name, OrgKind)), r, ids)
    requires ids <= DocTargets(doc)
    ensures forall x :: x in r.entities ==> x in g.entities || EntityFrom(orgId, doc, x)
  {
  }

  /** A document whose organisation is new adds it, typed `organization` and
      labelled with the document's name. */
  lemma {:induction false} AddOrgDocAddsOrg(g: Graph, orgId: string, doc: OrgDoc)
    requires !HasEntity(g, orgId)
    ensures Entity(orgId, doc.name, OrgKind) in AddOrgDoc(g, orgId, doc).entities
  {
    var g1 := AddEntity(g, Entity(orgId, doc.name, OrgKind));
    var g2 := LinkAssignee(g1, orgId, doc);
    var g3 := LinkField(g2, orgId, doc.blockchainEcosystem, EcosystemType);
    var g4 := LinkField(g3, orgId, doc.topic, TopicType);
    assert Grows(g1, AddOrgDoc(g, orgId, doc));
    InPrefix(g1.entities, AddOrgDoc(g, orgId, doc).entities, Entity(orgId, doc.name, OrgKind));
  }

  /** The documents of one id add only their organisation entity and
      attributes for their targets. */
  lemma {:induction false} AddOrgDocsEntities(g: Graph, orgId: string, docs: seq<OrgDoc>)
    ensures forall x :: x in AddOrgDocs(g, orgId, docs).entities ==>
      x in g.entities || exists d :: d in docs && EntityFrom(orgId, d, x)
  {
    if docs != [] {
      var init, last := docs[..|docs| - 1], docs[|docs| - 1];
      AddOrgDocsEntities(g, orgId, init);
      var h := AddOrgDocs(g, orgId, init);
      AddOrgDocEntities(h, orgId, last);
      assert docs == init + [last];
      forall x | x in AddOrgDocs(g, orgId, docs).entities
        ensures x in g.entities || exists d :: d in docs && EntityFrom(orgId, d, x)
      {
        if x in h.entities {
          if x !in g.entities {
            var d :| d in init && EntityFrom(orgId, d, x);
            assert d in docs;
          }
        } else {
          assert last in docs;
        }
      }
    }
  }

  /** A new organisation is labelled with the name of the first document
      found for it; later documents find it and keep that label. */
  lemma {:induction false} OrgFirstName(g: Graph, orgId: string, docs: seq<OrgDoc>)
    requires docs != [] && !HasEntity(g, orgId)
    ensures Entity(orgId, docs[0].name, OrgKind) in AddOrgDocs(g, orgId, docs).entities
  {
    var init, last := docs[..|docs| - 1], docs[|docs| - 1];
    var h := AddOrgDocs(g, orgId, init);
    if init == [] {
      assert h == g;
      AddOrgDocAddsOrg(g, orgId, last);
    } else {
      assert init[0] == docs[0];
      OrgFirstName(g, orgId, init);
      AddOrgDocFacts(h, orgId, last);
      InPrefix(h.entities, AddOrgDocs(g, orgId, docs).entities, Entity(orgId, docs[0].name, OrgKind));
    }
  }

  /** Every entity of the graph is an organisation found for a requested id,
      typed `organization` and labelled with a name one of its documents
      gives, or an attribute for a target of such a document. */
  lemma {:induction false} OrgGraphLabels(ids: seq<string>, getDocument: string -> seq<OrgDoc>)
    ensures forall x :: x in OrgGraph(ids, getDocument).entities ==>
      exists i, d :: i in ids && d in getDocument(OrgId(i)) && EntityFrom(OrgId(i), d, x)
  {
    if ids != [] {
      var init, last := ids[..|ids| - 1], ids[|ids| - 1];
      OrgGraphLabels(init, getDocument);
      AddOrgDocsEntities(OrgGraph(init, getDocument), OrgId(last), getDocument(OrgId(last)));
      assert ids == init + [last];
      forall x | x in OrgGraph(ids, getDocument).entities
        ensures exists i, d :: i in ids && d in getDocument(OrgId(i)) && EntityFrom(OrgId(i), d, x)
      {
        if x in OrgGraph(init, getDocument).entities {
          var i, d :| i in init && d in getDocument(OrgId(i)) && EntityFrom(OrgId(i), d, x);
          assert i in ids;
        } else {
          var d :| d in getDocument(OrgId(last)) && EntityFrom(OrgId(last), d, x);
          assert last in ids;
        }
      }
    }
  }

  /** The graph of a prefix of the ids is kept by the later ones. */
  lemma {:induction false} OrgGraphPrefix(ids: seq<string>, getDocument: string -> seq<OrgDoc>, k: nat)
    requires k <= |ids|
    ensures Grows(OrgGraph(ids[..k], getDocument), OrgGraph(ids, getDocument))
    decreases |ids|
  {
    if k < |ids| {
      var init := ids[..|ids| - 1];
      assert ids[..k] == init[..k];
      OrgGraphPrefix(init, getDocument, k);
      AddOrgDocsFacts(OrgGraph(init, getDocument), OrgId(ids[|ids| - 1]), getDocument(OrgId(ids[|ids| - 1])));
    } else {
      assert ids[..k] == ids;
    }
  }

  /** An organisation found for a requested id that no earlier id mentions
      is an entity typed `organization` and labelled with the name of the
      first document found for it. */
  lemma {:induction false} OrgLabelled(ids: seq<string>, getDocument: string -> seq<OrgDoc>, k: nat)
    requires k < |ids| && getDocument(OrgId(ids[k])) != []
    requires forall j :: 0 <= j < k ==> !MentionedIn(OrgId(ids[j]), getDocument(OrgId(ids[j])), OrgId(ids[k]))
    ensures Entity(OrgId(ids[k]), getDocument(OrgId(ids[k]))[0].name, OrgKind) in OrgGraph(ids, getDocument).entities
  {
    OrgAddedAt(ids, getDocument, k);
    OrgKeptByLater(ids, getDocument, k + 1,
                   Entity(OrgId(ids[k]), getDocument(OrgId(ids[k]))[0].name, OrgKind));
  }

  lemma {:induction false} OrgAddedAt(ids: seq<string>, getDocument: string -> seq<OrgDoc>, k: nat)
    requires k < |ids| && getDocument(OrgId(ids[k])) != []
    requires forall j :: 0 <= j < k ==> !MentionedIn(OrgId(ids[j]), getDocument(OrgId(ids[j])), OrgId(ids[k]))
    ensures Entity(OrgId(ids[k]), getDocument(OrgId(ids[k]))[0].name, OrgKind) in
      OrgGraph(ids[..k + 1], getDocument).entities
  {
    var orgId := OrgId(ids[k]);
    var prefix := ids[..k + 1];
    assert prefix[..k] == ids[..k] && prefix[k] == ids[k];
    assert OrgGraph(prefix, getDocument) == AddOrgDocs(OrgGraph(ids[..k], getDocument), orgId, getDocument(orgId));
    OrgNotYetPresent(ids, getDocument, k);
    OrgFirstName(OrgGraph(ids[..k], getDocument), orgId, getDocument(orgId));
  }

  lemma {:induction false} OrgNotYetPresent(ids: seq<string>, getDocument: string -> seq<OrgDoc>, k: nat)
    requires k < |ids|
    requires forall j :: 0 <= j < k ==> !MentionedIn(OrgId(ids[j]), getDocument(OrgId(ids[j])), OrgId(ids[k]))
    ensures !HasEntity(OrgGraph(ids[..k], getDocument), OrgId(ids[k]))
  {
    OrgGraphEntities(ids[..k], getDocument);
    forall i | i in ids[..k] ensures !MentionedIn(OrgId(i), getDocument(OrgId(i)), OrgId(ids[k])) {
      var j :| 0 <= j < k && ids[..k][j] == i;
      assert ids[j] == i;
    }
  }

  lemma {:induction false} OrgKeptByLater(ids: seq<string>, getDocument: string -> seq<OrgDoc>, k: nat, x: Entity)
    requires k <= |ids| && x in OrgGraph(ids[..k], getDocument).entities
    ensures x in OrgGraph(ids, getDocument).entities
  {
    OrgGraphPrefix(ids, getDocument, k);
    InPrefix(OrgGraph(ids[..k], getDocument).entities, OrgGraph(ids, getDocument).entities, x);
  }

  // ---------------------------------------------------------------------
  // The builder's loops

  /** One field's value: element by element for a list. */
  method AddFieldValue(g: Graph, orgId: string, value: FieldValue, kind: string) returns (r: Graph)
    ensures r == LinkField(g, orgId, value, kind)
  {
    r := g;
    match value {
      case Undefined =>
      case One(x) =>
        if x != "" {
          r := Link(r, orgId, x, x, kind);
        }
      case Many(items) =>
        for j := 0 to |items|
          invariant r == LinkItems(g, orgId, items[..j], kind)
        {
          assert items[..j + 1][..j] == items[..j];
          if items[j].Some? && items[j].value != "" {
            r := Link(r, orgId, items[j].value, items[j].value, kind);
          }
        }
        assert items[..|items|] == items;
    }
  }

  /** `generateKnowledgeGraph`: for every id, every document the database
      returns for it. */
  method GenerateKnowledgeGraph(ids: seq<string>, getDocument: string -> seq<OrgDoc>) returns (g: Graph)
    ensures g == OrgGraph(ids, getDocument)
    ensures Valid(g)
  {
    g := Empty;
    for i := 0 to |ids|
      invariant g == OrgGraph(ids[..i], getDocument)
    {
      assert ids[..i + 1][..i] == ids[..i];
      var orgId := OrgPrefix + ids[i];
      var result := getDocument(orgId);
      g := AddDocuments(g, orgId, result);
    }
    assert ids[..|ids|] == ids;
  }

  /** The inner loop of the builder: the documents fetched for one id, in
      order. */
  method AddDocuments(g0: Graph, orgId: string, result: seq<OrgDoc>) returns (g: Graph)
    ensures g == AddOrgDocs(g0, orgId, result)
  {
    g := g0;
    for k := 0 to |result|
      invariant g == AddOrgDocs(g0, orgId, result[..k])
    {
      AddOrgDocsSnoc(g0, orgId, result, k);
      g := AddDocument(g, orgId, result[k]);
    }
    assert result[..|result|] == result;
  }

  lemma AddOrgDocsSnoc(g0: Graph, orgId: string, docs: seq<OrgDoc>, k: nat)
    requires k < |docs|
    ensures AddOrgDocs(g0, orgId, docs[..k + 1]) == AddOrgDoc(AddOrgDocs(g0, orgId, docs[..k]), orgId, docs[k])
  {
    assert docs[..k + 1][..k] == docs[..k];
  }

  /** One fetched document, field by field. */
  method AddDocument(g: Graph, orgId: string, doc: OrgDoc) returns (r: Graph)
    ensures r == AddOrgDoc(g, orgId, doc)
  {
    r := AddEntity(g, Entity(orgId, doc.name, OrgKind));
    r := LinkAssignee(r, orgId, doc);
    r := AddFieldValue(r, orgId, doc.blockchainEcosystem, EcosystemType);
    r := AddFieldValue(r, orgId, doc.topic, TopicType);
    r := AddFieldValue(r, orgId, doc.web3, Web3Type);
  }
}
