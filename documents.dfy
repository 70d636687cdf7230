/**
 * Document instances and the association proxies cached on them.
 *
 * `Doc` carries what the core reads and writes on a document: its class kind
 * (plain or embedded), its id, its attributes, the `_root_document` back
 * reference, the `new` flag and the per-instance proxy cache that `get_proxy`
 * fills. Embedded documents delegate `save`/`save!` to their root.
 *
 * `Proxy` is the association proxy; the collection operations are those of the
 * embedded collection: an in-memory ordered list whose inserts stamp the
 * proxy's root document on every inserted document.
 *
 * Storage is an event log (`Store`): the core never performs a write itself,
 * it asks for one.
 */
module Documents {
  import opened Values
  import opened Descriptors

  datatype DocKind = Document | EmbeddedDocument

  /** `embeddable?`: true exactly for classes that include EmbeddedDocument. */
  function Embeddable(k: DocKind): bool {
    k == EmbeddedDocument
  }

  /** The class an association instantiates, resolved from its descriptor. */
  function TargetKind(d: Descriptor): DocKind {
    if d.embeddable then EmbeddedDocument else Document
  }

  /** Embedded document classes report `embeddable?`, plain document classes do not; an association's target follows its descriptor. */
  lemma EmbeddedClassesAreEmbeddable(d: Descriptor)
    ensures Embeddable(EmbeddedDocument) && !Embeddable(Document)
    ensures Embeddable(TargetKind(d)) == d.embeddable
  {
  }

  /** A request to the external store. */
  datatype StoreEvent =
    | Destroyed(id: Value)                          // `record.destroy`
    | Cascaded(op: CascadeOp, association: string)  // `destroy_all` / `delete_all` / `nullify` on a proxy
    | RootSaved(root: Doc, bang: bool)              // `save` (bang false) or `save!` (bang true) on a root

  class Store {
    var log: seq<StoreEvent>

    constructor ()
      ensures log == []
    {
      log := [];
    }

    method Record(e: StoreEvent)
      modifies this
      ensures log == old(log) + [e]
    {
      log := log + [e];
    }
  }

  /** `detect { |item| item.id.to_s == id || item.id == id }` in `find`. */
  predicate FindMatches(d: Doc, id: Value) {
    Str(ToS(d.id)) == id || d.id == id
  }

  /** The position of the first document that `find` accepts, if any. */
  function FirstFindMatch(ds: seq<Doc>, id: Value): (k: Option<nat>)
    ensures k.Some? ==> k.value < |ds| && FindMatches(ds[k.value], id)
    ensures k.Some? ==> forall j :: 0 <= j < k.value ==> !FindMatches(ds[j], id)
    ensures k.None? ==> forall j :: 0 <= j < |ds| ==> !FindMatches(ds[j], id)
    decreases |ds|
  {
    if |ds| == 0 then None
    else if FindMatches(ds[0], id) then Some(0)
    else match FirstFindMatch(ds[1..], id)
      case None => None
      case Some(k) => Some(k + 1)
  }

  class Doc {
    const kind: DocKind
    const id: Value
    var attributes: Attrs
    var root: Doc?                     // `_root_document`
    var isNew: bool                    // `@new`
    var proxies: map<string, Proxy>    // one cached proxy per association name

    /** `klass.new(attributes)`: a new, unsaved, unrooted document with no proxies yet. */
    constructor (kind: DocKind, id: Value, attributes: Attrs)
      ensures this.kind == kind && this.id == id && this.attributes == attributes
      ensures root == null && isNew && proxies == map[]
    {
      this.kind := kind;
      this.id := id;
      this.attributes := attributes;
      root := null;
      isNew := true;
      proxies := map[];
    }

    /** `attributes=`: mass-assignment; given keys override, other keys stay. */
    method AssignAttributes(attrs: Attrs)
      modifies this`attributes
      ensures attributes == old(attributes) + attrs
    {
      attributes := attributes + attrs;
    }

    /**
     * `save` on an embedded document: the root's `save` result, or nil (no
     * save requested) without a root; `new` turns false only on a truthy result.
     */
    method Save(store: Store, outcome: bool) returns (result: Option<bool>)
      requires Embeddable(kind)
      modifies this`isNew, store
      ensures root == null ==> result == None && store.log == old(store.log)
      ensures root != null ==> result == Some(outcome) && store.log == old(store.log) + [RootSaved(root, false)]
      ensures isNew == (if result == Some(true) then false else old(isNew))
    {
      if root == null {
        result := None;
      } else {
        store.Record(RootSaved(root, false));
        result := Some(outcome);
      }
      if result == Some(true) {
        isNew := false;
      }
    }

    /** `save!` on an embedded document: the same delegation through the root's `save!`. */
    method SaveBang(store: Store, outcome: bool) returns (result: Option<bool>)
      requires Embeddable(kind)
      modifies this`isNew, store
      ensures root == null ==> result == None && store.log == old(store.log)
      ensures root != null ==> result == Some(outcome) && store.log == old(store.log) + [RootSaved(root, true)]
      ensures isNew == (if result == Some(true) then false else old(isNew))
    {
      if root == null {
        result := None;
      } else {
        store.Record(RootSaved(root, true));
        result := Some(outcome);
      }
      if result == Some(true) {
        isNew := false;
      }
    }

    /** `update_attributes`: assign first, then `save`, and answer its result. */
    method UpdateAttributes(attrs: Attrs, store: Store, outcome: bool) returns (result: Option<bool>)
      requires Embeddable(kind)
      modifies this`attributes, this`isNew, store
      ensures attributes == old(attributes) + attrs
      ensures root == null ==> result == None && store.log == old(store.log)
      ensures root != null ==> result == Some(outcome) && store.log == old(store.log) + [RootSaved(root, false)]
      ensures isNew == (if result == Some(true) then false else old(isNew))
    {
      AssignAttributes(attrs);
      result := Save(store, outcome);
    }

    /** `update_attributes!`: assign first, then `save!`, and answer its result. */
    method UpdateAttributesBang(attrs: Attrs, store: Store, outcome: bool) returns (result: Option<bool>)
      requires Embeddable(kind)
      modifies this`attributes, this`isNew, store
      ensures attributes == old(attributes) + attrs
      ensures root == null ==> result == None && store.log == old(store.log)
      ensures root != null ==> result == Some(outcome) && store.log == old(store.log) + [RootSaved(root, true)]
      ensures isNew == (if result == Some(true) then false else old(isNew))
    {
      AssignAttributes(attrs);
      result := SaveBang(store, outcome);
    }

    /**
     * `get_proxy`: the cached proxy for the association's name, created (empty)
     * and cached only when there is none yet.
     */
    method GetProxy(a: Descriptor) returns (p: Proxy)
      modifies this`proxies
      ensures a.name in proxies && p == proxies[a.name]
      ensures a.name in old(proxies) ==> p == old(proxies[a.name]) && proxies == old(proxies)
      ensures a.name !in old(proxies) ==>
                fresh(p) && p.owner == this && p.association == a && p.target == [] &&
                proxies == old(proxies)[a.name := p]
    {
      if a.name in proxies {
        p := proxies[a.name];
      } else {
        p := new Proxy(this, a);
        proxies := proxies[a.name := p];
      }
    }

    /** The `name=` writer: replace the proxy's target wholesale and answer the value. */
    method WriteAssociation(a: Descriptor, value: seq<Doc>) returns (r: seq<Doc>)
      modifies this`proxies, if a.name in proxies then {proxies[a.name]} else {}
      ensures r == value
      ensures a.name in proxies && proxies[a.name].target == value
      ensures a.name in old(proxies) ==> proxies == old(proxies)
      ensures a.name !in old(proxies) ==>
                fresh(proxies[a.name]) && proxies == old(proxies)[a.name := proxies[a.name]]
      ensures forall q :: q in old(proxies).Values && q != proxies[a.name] ==> q.target == old(q.target)
    {
      var p := GetProxy(a);
      p.Replace(value);
      r := value;
    }
  }

  class Proxy {
    const owner: Doc
    const association: Descriptor
    var target: seq<Doc>

    constructor (owner: Doc, association: Descriptor)
      ensures this.owner == owner && this.association == association && target == []
    {
      this.owner := owner;
      this.association := association;
      target := [];
    }

    /** The owner's own root when the owner is embeddable (responds to `_root_document`), else the owner. */
    function RootDocument(): (r: Doc?)
      reads owner
      ensures r == null <==> Embeddable(owner.kind) && owner.root == null
    {
      if Embeddable(owner.kind) then owner.root else owner
    }

    /** `count`: the size of the in-memory list. */
    function Count(): nat
      reads this
    {
      |target|
    }

    /** `find(id)`: the first document whose id, or whose id's string form, equals `id`. */
    function Find(id: Value): (r: Doc?)
      reads this
      ensures r != null ==> r in target && FindMatches(r, id)
      ensures r == null <==> forall k :: 0 <= k < |target| ==> !FindMatches(target[k], id)
      ensures r != null ==> exists k :: 0 <= k < |target| && target[k] == r &&
                              forall j :: 0 <= j < k ==> !FindMatches(target[j], id)
    {
      match FirstFindMatch(target, id)
      case Some(k) => target[k]
      case None => null
    }

    /** `replace(value)`: the target becomes the value. */
    method Replace(value: seq<Doc>)
      modifies this
      ensures target == value
    {
      target := value;
    }

    /**
     * `<<` (also `push` and `concat`): append the documents in argument order,
     * stamping each with the proxy's root document.
     */
    method Push(docs: seq<Doc>)
      modifies this, docs
      ensures target == old(target) + docs
      ensures Count() == old(Count()) + |docs|
      ensures RootDocument() == old(RootDocument())
      ensures forall d :: d in docs ==> d.root == old(RootDocument())
      ensures forall d :: d in docs ==>
                d.attributes == old(d.attributes) && d.isNew == old(d.isNew) && d.proxies == old(d.proxies)
    {
      var i := 0;
      while i < |docs|
        invariant 0 <= i <= |docs|
        invariant target == old(target) + docs[..i]
        invariant RootDocument() == old(RootDocument())
        invariant forall k :: 0 <= k < i ==> docs[k].root == old(RootDocument())
        invariant forall d :: d in docs ==>
                    d.attributes == old(d.attributes) && d.isNew == old(d.isNew) && d.proxies == old(d.proxies)
      {
        var doc := docs[i];
        doc.root := RootDocument();
        target := target + [doc];
        i := i + 1;
      }
      assert docs[..i] == docs;
    }

    /** `build(attributes)`: a new document of the association's class, rooted and appended. */
    method Build(attrs: Attrs) returns (doc: Doc)
      modifies this
      ensures fresh(doc)
      ensures doc.kind == TargetKind(association) && doc.id == Nil && doc.attributes == attrs && doc.isNew
      ensures RootDocument() == old(RootDocument()) && doc.root == RootDocument()
      ensures target == old(target) + [doc]
    {
      doc := new Doc(TargetKind(association), Nil, attrs);
      doc.root := RootDocument();
      Push([doc]);
    }

    /** `delete(record)`: drop the member at the given position from the in-memory list. */
    method DeleteAt(k: nat)
      requires k < |target|
      modifies this
      ensures target == old(target)[..k] + old(target)[k + 1..]
    {
      target := target[..k] + target[k + 1..];
    }
  }
}
