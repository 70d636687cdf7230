/**
 * The class side of associations: a document class's registry and what
 * declaring an association installs on it, copy-on-inherit, the
 * `accepts_nested_attributes_for` declaration, and the cascade hooks that run
 * after a document is destroyed.
 */
module Associations {
  import opened Values
  import opened Descriptors
  import opened Documents

  /** The option keys `accepts_nested_attributes_for` accepts. */
  const NestedOptionKeys: set<string> := {"allow_destroy", "reject_if"}

  /** The declaration options: the given ones over the default `allow_destroy: false`. */
  function NestedOptions(given: map<string, Value>): (opts: map<string, Value>)
    ensures "allow_destroy" in opts
    ensures "allow_destroy" !in given ==> opts["allow_destroy"] == Bool(false)
    ensures forall k :: k in given ==> k in opts && opts[k] == given[k]
    ensures opts.Keys == given.Keys + {"allow_destroy"}
  {
    map["allow_destroy" := Bool(false)] + given
  }

  /** The position of the first name that is not in the registry, if any. */
  function FirstUndeclared(names: seq<string>, associations: map<string, Descriptor>): (k: Option<nat>)
    ensures k.Some? ==> k.value < |names| && names[k.value] !in associations
    ensures k.Some? ==> forall j :: 0 <= j < k.value ==> names[j] in associations
    ensures k.None? ==> forall j :: 0 <= j < |names| ==> names[j] in associations
    decreases |names|
  {
    if |names| == 0 then None
    else if names[0] !in associations then Some(0)
    else match FirstUndeclared(names[1..], associations)
      case None => None
      case Some(k) => Some(k + 1)
  }

  /**
   * The `<name>_attributes=` writers after defining one for each name, each
   * passing on the given `allow_destroy`; a later definition replaces an
   * earlier one.
   */
  function DefineWriters(writers: map<string, bool>, names: seq<string>, allow: bool): (w: map<string, bool>)
    ensures w.Keys == writers.Keys + (set n | n in names)
    ensures forall n :: n in w ==> w[n] == if n in names then allow else writers[n]
    decreases |names|
  {
    if |names| == 0 then writers
    else DefineWriters(writers, names[..|names| - 1], allow)[names[|names| - 1] := allow]
  }

  class DocClass {
    var associations: map<string, Descriptor>
    var presence: set<string>            // names with a `name?` predicate
    var hooks: seq<Descriptor>           // after_destroy cascade hooks, in order
    var nestedWriters: map<string, bool> // `<name>_attributes=` writers and their allow_destroy

    function Table(): ClassTable
      reads this
    {
      ClassTable(associations, presence, hooks)
    }

    /** A class with no declarations yet (`@associations ||= {}`). */
    constructor ()
      ensures Table() == EmptyTable && nestedWriters == map[]
    {
      associations := map[];
      presence := {};
      hooks := [];
      nestedWriters := map[];
    }

    /** `associations=`. */
    method SetAssociations(h: map<string, Descriptor>)
      modifies this`associations
      ensures associations == h
    {
      associations := h;
    }

    /**
     * `inherited`: the subclass starts with its own copy of this class's
     * registry; this class is not changed.
     */
    method Inherited() returns (sub: DocClass)
      ensures fresh(sub)
      ensures sub.associations == associations
      ensures sub.presence == {} && sub.hooks == [] && sub.nestedWriters == map[]
      ensures KeyedByName(associations) ==> KeyedByName(sub.associations)
    {
      sub := new DocClass();
      sub.SetAssociations(associations);
    }

    /**
     * `create_association` (behind `belongs_to`, `many` and `one`): store the
     * descriptor under its name, add the presence predicate for singular kinds
     * and register the cascade hook when its guard holds.
     */
    method CreateAssociation(kind: Kind, name: string, options: map<string, Value>, embeddable: bool)
      returns (d: Descriptor)
      modifies this`associations, this`presence, this`hooks
      ensures d == Descriptor(kind, name, options, embeddable)
      ensures Table() == Declare(old(Table()), d)
      ensures associations == old(associations)[name := d]
      ensures old(KeyedByName(associations)) ==> KeyedByName(associations)
    {
      d := Descriptor(kind, name, options, embeddable);
      associations := associations[d.name := d];
      if HasPresencePredicate(d) {
        presence := presence + {d.name};
      }
      if RegistersCascade(d) {
        hooks := hooks + [d];
      }
    }

    /**
     * `accepts_nested_attributes_for(*names, options)`: unknown option keys
     * fail before anything is defined; otherwise a writer is defined for each
     * name in turn, and the first name with no association fails, leaving the
     * writers defined for the names before it.
     */
    method AcceptsNestedAttributesFor(names: seq<string>, options: map<string, Value>) returns (r: Outcome)
      modifies this`nestedWriters
      ensures !(NestedOptions(options).Keys <= NestedOptionKeys) ==>
                r == Fail(UnknownOptionKeys(NestedOptions(options).Keys - NestedOptionKeys)) &&
                nestedWriters == old(nestedWriters)
      ensures NestedOptions(options).Keys <= NestedOptionKeys ==>
                var allow := Truthy(NestedOptions(options)["allow_destroy"]);
                match FirstUndeclared(names, associations)
                case None => r == Pass && nestedWriters == DefineWriters(old(nestedWriters), names, allow)
                case Some(k) => r == Fail(NoAssociationFound(names[k])) &&
                                nestedWriters == DefineWriters(old(nestedWriters), names[..k], allow)
    {
      var opts := NestedOptions(options);
      if !(opts.Keys <= NestedOptionKeys) {
        return Fail(UnknownOptionKeys(opts.Keys - NestedOptionKeys));
      }
      var allow := Truthy(opts["allow_destroy"]);
      var i := 0;
      while i < |names|
        invariant 0 <= i <= |names|
        invariant forall j :: 0 <= j < i ==> names[j] in associations
        invariant nestedWriters == DefineWriters(old(nestedWriters), names[..i], allow)
      {
        if names[i] !in associations {
          return Fail(NoAssociationFound(names[i]));
        }
        assert names[..i + 1][..i] == names[..i];
        nestedWriters := nestedWriters[names[i] := allow];
        i := i + 1;
      }
      assert names[..i] == names;
      r := Pass;
    }
  }

  /** The store request one hook makes; a `:dependent` value with no `when` makes none. */
  function HookEvents(h: Descriptor): seq<StoreEvent> {
    match CascadeFor(Dependent(h))
    case Some(op) => [Cascaded(op, h.name)]
    case None => []
  }

  /** The store requests the hooks make, in order. */
  function CascadeEvents(hooks: seq<Descriptor>): (r: seq<StoreEvent>)
    decreases |hooks|
  {
    if |hooks| == 0 then []
    else CascadeEvents(hooks[..|hooks| - 1]) + HookEvents(hooks[|hooks| - 1])
  }

  /** One more hook adds its own request after the earlier ones. */
  lemma CascadeEventsSnoc(hooks: seq<Descriptor>, h: Descriptor)
    ensures CascadeEvents(hooks + [h]) == CascadeEvents(hooks) + HookEvents(h)
  {
    assert (hooks + [h])[..|hooks|] == hooks;
  }

  /** The associations whose proxy a hook asks for. */
  function CascadeNames(hooks: seq<Descriptor>): set<string> {
    set h | h in hooks && CascadeFor(Dependent(h)).Some? :: h.name
  }

  /** One more hook adds its name exactly when its value dispatches. */
  lemma CascadeNamesSnoc(hooks: seq<Descriptor>, h: Descriptor)
    ensures CascadeNames(hooks + [h]) ==
              CascadeNames(hooks) + if CascadeFor(Dependent(h)).Some? then {h.name} else {}
  {
    assert forall x :: x in hooks + [h] <==> x in hooks || x == h;
  }

  /**
   * Every event the hooks make is a cascade on one of the hooks' associations,
   * with the operation its `:dependent` value dispatches to, and every hook
   * whose value dispatches makes one; there is at most one event per hook.
   */
  lemma {:induction false} CascadeEventsExact(hooks: seq<Descriptor>)
    ensures |CascadeEvents(hooks)| <= |hooks|
    ensures forall e :: e in CascadeEvents(hooks) ==> e.Cascaded?
    ensures forall op, n :: Cascaded(op, n) in CascadeEvents(hooks) <==>
              exists h :: h in hooks && h.name == n && CascadeFor(Dependent(h)) == Some(op)
    decreases |hooks|
  {
    if |hooks| > 0 {
      var m := |hooks| - 1;
      CascadeEventsExact(hooks[..m]);
      assert hooks == hooks[..m] + [hooks[m]];
      assert forall h :: h in hooks <==> h in hooks[..m] || h == hooks[m];
    }
  }

  /** One hook: when its value dispatches, fetch the proxy and ask the store for the bulk operation. */
  method RunDestroyHook(doc: Doc, h: Descriptor, store: Store)
    modifies doc`proxies, store
    ensures store.log == old(store.log) + HookEvents(h)
    ensures doc.proxies.Keys == old(doc.proxies).Keys + if CascadeFor(Dependent(h)).Some? then {h.name} else {}
    ensures forall n :: n in old(doc.proxies) ==> doc.proxies[n] == old(doc.proxies)[n]
  {
    match CascadeFor(Dependent(h)) {
      case Some(op) =>
        var p := doc.GetProxy(h);
        store.Record(Cascaded(op, h.name));
      case None =>
    }
  }

  /**
   * The `after_destroy` hooks of a class run on a destroyed document: each hook
   * whose `:dependent` value is `:destroy`, `:delete_all` or `:nullify` fetches
   * the document's proxy for its association and asks the store for the
   * matching bulk operation; any other value does nothing.
   */
  method RunDestroyHooks(doc: Doc, hooks: seq<Descriptor>, store: Store)
    modifies doc`proxies, store
    ensures store.log == old(store.log) + CascadeEvents(hooks)
    ensures doc.proxies.Keys == old(doc.proxies).Keys + CascadeNames(hooks)
    ensures forall n :: n in old(doc.proxies) ==> doc.proxies[n] == old(doc.proxies)[n]
  {
    var i := 0;
    while i < |hooks|
      invariant 0 <= i <= |hooks|
      invariant store.log == old(store.log) + CascadeEvents(hooks[..i])
      invariant doc.proxies.Keys == old(doc.proxies).Keys + CascadeNames(hooks[..i])
      invariant forall n :: n in old(doc.proxies) ==> doc.proxies[n] == old(doc.proxies)[n]
    {
      var h := hooks[i];
      assert hooks[..i + 1] == hooks[..i] + [h];
      assert hooks[..i + 1][..i] == hooks[..i];
      CascadeNamesSnoc(hooks[..i], h);
      RunDestroyHook(doc, h, store);
      i := i + 1;
    }
    assert hooks[..i] == hooks;
  }
}
