/**
 * Association descriptors and the per-class declaration table that
 * `create_association` writes: the registry itself (name -> descriptor), the
 * names that received a `name?` presence predicate, and the cascade hooks
 * registered with `after_destroy`, in registration order.
 */
module Descriptors {
  import opened Values

  datatype Kind = BelongsTo | Many | One

  /**
   * What `Associations::Base.new(type, name, options)` produces. Whether the
   * target class is embeddable is resolved by that constructor from the target
   * class; here it is a field.
   */
  datatype Descriptor = Descriptor(kind: Kind, name: string, options: map<string, Value>, embeddable: bool)

  /** `association.options[:dependent]`. */
  function Dependent(d: Descriptor): Value {
    Get(d.options, "dependent")
  }

  /** Singular associations get a `name?` presence predicate; `many` does not. */
  predicate HasPresencePredicate(d: Descriptor) {
    d.kind == One || d.kind == BelongsTo
  }

  /** The guard on registering the cascade hook. */
  predicate RegistersCascade(d: Descriptor) {
    Truthy(Dependent(d)) && d.kind == Many && !d.embeddable
  }

  /** The storage operation a cascade hook asks of the association proxy. */
  datatype CascadeOp = DestroyAll | DeleteAll | Nullify

  /** The `case` on the `:dependent` value inside the cascade hook. */
  function CascadeFor(dependent: Value): (r: Option<CascadeOp>)
    ensures r.Some? ==> dependent.Sym?
    ensures r == Some(DestroyAll) <==> dependent == Sym("destroy")
    ensures r == Some(DeleteAll) <==> dependent == Sym("delete_all")
    ensures r == Some(Nullify) <==> dependent == Sym("nullify")
  {
    match dependent
    case Sym("destroy") => Some(DestroyAll)
    case Sym("delete_all") => Some(DeleteAll)
    case Sym("nullify") => Some(Nullify)
    case _ => None
  }

  /** The declaration state of one document class. */
  datatype ClassTable = ClassTable(
    associations: map<string, Descriptor>,
    presence: set<string>,
    hooks: seq<Descriptor>)

  const EmptyTable := ClassTable(map[], {}, [])

  /** Every registry entry is stored under its own descriptor's name. */
  ghost predicate KeyedByName(associations: map<string, Descriptor>) {
    forall n :: n in associations ==> associations[n].name == n
  }

  /** The effect of one `create_association` on the class's table. */
  function Declare(t: ClassTable, d: Descriptor): (r: ClassTable)
    ensures d.name in r.associations && r.associations[d.name] == d
    ensures forall n :: n != d.name ==>
              (n in r.associations <==> n in t.associations) &&
              (n in t.associations ==> r.associations[n] == t.associations[n])
    ensures r.presence - t.presence <= {d.name} && t.presence <= r.presence
    ensures t.hooks <= r.hooks && |r.hooks| <= |t.hooks| + 1
  {
    ClassTable(
      t.associations[d.name := d],
      if HasPresencePredicate(d) then t.presence + {d.name} else t.presence,
      if RegistersCascade(d) then t.hooks + [d] else t.hooks)
  }

  /** A sequence of declarations, in order. */
  function DeclareAll(t: ClassTable, ds: seq<Descriptor>): (r: ClassTable)
    ensures t.associations.Keys <= r.associations.Keys
    ensures t.presence <= r.presence
    ensures t.hooks <= r.hooks && |r.hooks| <= |t.hooks| + |ds|
    decreases |ds|
  {
    if |ds| == 0 then t else Declare(DeclareAll(t, ds[..|ds| - 1]), ds[|ds| - 1])
  }

  /** The declarations that register a cascade hook, in order. */
  function Cascading(ds: seq<Descriptor>): seq<Descriptor>
    decreases |ds|
  {
    if |ds| == 0 then []
    else Cascading(ds[..|ds| - 1]) + (if RegistersCascade(ds[|ds| - 1]) then [ds[|ds| - 1]] else [])
  }

  /** `embedded_associations`: the registry's descriptors whose target is embeddable. */
  function EmbeddedAssociations(associations: map<string, Descriptor>): (r: set<Descriptor>)
    ensures forall n :: n in associations && associations[n].embeddable ==> associations[n] in r
    ensures forall d :: d in r ==> d.embeddable && d in associations.Values
  {
    set n | n in associations && associations[n].embeddable :: associations[n]
  }

  /** No declaration after position `k` uses the same name as `ds[k]`. */
  ghost predicate IsLastNamed(ds: seq<Descriptor>, k: nat)
    requires k < |ds|
  {
    forall j :: k < j < |ds| ==> ds[j].name != ds[k].name
  }

  lemma DeclareKeepsKeyedByName(t: ClassTable, d: Descriptor)
    requires KeyedByName(t.associations)
    ensures KeyedByName(Declare(t, d).associations)
  {
  }

  /** After a sequence of declarations, a name is registered iff it was registered before or declared. */
  lemma {:induction false} DeclaredNames(t: ClassTable, ds: seq<Descriptor>, name: string)
    ensures name in DeclareAll(t, ds).associations <==>
              name in t.associations || exists k :: 0 <= k < |ds| && ds[k].name == name
    decreases |ds|
  {
    if |ds| > 0 {
      var n := |ds| - 1;
      DeclaredNames(t, ds[..n], name);
      assert forall k :: 0 <= k < n ==> ds[..n][k] == ds[k];
    }
  }

  /** Overwrite on redeclare: a declared name maps to the descriptor of its last declaration. */
  lemma {:induction false} LastDeclarationWins(t: ClassTable, ds: seq<Descriptor>, k: nat)
    requires k < |ds| && IsLastNamed(ds, k)
    ensures ds[k].name in DeclareAll(t, ds).associations
    ensures DeclareAll(t, ds).associations[ds[k].name] == ds[k]
    decreases |ds|
  {
    var n := |ds| - 1;
    if k < n {
      assert ds[..n][k] == ds[k];
      assert IsLastNamed(ds[..n], k);
      LastDeclarationWins(t, ds[..n], k);
    }
  }

  /** A name no declaration uses keeps its earlier descriptor. */
  lemma {:induction false} UndeclaredNameUnchanged(t: ClassTable, ds: seq<Descriptor>, name: string)
    requires name in t.associations
    requires forall k :: 0 <= k < |ds| ==> ds[k].name != name
    ensures name in DeclareAll(t, ds).associations
    ensures DeclareAll(t, ds).associations[name] == t.associations[name]
    decreases |ds|
  {
    if |ds| > 0 {
      UndeclaredNameUnchanged(t, ds[..|ds| - 1], name);
    }
  }

  /**
   * A name has a presence predicate iff it had one before or some declaration
   * of it was singular (`one` or `belongs_to`); a name only ever declared with
   * `many` never gets one.
   */
  lemma {:induction false} PresenceIffSingularDeclaration(t: ClassTable, ds: seq<Descriptor>, name: string)
    ensures name in DeclareAll(t, ds).presence <==>
              name in t.presence ||
              exists k :: 0 <= k < |ds| && ds[k].name == name && ds[k].kind != Many
    decreases |ds|
  {
    if |ds| > 0 {
      var n := |ds| - 1;
      PresenceIffSingularDeclaration(t, ds[..n], name);
      assert forall k :: 0 <= k < n ==> ds[..n][k] == ds[k];
      if name in DeclareAll(t, ds[..n]).presence && name !in t.presence {
        var k :| 0 <= k < n && ds[..n][k].name == name && ds[..n][k].kind != Many;
        assert ds[k].name == name && ds[k].kind != Many;
      }
    }
  }

  /**
   * Cascade hooks are appended in declaration order, exactly for the
   * declarations that are `many`, not embeddable and carry a truthy
   * `:dependent` option.
   */
  lemma {:induction false} HooksAreCascadingDeclarations(t: ClassTable, ds: seq<Descriptor>)
    ensures DeclareAll(t, ds).hooks == t.hooks + Cascading(ds)
    ensures forall h :: h in DeclareAll(t, ds).hooks <==>
              h in t.hooks || (h in ds && Truthy(Dependent(h)) && h.kind == Many && !h.embeddable)
    decreases |ds|
  {
    if |ds| > 0 {
      var n := |ds| - 1;
      HooksAreCascadingDeclarations(t, ds[..n]);
      assert ds == ds[..n] + [ds[n]];
      assert forall h :: h in ds <==> h in ds[..n] || h == ds[n];
    }
  }

  /**
   * Declaring changes the embedded associations only at the declared name:
   * the entry it replaces drops out and the new descriptor is in iff its
   * target is embeddable.
   */
  lemma DeclareEmbeddedAssociations(t: ClassTable, d: Descriptor)
    requires KeyedByName(t.associations)
    ensures EmbeddedAssociations(Declare(t, d).associations) ==
              (set e | e in EmbeddedAssociations(t.associations) && e.name != d.name) +
              (if d.embeddable then {d} else {})
  {
    var before := EmbeddedAssociations(t.associations);
    var after := EmbeddedAssociations(Declare(t, d).associations);
    var expected := (set e | e in before && e.name != d.name) + (if d.embeddable then {d} else {});
    forall e | e in after ensures e in expected {
      var n :| n in Declare(t, d).associations && Declare(t, d).associations[n] == e && e.embeddable;
      if n != d.name {
        assert t.associations[n] == e;
      }
    }
    forall e | e in expected ensures e in after {
      if e != d {
        var n :| n in t.associations && t.associations[n] == e && e.embeddable;
        assert Declare(t, d).associations[n] == e;
      } else {
        assert Declare(t, d).associations[d.name] == d;
      }
    }
  }
}
