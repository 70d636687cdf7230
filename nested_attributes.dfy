/**
 * `assign_nested_attributes_for_association`, in its two shown versions: the
 * plugin version, whose destroy branch needs both the element's `_destroy`
 * flag and the declaration's `allow_destroy`, and the older version, whose
 * destroy branch needs the flag alone.
 *
 * Each element of the normalised payload is one of four actions against the
 * association's current member list: append a new record (blank `_id`),
 * remove the first member whose id matches (destroy branch), assign the
 * element's assignable attributes to that member (update), or nothing (no
 * member matches).
 *
 * The specification is a left fold (`Run`) over a `Tally`: the member list as
 * entries (an existing member by its position in the list before the call, or
 * a record created from a payload element), the attributes of every member that
 * was there before the call (keyed by the document, so that a member listed
 * twice is one record) and the store requests made. The assigner method is a
 * loop over documents that is proved to keep the proxy in step with that fold.
 */
module NestedAttributes {
  import opened Values
  import opened Documents
  import opened Payloads
  import opened Descriptors
  import opened Associations

  datatype Variant = PluginVersion | LegacyVersion

  /** `UNASSIGNABLE_KEYS`. */
  const UnassignableKeys: set<string> := {"id", "_id", "_destroy"}

  /** `attributes.except(*UNASSIGNABLE_KEYS)`. */
  function Assignable(a: Attrs): (r: Attrs)
    ensures r.Keys == a.Keys - UnassignableKeys
    ensures forall k :: k in r ==> r[k] == a[k]
  {
    a - UnassignableKeys
  }

  /**
   * `has_destroy_flag?`: the boolean coercion of the element's `_destroy` value.
   * A missing, nil or false flag never counts; `true`, "1", "true" and 1 do.
   */
  function HasDestroyFlag(a: Attrs): (r: bool)
    ensures r ==> "_destroy" in a && Truthy(a["_destroy"])
    ensures Get(a, "_destroy") in [Bool(true), Str("1"), Str("true"), Str("TRUE"), Str("t"), Int(1)] ==> r
    ensures Get(a, "_destroy") in [Str("0"), Str("false"), Int(0)] ==> !r
  {
    assert Lower("1") == "1" && Lower("true") == "true" && Lower("TRUE") == "true" && Lower("t") == "t";
    assert Lower("0") == "0" && Lower("false") == "false";
    BooleanToMongo(Get(a, "_destroy"))
  }

  /** The guard of the destroy branch (line 50), the one place the two versions differ. */
  predicate DestroyBranch(v: Variant, a: Attrs, allowDestroy: bool) {
    match v
    case PluginVersion => HasDestroyFlag(a) && allowDestroy
    case LegacyVersion => HasDestroyFlag(a)
  }

  /** The position of the first id whose string form is `s` (`detect`), if any. */
  function FirstIdMatch(ids: seq<Value>, s: string): (k: Option<nat>)
    ensures k.Some? ==> k.value < |ids| && ToS(ids[k.value]) == s
    ensures k.Some? ==> forall j :: 0 <= j < k.value ==> ToS(ids[j]) != s
    ensures k.None? ==> forall j :: 0 <= j < |ids| ==> ToS(ids[j]) != s
    decreases |ids|
  {
    if |ids| == 0 then None
    else if ToS(ids[0]) == s then Some(0)
    else match FirstIdMatch(ids[1..], s)
      case None => None
      case Some(k) => Some(k + 1)
  }

  /**
   * `association_name.to_s.classify.constantize` (lines 48 and 52 as written):
   * the class is looked up from the association's name, not taken from its
   * declaration. `constants` maps each association name whose classified form
   * is a defined class to that class; any other name raises a NameError.
   */
  function ClassFromName(constants: map<string, DocKind>, name: string): (r: Result<DocKind>)
    ensures r.Ok? <==> name in constants
    ensures r.Ok? ==> r.value == constants[name]
    ensures r.Err? ==> r.error == UninitializedConstant(name)
  {
    if name in constants then Ok(constants[name]) else Err(UninitializedConstant(name))
  }

  datatype Action = Append | Update(k: nat) | Remove(k: nat) | Skip

  /** The decision an element makes against the ids of the current members. */
  function Decide(v: Variant, allowDestroy: bool, ids: seq<Value>, a: Attrs): (act: Action)
    ensures act.Update? || act.Remove? ==> act.k < |ids|
  {
    if Blank(Get(a, "_id")) then Append
    else match FirstIdMatch(ids, ToS(Get(a, "_id")))
      case None => Skip
      case Some(k) => if DestroyBranch(v, a, allowDestroy) then Remove(k) else Update(k)
  }

  /**
   * The four outcomes: append exactly for a blank `_id`; skip exactly when no
   * id reads the same as the element's `_id`; otherwise the first member whose
   * id does, removed in the destroy branch and updated outside it.
   */
  lemma DecideTable(v: Variant, allowDestroy: bool, ids: seq<Value>, a: Attrs)
    ensures var act := Decide(v, allowDestroy, ids, a);
            (act == Append <==> Blank(Get(a, "_id"))) &&
            (act == Skip <==> !Blank(Get(a, "_id")) && forall j :: 0 <= j < |ids| ==> ToS(ids[j]) != ToS(Get(a, "_id"))) &&
            (act.Remove? <==> !act.Append? && !act.Skip? && DestroyBranch(v, a, allowDestroy))
    ensures var act := Decide(v, allowDestroy, ids, a);
            act.Update? || act.Remove? ==>
              ToS(ids[act.k]) == ToS(Get(a, "_id")) && forall j :: 0 <= j < act.k ==> ToS(ids[j]) != ToS(Get(a, "_id"))
  {
  }

  /** A member of the list: one that was there before the call, or one the call created. */
  datatype Entry =
    | Existing(position: nat, doc: Doc)
    | Created(element: nat, attrs: Attrs)

  datatype Tally = Tally(slots: seq<Entry>, attrs: map<Doc, Attrs>, events: seq<StoreEvent>)

  /** A created record has no id of its own. */
  function EntryId(e: Entry): Value {
    match e
    case Existing(_, d) => d.id
    case Created(_, _) => Nil
  }

  function Ids(slots: seq<Entry>): (r: seq<Value>)
    ensures |r| == |slots| && forall k :: 0 <= k < |slots| ==> r[k] == EntryId(slots[k])
  {
    seq(|slots|, k requires 0 <= k < |slots| => EntryId(slots[k]))
  }

  function DocIds(ds: seq<Doc>): (r: seq<Value>)
    ensures |r| == |ds| && forall k :: 0 <= k < |ds| ==> r[k] == ds[k].id
  {
    seq(|ds|, k requires 0 <= k < |ds| => ds[k].id)
  }

  function AttrsOf(attrs: map<Doc, Attrs>, d: Doc): Attrs {
    if d in attrs then attrs[d] else map[]
  }

  /** The members before the call. */
  ghost function Start(ds: seq<Doc>): Tally
    reads ds
  {
    Tally(seq(|ds|, k requires 0 <= k < |ds| => Existing(k, ds[k])),
          map d | d in ds :: d.attributes,
          [])
  }

  /**
   * The effect of one action; `i` is the element's position in the payload.
   * Only an append grows the list and only a removal shrinks it, by one; only
   * a removal from a target that is not embeddable adds a store request.
   */
  function Apply(t: Tally, act: Action, i: nat, a: Attrs, embeddable: bool): (r: Tally)
    ensures |r.slots| == |t.slots| + (if act.Append? then 1 else 0) - (if act.Remove? && act.k < |t.slots| then 1 else 0)
    ensures t.events <= r.events && |r.events| <= |t.events| + 1
    ensures r.events != t.events ==> act.Remove? && !embeddable
  {
    match act
    case Append => t.(slots := t.slots + [Created(i, a)])
    case Skip => t
    case Remove(k) =>
      if k < |t.slots| then
        t.(slots := t.slots[..k] + t.slots[k + 1..],
           events := t.events + if embeddable then [] else [Destroyed(EntryId(t.slots[k]))])
      else t
    case Update(k) =>
      if k < |t.slots| then
        match t.slots[k]
        case Existing(_, d) => t.(attrs := t.attrs[d := AttrsOf(t.attrs, d) + Assignable(a)])
        case Created(e, ca) => t.(slots := t.slots[k := Created(e, ca + Assignable(a))])
      else t
  }

  /**
   * One element against the list `t` holds: the list grows by one exactly for
   * a blank `_id`, and a store request is made only in the destroy branch on a
   * target that is not embeddable.
   */
  function Step(v: Variant, allowDestroy: bool, embeddable: bool, t: Tally, i: nat, a: Attrs): (r: Tally)
    ensures |r.slots| == |t.slots| + 1 <==> Blank(Get(a, "_id"))
    ensures |t.slots| - 1 <= |r.slots| <= |t.slots| + 1
    ensures t.events <= r.events && |r.events| <= |t.events| + 1
    ensures r.events != t.events ==> !embeddable && DestroyBranch(v, a, allowDestroy)
  {
    Apply(t, Decide(v, allowDestroy, Ids(t.slots), a), i, a, embeddable)
  }

  /** The elements processed in order, starting from `t`. */
  function Run(v: Variant, allowDestroy: bool, embeddable: bool, t: Tally, items: seq<Attrs>): Tally
    decreases |items|
  {
    if |items| == 0 then t
    else
      var n := |items| - 1;
      Step(v, allowDestroy, embeddable, Run(v, allowDestroy, embeddable, t, items[..n]), n, items[n])
  }

  // ---------------------------------------------------------------------------
  // Properties of the specification
  // ---------------------------------------------------------------------------

  /** `k` is the first member whose id's string form is `_id.to_s` of the element. */
  ghost predicate FirstMatchAt(slots: seq<Entry>, a: Attrs, k: nat) {
    k < |slots| && ToS(EntryId(slots[k])) == ToS(Get(a, "_id")) &&
    forall j :: 0 <= j < k ==> ToS(EntryId(slots[j])) != ToS(Get(a, "_id"))
  }

  /** A blank `_id` appends one created record at the end and changes nothing else. */
  lemma StepAppends(v: Variant, allowDestroy: bool, embeddable: bool, t: Tally, i: nat, a: Attrs)
    requires Blank(Get(a, "_id"))
    ensures Step(v, allowDestroy, embeddable, t, i, a) == t.(slots := t.slots + [Created(i, a)])
  {
  }

  /** An `_id` that no member's id reads as changes nothing. */
  lemma StepSkips(v: Variant, allowDestroy: bool, embeddable: bool, t: Tally, i: nat, a: Attrs)
    requires !Blank(Get(a, "_id"))
    requires forall k :: 0 <= k < |t.slots| ==> ToS(EntryId(t.slots[k])) != ToS(Get(a, "_id"))
    ensures Step(v, allowDestroy, embeddable, t, i, a) == t
  {
    var ids := Ids(t.slots);
    assert forall k :: 0 <= k < |ids| ==> ToS(ids[k]) != ToS(Get(a, "_id"));
  }

  lemma FirstMatchIsFound(t: Tally, a: Attrs, k: nat)
    requires FirstMatchAt(t.slots, a, k)
    ensures FirstIdMatch(Ids(t.slots), ToS(Get(a, "_id"))) == Some(k)
  {
    var ids := Ids(t.slots);
    assert ids[k] == EntryId(t.slots[k]);
  }

  /**
   * A match in the destroy branch removes the first matching member, keeping
   * the others in order, and asks the store to destroy it unless the target
   * is embeddable.
   */
  lemma StepRemoves(v: Variant, allowDestroy: bool, embeddable: bool, t: Tally, i: nat, a: Attrs, k: nat)
    requires !Blank(Get(a, "_id")) && FirstMatchAt(t.slots, a, k) && DestroyBranch(v, a, allowDestroy)
    ensures var s := Step(v, allowDestroy, embeddable, t, i, a);
            s.slots == t.slots[..k] + t.slots[k + 1..] && s.attrs == t.attrs &&
            s.events == t.events + (if embeddable then [] else [Destroyed(EntryId(t.slots[k]))])
  {
    FirstMatchIsFound(t, a, k);
  }

  /**
   * A match outside the destroy branch keeps the list and merges the element's
   * assignable attributes into the first matching member.
   */
  lemma StepUpdates(v: Variant, allowDestroy: bool, embeddable: bool, t: Tally, i: nat, a: Attrs, k: nat)
    requires !Blank(Get(a, "_id")) && FirstMatchAt(t.slots, a, k) && !DestroyBranch(v, a, allowDestroy)
    ensures var s := Step(v, allowDestroy, embeddable, t, i, a);
            |s.slots| == |t.slots| && s.events == t.events &&
            match t.slots[k]
            case Existing(_, d) => s.slots == t.slots && s.attrs == t.attrs[d := AttrsOf(t.attrs, d) + Assignable(a)]
            case Created(e, ca) => s.attrs == t.attrs && s.slots == t.slots[k := Created(e, ca + Assignable(a))]
  {
    FirstMatchIsFound(t, a, k);
  }

  /** Removing position `k` shifts the later entries down by one. */
  lemma RemovedAt<T>(s: seq<T>, k: nat)
    requires k < |s|
    ensures |s[..k] + s[k + 1..]| == |s| - 1
    ensures forall j :: 0 <= j < |s| - 1 ==> (s[..k] + s[k + 1..])[j] == if j < k then s[j] else s[j + 1]
  {
  }

  /**
   * The shape of the member list after any prefix of the payload: first the
   * surviving members from before the call, in their original order, then
   * the surviving created records in payload order, each one created from an
   * element with a blank `_id`.
   */
  ghost predicate WellOrdered(slots: seq<Entry>, ds: seq<Doc>, items: seq<Attrs>) {
    (forall k :: 0 <= k < |slots| && slots[k].Existing? ==>
       slots[k].position < |ds| && slots[k].doc == ds[slots[k].position]) &&
    (forall k :: 0 <= k < |slots| && slots[k].Created? ==>
       slots[k].element < |items| && Blank(Get(items[slots[k].element], "_id"))) &&
    (forall j, k :: 0 <= j < k < |slots| && slots[k].Existing? ==>
       slots[j].Existing? && slots[j].position < slots[k].position) &&
    (forall j, k :: 0 <= j < k < |slots| && slots[j].Created? && slots[k].Created? ==>
       slots[j].element < slots[k].element)
  }

  /** The shape survives one more element that leaves the list alone. */
  lemma WellOrderedGrow(slots: seq<Entry>, ds: seq<Doc>, items: seq<Attrs>)
    requires |items| > 0
    requires WellOrdered(slots, ds, items[..|items| - 1])
    ensures WellOrdered(slots, ds, items)
  {
    var n := |items| - 1;
    assert forall e :: 0 <= e < n ==> items[..n][e] == items[e];
  }

  lemma WellOrderedAppend(slots: seq<Entry>, ds: seq<Doc>, items: seq<Attrs>)
    requires |items| > 0 && Blank(Get(items[|items| - 1], "_id"))
    requires WellOrdered(slots, ds, items[..|items| - 1])
    ensures WellOrdered(slots + [Created(|items| - 1, items[|items| - 1])], ds, items)
  {
    WellOrderedGrow(slots, ds, items);
    var r := slots + [Created(|items| - 1, items[|items| - 1])];
    assert forall k :: 0 <= k < |slots| ==> r[k] == slots[k];
  }

  lemma WellOrderedRemove(slots: seq<Entry>, ds: seq<Doc>, items: seq<Attrs>, k: nat)
    requires k < |slots| && WellOrdered(slots, ds, items)
    ensures WellOrdered(slots[..k] + slots[k + 1..], ds, items)
  {
    RemovedAt(slots, k);
  }

  lemma WellOrderedUpdate(slots: seq<Entry>, ds: seq<Doc>, items: seq<Attrs>, k: nat, x: Attrs)
    requires k < |slots| && slots[k].Created? && WellOrdered(slots, ds, items)
    ensures WellOrdered(slots[k := Created(slots[k].element, x)], ds, items)
  {
  }

  lemma StepWellOrdered(v: Variant, allowDestroy: bool, embeddable: bool, t: Tally, ds: seq<Doc>, items: seq<Attrs>)
    requires |items| > 0
    requires WellOrdered(t.slots, ds, items[..|items| - 1])
    ensures WellOrdered(Step(v, allowDestroy, embeddable, t, |items| - 1, items[|items| - 1]).slots, ds, items)
  {
    var n := |items| - 1;
    var a := items[n];
    var act := Decide(v, allowDestroy, Ids(t.slots), a);
    var s := Apply(t, act, n, a, embeddable).slots;
    WellOrderedGrow(t.slots, ds, items);
    match act
    case Append =>
      assert Blank(Get(a, "_id"));
      assert s == t.slots + [Created(n, a)];
      WellOrderedAppend(t.slots, ds, items);
    case Skip =>
      assert s == t.slots;
    case Remove(k) =>
      assert s == t.slots[..k] + t.slots[k + 1..];
      WellOrderedRemove(t.slots, ds, items, k);
    case Update(k) =>
      if t.slots[k].Created? {
        assert s == t.slots[k := Created(t.slots[k].element, t.slots[k].attrs + Assignable(a))];
        WellOrderedUpdate(t.slots, ds, items, k, t.slots[k].attrs + Assignable(a));
      } else {
        assert s == t.slots;
      }
  }

  /** Processing the payload keeps the member list in that shape. */
  lemma {:induction false} RunWellOrdered(v: Variant, allowDestroy: bool, embeddable: bool, ds: seq<Doc>, items: seq<Attrs>)
    ensures WellOrdered(Run(v, allowDestroy, embeddable, Start(ds), items).slots, ds, items)
    decreases |items|
  {
    if |items| == 0 {
      assert forall k :: 0 <= k < |ds| ==> Start(ds).slots[k] == Existing(k, ds[k]);
    } else {
      var n := |items| - 1;
      RunWellOrdered(v, allowDestroy, embeddable, ds, items[..n]);
      StepWellOrdered(v, allowDestroy, embeddable, Run(v, allowDestroy, embeddable, Start(ds), items[..n]), ds, items);
    }
  }

  /** The number of elements with a blank `_id`. */
  function BlankCount(items: seq<Attrs>): (c: nat)
    ensures c <= |items|
    decreases |items|
  {
    if |items| == 0 then 0
    else BlankCount(items[..|items| - 1]) + if Blank(Get(items[|items| - 1], "_id")) then 1 else 0
  }

  /**
   * Each element with a blank `_id` adds one record, each other element
   * removes at most one, and the store requests only accumulate, at most one
   * per element.
   */
  lemma {:induction false} RunBounds(v: Variant, allowDestroy: bool, embeddable: bool, t: Tally, items: seq<Attrs>)
    ensures var r := Run(v, allowDestroy, embeddable, t, items);
            |t.slots| + BlankCount(items) - (|items| - BlankCount(items)) <= |r.slots| <= |t.slots| + BlankCount(items) &&
            t.events <= r.events && |r.events| <= |t.events| + |items|
    decreases |items|
  {
    if |items| > 0 {
      RunBounds(v, allowDestroy, embeddable, t, items[..|items| - 1]);
    }
  }

  /** One step of the plugin version without `allow_destroy` keeps the first `m` slots when they are existing members. */
  lemma PluginStepKeepsPrefix(embeddable: bool, p: Tally, m: nat, i: nat, a: Attrs)
    requires m <= |p.slots| && forall k :: 0 <= k < m ==> p.slots[k].Existing?
    ensures var r := Step(PluginVersion, false, embeddable, p, i, a);
            |r.slots| == |p.slots| + (if Blank(Get(a, "_id")) then 1 else 0) &&
            r.slots[..m] == p.slots[..m] &&
            r.events == p.events
  {
    var act := Decide(PluginVersion, false, Ids(p.slots), a);
    var r := Apply(p, act, i, a, embeddable);
    assert !act.Remove?;
    match act
    case Append =>
      assert r.slots[..m] == p.slots[..m];
    case Skip =>
    case Update(k) =>
      if p.slots[k].Created? {
        assert r.slots[..m] == p.slots[..m];
      }
  }

  /**
   * In the plugin version without `allow_destroy`, nothing is ever removed
   * or destroyed: every earlier member stays in place, and the list grows by
   * exactly one record per element with a blank `_id`.
   */
  lemma {:induction false} PluginWithoutAllowDestroyNeverRemoves(embeddable: bool, t: Tally, items: seq<Attrs>)
    requires forall k :: 0 <= k < |t.slots| ==> t.slots[k].Existing?
    ensures var r := Run(PluginVersion, false, embeddable, t, items);
            |r.slots| == |t.slots| + BlankCount(items) &&
            r.slots[..|t.slots|] == t.slots &&
            r.events == t.events
    decreases |items|
  {
    if |items| > 0 {
      var n := |items| - 1;
      var p := Run(PluginVersion, false, embeddable, t, items[..n]);
      PluginWithoutAllowDestroyNeverRemoves(embeddable, t, items[..n]);
      var m := |t.slots|;
      assert forall k :: 0 <= k < m ==> p.slots[k] == p.slots[..m][k];
      PluginStepKeepsPrefix(embeddable, p, m, n, items[n]);
    }
  }

  /**
   * With `allow_destroy` set, or with no element carrying a `_destroy` flag,
   * the two versions do exactly the same thing.
   */
  lemma {:induction false} VariantsAgree(allowDestroy: bool, embeddable: bool, t: Tally, items: seq<Attrs>)
    requires allowDestroy || forall k :: 0 <= k < |items| ==> !HasDestroyFlag(items[k])
    ensures Run(PluginVersion, allowDestroy, embeddable, t, items) == Run(LegacyVersion, allowDestroy, embeddable, t, items)
    decreases |items|
  {
    if |items| > 0 {
      var n := |items| - 1;
      VariantsAgree(allowDestroy, embeddable, t, items[..n]);
      var p := Run(PluginVersion, allowDestroy, embeddable, t, items[..n]);
      assert DestroyBranch(PluginVersion, items[n], allowDestroy) == DestroyBranch(LegacyVersion, items[n], allowDestroy);
    }
  }

  /**
   * The version difference made explicit: only the plugin version reads
   * `allow_destroy`; the older one gives the same result whatever it is.
   */
  lemma {:induction false} LegacyIgnoresAllowDestroy(embeddable: bool, t: Tally, items: seq<Attrs>)
    ensures Run(LegacyVersion, true, embeddable, t, items) == Run(LegacyVersion, false, embeddable, t, items)
    decreases |items|
  {
    if |items| > 0 {
      var n := |items| - 1;
      LegacyIgnoresAllowDestroy(embeddable, t, items[..n]);
      var p := Run(LegacyVersion, true, embeddable, t, items[..n]);
      assert DestroyBranch(LegacyVersion, items[n], true) == DestroyBranch(LegacyVersion, items[n], false);
      assert Decide(LegacyVersion, true, Ids(p.slots), items[n]) == Decide(LegacyVersion, false, Ids(p.slots), items[n]);
    }
  }

  /** A flagged element matching an existing member removes it in the older version even without `allow_destroy`, and never in the plugin version. */
  lemma VersionsDifferOnFlaggedMatch(embeddable: bool, t: Tally, i: nat, a: Attrs)
    requires !Blank(Get(a, "_id")) && HasDestroyFlag(a)
    requires exists k :: 0 <= k < |t.slots| && ToS(EntryId(t.slots[k])) == ToS(Get(a, "_id"))
    ensures |Step(LegacyVersion, false, embeddable, t, i, a).slots| == |t.slots| - 1
    ensures |Step(PluginVersion, false, embeddable, t, i, a).slots| == |t.slots|
  {
    var k :| 0 <= k < |t.slots| && ToS(EntryId(t.slots[k])) == ToS(Get(a, "_id"));
    assert Ids(t.slots)[k] == EntryId(t.slots[k]);
  }

  /** An embeddable target never receives a storage destroy. */
  lemma {:induction false} EmbeddableTargetIsNeverDestroyed(v: Variant, allowDestroy: bool, t: Tally, items: seq<Attrs>)
    ensures Run(v, allowDestroy, true, t, items).events == t.events
    decreases |items|
  {
    if |items| > 0 {
      EmbeddableTargetIsNeverDestroyed(v, allowDestroy, t, items[..|items| - 1]);
    }
  }

  /** Every existing entry is the member of `ds` at its recorded position. */
  ghost predicate FromMembers(slots: seq<Entry>, ds: seq<Doc>) {
    forall k :: 0 <= k < |slots| && slots[k].Existing? ==>
      slots[k].position < |ds| && slots[k].doc == ds[slots[k].position]
  }

  /** Every event is a storage destroy of nil or of the id of a member of `ds`. */
  ghost predicate DestroysMembers(events: seq<StoreEvent>, ds: seq<Doc>) {
    forall e :: e in events ==> e.Destroyed? && (e.id == Nil || exists p :: 0 <= p < |ds| && ds[p].id == e.id)
  }

  lemma StepDestroysMembers(v: Variant, allowDestroy: bool, t: Tally, ds: seq<Doc>, i: nat, a: Attrs)
    requires FromMembers(t.slots, ds) && DestroysMembers(t.events, ds)
    ensures DestroysMembers(Step(v, allowDestroy, false, t, i, a).events, ds)
  {
    var act := Decide(v, allowDestroy, Ids(t.slots), a);
    match act
    case Remove(k) =>
      var e := Destroyed(EntryId(t.slots[k]));
      assert Apply(t, act, i, a, false).events == t.events + [e];
      if t.slots[k].Existing? {
        var q := t.slots[k].position;
        assert q < |ds| && ds[q].id == e.id;
      }
    case Append =>
    case Skip =>
    case Update(_) =>
  }

  lemma {:induction false} RunDestroysMembers(v: Variant, allowDestroy: bool, ds: seq<Doc>, items: seq<Attrs>)
    ensures DestroysMembers(Run(v, allowDestroy, false, Start(ds), items).events, ds)
    decreases |items|
  {
    if |items| > 0 {
      var n := |items| - 1;
      var p := Run(v, allowDestroy, false, Start(ds), items[..n]);
      RunDestroysMembers(v, allowDestroy, ds, items[..n]);
      RunWellOrdered(v, allowDestroy, false, ds, items[..n]);
      assert FromMembers(p.slots, ds);
      StepDestroysMembers(v, allowDestroy, p, ds, n, items[n]);
    }
  }

  /** Every storage destroy names the id of a member that was removed: an existing member's id, or nil for a created record. */
  lemma DestroyedIdsComeFromMembers(v: Variant, allowDestroy: bool, ds: seq<Doc>, items: seq<Attrs>)
    ensures forall e :: e in Run(v, allowDestroy, false, Start(ds), items).events ==>
              e.Destroyed? && (e.id == Nil || exists p :: 0 <= p < |ds| && ds[p].id == e.id)
  {
    RunDestroysMembers(v, allowDestroy, ds, items);
  }

  /**
   * Updates never touch `id`, `_id` or `_destroy` of an existing member, and the
   * attributes of no other document are tracked or changed.
   */
  ghost predicate TracksMembers(t: Tally) {
    forall k :: 0 <= k < |t.slots| && t.slots[k].Existing? ==> t.slots[k].doc in t.attrs
  }

  ghost predicate ReservedAgree(before: map<Doc, Attrs>, after: map<Doc, Attrs>) {
    after.Keys == before.Keys &&
    forall d, key :: d in before && key in UnassignableKeys ==> Get(after[d], key) == Get(before[d], key)
  }

  /** Merging the assignable part of an element into a tracked member leaves every reserved key as it was. */
  lemma MergeKeepsReserved(attrs: map<Doc, Attrs>, d: Doc, a: Attrs)
    requires d in attrs
    ensures ReservedAgree(attrs, attrs[d := AttrsOf(attrs, d) + Assignable(a)])
  {
    var after := attrs[d := AttrsOf(attrs, d) + Assignable(a)];
    forall d', key | d' in attrs && key in UnassignableKeys
      ensures Get(after[d'], key) == Get(attrs[d'], key)
    {
      if d' == d {
        assert key !in Assignable(a);
      }
    }
  }

  /** A step keeps every existing slot's member tracked. */
  lemma StepTracksMembers(v: Variant, allowDestroy: bool, embeddable: bool, t: Tally, i: nat, a: Attrs)
    requires TracksMembers(t)
    ensures TracksMembers(Step(v, allowDestroy, embeddable, t, i, a))
  {
    var act := Decide(v, allowDestroy, Ids(t.slots), a);
    var r := Apply(t, act, i, a, embeddable);
    match act
    case Append =>
      assert r.attrs == t.attrs && r.slots == t.slots + [Created(i, a)];
    case Skip =>
    case Remove(k) =>
      assert r.attrs == t.attrs && r.slots == t.slots[..k] + t.slots[k + 1..];
      RemovedAt(t.slots, k);
    case Update(k) =>
      match t.slots[k]
      case Existing(_, d) =>
        assert r.slots == t.slots && r.attrs.Keys == t.attrs.Keys;
      case Created(e, ca) =>
        assert r.attrs == t.attrs && r.slots == t.slots[k := Created(e, ca + Assignable(a))];
  }

  /** A step changes no reserved key of a tracked member and tracks no new document. */
  lemma StepKeepsReserved(v: Variant, allowDestroy: bool, embeddable: bool, t: Tally, i: nat, a: Attrs)
    requires TracksMembers(t)
    ensures ReservedAgree(t.attrs, Step(v, allowDestroy, embeddable, t, i, a).attrs)
  {
    var act := Decide(v, allowDestroy, Ids(t.slots), a);
    var r := Apply(t, act, i, a, embeddable);
    match act
    case Append =>
      assert r.attrs == t.attrs;
    case Skip =>
    case Remove(k) =>
      assert r.attrs == t.attrs;
    case Update(k) =>
      match t.slots[k]
      case Existing(_, d) =>
        assert d in t.attrs;
        assert r.attrs == t.attrs[d := AttrsOf(t.attrs, d) + Assignable(a)];
        MergeKeepsReserved(t.attrs, d, a);
      case Created(e, ca) =>
        assert r.attrs == t.attrs;
  }

  lemma {:induction false} ReservedKeysKept(v: Variant, allowDestroy: bool, embeddable: bool, t: Tally, items: seq<Attrs>)
    requires TracksMembers(t)
    ensures TracksMembers(Run(v, allowDestroy, embeddable, t, items))
    ensures ReservedAgree(t.attrs, Run(v, allowDestroy, embeddable, t, items).attrs)
    decreases |items|
  {
    if |items| > 0 {
      var n := |items| - 1;
      ReservedKeysKept(v, allowDestroy, embeddable, t, items[..n]);
      var p := Run(v, allowDestroy, embeddable, t, items[..n]);
      StepTracksMembers(v, allowDestroy, embeddable, p, n, items[n]);
      StepKeepsReserved(v, allowDestroy, embeddable, p, n, items[n]);
    }
  }

  // ---------------------------------------------------------------------------
  // The assigner
  // ---------------------------------------------------------------------------

  /**
   * The proxy's list `ts` is in step with `t`: an existing entry is that very
   * document; a created entry is a new unsaved document of the association's
   * class with no id, the entry's attributes and the proxy's root, distinct
   * from every other created one and from every tracked one; every tracked
   * document carries the tracked attributes.
   */
  ghost predicate Mirrors(ts: seq<Doc>, t: Tally, root: Doc?, kind: DocKind)
    reads ts, t.attrs.Keys
  {
    |ts| == |t.slots| &&
    (forall k :: 0 <= k < |ts| && t.slots[k].Existing? ==> ts[k] == t.slots[k].doc && ts[k] in t.attrs) &&
    (forall k :: 0 <= k < |ts| && t.slots[k].Created? ==>
       ts[k] !in t.attrs && ts[k].id == Nil && ts[k].kind == kind && ts[k].attributes == t.slots[k].attrs &&
       ts[k].root == root && ts[k].isNew && ts[k].proxies == map[]) &&
    (forall j, k :: 0 <= j < k < |ts| && t.slots[j].Created? && t.slots[k].Created? ==> ts[j] != ts[k]) &&
    (forall d :: d in t.attrs ==> d.attributes == t.attrs[d])
  }

  lemma MirroredIds(ts: seq<Doc>, t: Tally, root: Doc?, kind: DocKind)
    requires Mirrors(ts, t, root, kind)
    ensures DocIds(ts) == Ids(t.slots)
  {
  }

  /** Before the first element, the list mirrors its own start state. */
  lemma MirrorsStart(ds: seq<Doc>, root: Doc?, kind: DocKind)
    ensures Mirrors(ds, Start(ds), root, kind)
  {
    var t := Start(ds);
    assert forall k :: 0 <= k < |ds| ==> t.slots[k] == Existing(k, ds[k]) && ds[k] in t.attrs;
  }

  lemma MirrorsRemove(ts: seq<Doc>, t: Tally, k: nat, root: Doc?, kind: DocKind, events: seq<StoreEvent>)
    requires k < |ts| && Mirrors(ts, t, root, kind)
    ensures Mirrors(ts[..k] + ts[k + 1..], t.(slots := t.slots[..k] + t.slots[k + 1..], events := events), root, kind)
  {
    RemovedAt(ts, k);
    RemovedAt(t.slots, k);
  }

  /** Every member of the list is in `pool`. */
  ghost predicate InPool(ts: seq<Doc>, pool: set<Doc>) {
    forall k :: 0 <= k < |ts| ==> ts[k] in pool
  }

  /** A blank `_id`: `proxy << klass.new(attributes)`. */
  method AppendCreated(proxy: Proxy, ghost t: Tally, i: nat, a: Attrs, ghost pool: set<Doc>) returns (doc: Doc)
    requires Mirrors(proxy.target, t, proxy.RootDocument(), TargetKind(proxy.association))
    requires InPool(proxy.target, pool)
    modifies proxy
    ensures Mirrors(proxy.target, Apply(t, Append, i, a, proxy.association.embeddable),
                    proxy.RootDocument(), TargetKind(proxy.association))
    ensures proxy.RootDocument() == old(proxy.RootDocument())
    ensures fresh(doc) && proxy.target == old(proxy.target) + [doc]
    ensures InPool(proxy.target, pool + {doc})
    ensures forall d :: d in pool ==>
              d.root == old(d.root) && d.isNew == old(d.isNew) && d.proxies == old(d.proxies)
  {
    doc := new Doc(TargetKind(proxy.association), Nil, a);
    proxy.Push([doc]);
    assert doc !in t.attrs;
  }

  /** A match outside the destroy branch: `existing_record.attributes = attributes.except(...)`. */
  method UpdateMember(proxy: Proxy, ghost t: Tally, k: nat, m: Doc, i: nat, a: Attrs, ghost pool: set<Doc>)
    requires k < |proxy.target| && m == proxy.target[k]
    requires Mirrors(proxy.target, t, proxy.RootDocument(), TargetKind(proxy.association))
    modifies m`attributes
    ensures Mirrors(proxy.target, Apply(t, Update(k), i, a, proxy.association.embeddable),
                    proxy.RootDocument(), TargetKind(proxy.association))
    ensures forall d :: d in pool ==>
              d.root == old(d.root) && d.isNew == old(d.isNew) && d.proxies == old(d.proxies)
  {
    m.AssignAttributes(Assignable(a));
  }

  /** `delete(existing_record)`: the member at `k` leaves the list, and the tally drops its slot. */
  method DeleteMember(proxy: Proxy, ghost t: Tally, k: nat, ghost root: Doc?, ghost kind: DocKind,
                      ghost events: seq<StoreEvent>, ghost pool: set<Doc>)
    requires k < |proxy.target| && InPool(proxy.target, pool)
    requires root == proxy.RootDocument()
    requires Mirrors(proxy.target, t, root, kind)
    modifies proxy
    ensures Mirrors(proxy.target, t.(slots := t.slots[..k] + t.slots[k + 1..], events := events), root, kind)
    ensures proxy.RootDocument() == root
    ensures proxy.target == old(proxy.target)[..k] + old(proxy.target)[k + 1..]
    ensures InPool(proxy.target, pool)
  {
    MirrorsRemove(proxy.target, t, k, root, kind, events);
    RemovedAt(proxy.target, k);
    proxy.DeleteAt(k);
  }

  /** A match in the destroy branch: `delete(existing_record)`, then `existing_record.destroy` unless embeddable. */
  method RemoveMember(proxy: Proxy, ghost t: Tally, k: nat, i: nat, a: Attrs, store: Store, ghost log0: seq<StoreEvent>,
                      ghost pool: set<Doc>)
    requires k < |proxy.target| && InPool(proxy.target, pool)
    requires Mirrors(proxy.target, t, proxy.RootDocument(), TargetKind(proxy.association))
    requires store.log == log0 + t.events
    modifies proxy, store
    ensures Mirrors(proxy.target, Apply(t, Remove(k), i, a, proxy.association.embeddable),
                    proxy.RootDocument(), TargetKind(proxy.association))
    ensures store.log == log0 + Apply(t, Remove(k), i, a, proxy.association.embeddable).events
    ensures proxy.RootDocument() == old(proxy.RootDocument())
    ensures proxy.target == old(proxy.target)[..k] + old(proxy.target)[k + 1..]
    ensures InPool(proxy.target, pool)
    ensures forall d :: d in pool ==>
              d.root == old(d.root) && d.isNew == old(d.isNew) && d.proxies == old(d.proxies)
  {
    ghost var root := proxy.RootDocument();
    ghost var kind := TargetKind(proxy.association);
    ghost var s := Apply(t, Remove(k), i, a, proxy.association.embeddable);
    assert s == t.(slots := t.slots[..k] + t.slots[k + 1..], events := s.events);
    var m := proxy.target[k];
    assert EntryId(t.slots[k]) == m.id;
    DeleteMember(proxy, t, k, root, kind, s.events, pool);
    if !proxy.association.embeddable {
      store.Record(Destroyed(m.id));
    }
  }

  /**
   * One element of the payload against the proxy's current list; `s` is the
   * tally after it and `created` the records it made.
   */
  method AssignElement(v: Variant, allowDestroy: bool, proxy: Proxy, ghost t: Tally, i: nat, a: Attrs,
                       store: Store, ghost log0: seq<StoreEvent>, ghost root: Doc?, ghost kind: DocKind,
                       ghost pool: set<Doc>)
    returns (ghost s: Tally, ghost created: set<Doc>)
    requires root == proxy.RootDocument() && kind == TargetKind(proxy.association)
    requires Mirrors(proxy.target, t, root, kind)
    requires store.log == log0 + t.events
    requires InPool(proxy.target, pool)
    modifies proxy, store, pool
    ensures s == Step(v, allowDestroy, proxy.association.embeddable, t, i, a)
    ensures Mirrors(proxy.target, s, root, kind)
    ensures store.log == log0 + s.events
    ensures proxy.RootDocument() == root
    ensures fresh(created) && InPool(proxy.target, pool + created)
    ensures forall d :: d in pool ==>
              d.root == old(d.root) && d.isNew == old(d.isNew) && d.proxies == old(d.proxies)
  {
    ghost var emb := proxy.association.embeddable;
    MirroredIds(proxy.target, t, root, kind);
    var act := Decide(v, allowDestroy, DocIds(proxy.target), a);
    s := Apply(t, act, i, a, emb);
    assert Step(v, allowDestroy, emb, t, i, a) == s;
    created := {};
    match act {
      case Append =>
        var doc := AppendCreated(proxy, t, i, a, pool);
        created := {doc};
        assert s.events == t.events;
      case Update(k) =>
        UpdateMember(proxy, t, k, proxy.target[k], i, a, pool);
        assert s.events == t.events;
      case Remove(k) =>
        RemoveMember(proxy, t, k, i, a, store, log0, pool);
      case Skip =>
    }
  }

  /** One more element is one more step. */
  lemma RunSnoc(v: Variant, allowDestroy: bool, embeddable: bool, t: Tally, items: seq<Attrs>, i: nat)
    requires i < |items|
    ensures Run(v, allowDestroy, embeddable, t, items[..i + 1]) ==
            Step(v, allowDestroy, embeddable, Run(v, allowDestroy, embeddable, t, items[..i]), i, items[i])
  {
    assert items[..i + 1][..i] == items[..i];
  }

  /**
   * The `each` loop: the elements in order, each against the list the earlier
   * ones left; `pool` holds the members before the loop.
   */
  method AssignElements(v: Variant, allowDestroy: bool, proxy: Proxy, items: seq<Attrs>, store: Store, ghost pool: set<Doc>)
    requires InPool(proxy.target, pool)
    modifies proxy, store, pool
    ensures var t := Run(v, allowDestroy, proxy.association.embeddable, old(Start(proxy.target)), items);
            Mirrors(proxy.target, t, old(proxy.RootDocument()), TargetKind(proxy.association)) &&
            store.log == old(store.log) + t.events
    ensures forall k :: 0 <= k < |proxy.target| ==> proxy.target[k] in pool || fresh(proxy.target[k])
    ensures forall d :: d in pool ==>
              d.root == old(d.root) && d.isNew == old(d.isNew) && d.proxies == old(d.proxies)
    ensures proxy.RootDocument() == old(proxy.RootDocument())
  {
    ghost var t0 := Start(proxy.target);
    ghost var log0 := store.log;
    ghost var root := proxy.RootDocument();
    ghost var emb := proxy.association.embeddable;
    ghost var kind := TargetKind(proxy.association);
    MirrorsStart(proxy.target, root, kind);
    assert items[..0] == [];
    var i := 0;
    ghost var t := t0;
    ghost var made: set<Doc> := {};
    while i < |items|
      invariant 0 <= i <= |items|
      invariant t == Run(v, allowDestroy, emb, t0, items[..i])
      invariant Mirrors(proxy.target, t, root, kind)
      invariant store.log == log0 + t.events
      invariant proxy.RootDocument() == root
      invariant fresh(made) && InPool(proxy.target, pool + made)
      invariant forall d :: d in pool ==>
                  d.root == old(d.root) && d.isNew == old(d.isNew) && d.proxies == old(d.proxies)
    {
      RunSnoc(v, allowDestroy, emb, t0, items, i);
      ghost var c;
      t, c := AssignElement(v, allowDestroy, proxy, t, i, items[i], store, log0, root, kind, pool + made);
      made := made + c;
      i := i + 1;
    }
    assert items[..i] == items;
  }

  /** The members tracked from the start are exactly the members before the call. */
  lemma StartTracks(ds: seq<Doc>, d: Doc)
    ensures d in Start(ds).attrs <==> d in ds
  {
  }

  /**
   * `assign_nested_attributes_for_association` on the association whose proxy
   * is `proxy`, with `allow_destroy` as the writer passes it. A payload that
   * is neither a hash nor a list fails and changes nothing. Otherwise the
   * elements are processed in order (a hash by `to_i` of its keys) and the
   * list, the attributes of the earlier members and the store requests end up
   * as `Run` says: earlier members are the same objects, created records are
   * new objects rooted at the proxy's root, and no other field of an earlier
   * member changes.
   */
  method AssignNestedAttributesForAssociation(
    v: Variant, proxy: Proxy, payload: Payload, allowDestroy: bool, store: Store) returns (r: Outcome)
    modifies proxy, proxy.target, store
    ensures payload.OtherPayload? ==>
              r == Fail(HashOrArrayExpected) && proxy.target == old(proxy.target) && store.log == old(store.log)
    ensures payload.OtherPayload? ==> forall d :: d in old(proxy.target) ==> d.attributes == old(d.attributes)
    ensures !payload.OtherPayload? ==> r == Pass
    ensures !payload.OtherPayload? ==>
              var t := Run(v, allowDestroy, proxy.association.embeddable, old(Start(proxy.target)), Normalize(payload).value);
              Mirrors(proxy.target, t, old(proxy.RootDocument()), TargetKind(proxy.association)) &&
              store.log == old(store.log) + t.events &&
              forall k :: 0 <= k < |proxy.target| && t.slots[k].Created? ==> fresh(proxy.target[k])
    ensures forall d, key :: d in old(proxy.target) && key in UnassignableKeys ==>
              Get(d.attributes, key) == Get(old(d.attributes), key)
    ensures forall d :: d in old(proxy.target) ==>
              d.root == old(d.root) && d.isNew == old(d.isNew) && d.proxies == old(d.proxies)
    ensures proxy.RootDocument() == old(proxy.RootDocument())
  {
    var items: seq<Attrs>;
    match Normalize(payload) {
      case Err(e) =>
        return Fail(e);
      case Ok(list) =>
        items := list;
    }
    ghost var t0 := Start(proxy.target);
    ghost var before := proxy.target;
    ghost var pool := set d | d in proxy.target;
    AssignElements(v, allowDestroy, proxy, items, store, pool);
    assert forall d :: d in before ==> d in pool;
    ghost var t := Run(v, allowDestroy, proxy.association.embeddable, t0, items);
    ReservedKeysKept(v, allowDestroy, proxy.association.embeddable, t0, items);
    forall k | 0 <= k < |proxy.target| && t.slots[k].Created?
      ensures fresh(proxy.target[k])
    {
      StartTracks(before, proxy.target[k]);
    }
    forall d, key | d in before && key in UnassignableKeys
      ensures Get(d.attributes, key) == Get(old(d.attributes), key)
    {
      assert d in t0.attrs && t0.attrs[d] == old(d.attributes);
    }
    r := Pass;
  }

  /** The list of the proxy cached on `doc` under `name`; a proxy not yet made has none. */
  ghost function CachedTarget(doc: Doc, name: string): seq<Doc>
    reads doc, doc.proxies.Values
  {
    if name in doc.proxies then doc.proxies[name].target else []
  }

  /**
   * The `<name>_attributes=` writer that `accepts_nested_attributes_for`
   * defines on `cls`: fetch the association's proxy through the cache and run
   * the assigner with the `allow_destroy` the declaration fixed. What the
   * assigner promises about the proxy's list holds of the list cached before
   * the call (none when the proxy is made by the call).
   */
  method NestedAttributesWriter(v: Variant, cls: DocClass, doc: Doc, name: string, payload: Payload, store: Store)
    returns (r: Outcome, p: Proxy)
    requires name in cls.nestedWriters && name in cls.associations && cls.associations[name].name == name
    modifies doc`proxies, store
    modifies if name in doc.proxies then {doc.proxies[name]} else {}
    modifies if name in doc.proxies then doc.proxies[name].target else []
    ensures name in doc.proxies && p == doc.proxies[name]
    ensures name in old(doc.proxies) ==> p == old(doc.proxies[name]) && doc.proxies == old(doc.proxies)
    ensures name !in old(doc.proxies) ==>
              fresh(p) && p.owner == doc && p.association == cls.associations[name] &&
              doc.proxies == old(doc.proxies)[name := p]
    ensures p.RootDocument() ==
              if name in old(doc.proxies) then old(doc.proxies[name].RootDocument())
              else old(if Embeddable(doc.kind) then doc.root else doc)
    ensures payload.OtherPayload? ==>
              r == Fail(HashOrArrayExpected) && store.log == old(store.log) &&
              p.target == old(CachedTarget(doc, name)) &&
              forall d :: d in old(CachedTarget(doc, name)) ==> d.attributes == old(d.attributes)
    ensures !payload.OtherPayload? ==>
              var t := Run(v, cls.nestedWriters[name], p.association.embeddable,
                           old(Start(CachedTarget(doc, name))), Normalize(payload).value);
              r == Pass &&
              Mirrors(p.target, t, p.RootDocument(), TargetKind(p.association)) &&
              store.log == old(store.log) + t.events &&
              forall k :: 0 <= k < |p.target| && t.slots[k].Created? ==> fresh(p.target[k])
    ensures forall d, key :: d in old(CachedTarget(doc, name)) && key in UnassignableKeys ==>
              Get(d.attributes, key) == Get(old(d.attributes), key)
    ensures forall d :: d in old(CachedTarget(doc, name)) ==>
              d.root == old(d.root) && d.isNew == old(d.isNew) && d.proxies == old(d.proxies)
  {
    ghost var before := CachedTarget(doc, name);
    ghost var t0 := Start(before);
    p := doc.GetProxy(cls.associations[name]);
    assert p.target == before;
    assert before != [] ==> doc.proxies == old(doc.proxies);
    assert Start(p.target) == t0;
    label fetched:
    r := AssignNestedAttributesForAssociation(v, p, payload, cls.nestedWriters[name], store);
    forall d, key | d in before && key in UnassignableKeys
      ensures Get(d.attributes, key) == Get(old(d.attributes), key)
    {
      assert old@fetched(d.attributes) == old(d.attributes);
    }
  }
}
