/**
 * Concrete situations from the functional tests, each built on fresh objects;
 * the stated outcomes are proved from the model's contracts.
 */
module Scenarios {
  import opened Values
  import opened Descriptors
  import opened Documents
  import opened Payloads
  import opened Associations
  import opened NestedAttributes

  const Players := Descriptor(Many, "players", map[], true)
  const Games := Descriptor(Many, "games", map[], false)
  const Pets := Descriptor(Many, "pets", map[], true)
  /** `many :retired_players, :class => Player`: embedded players under a name that is not their class's. */
  const RetiredPlayers := Descriptor(Many, "retired_players", map["class" := Str("Player")], true)

  /** The classes the tests define, by the association names that classify to them. */
  const TestConstants: map<string, DocKind> := map["players" := EmbeddedDocument, "games" := Document, "coach" := Document]

  /**
   * Looking the class up from the association's name, as lines 48 and 52 do,
   * finds `Player` for `players` but nothing for `retired_players`, whose class
   * the declaration names; the declaration itself says the target is embedded.
   */
  lemma CustomClassNameIsNotFound()
    ensures ClassFromName(TestConstants, Players.name) == Ok(TargetKind(Players))
    ensures ClassFromName(TestConstants, RetiredPlayers.name) == Err(UninitializedConstant("retired_players"))
    ensures TargetKind(RetiredPlayers) == EmbeddedDocument
  {
    assert RetiredPlayers.name !in TestConstants;
  }

  /** `retired_players_attributes => [{name: 'Old guy'}]`: one embedded player of the declared class, with that name. */
  method NestedCreateUsesDeclaredClass() returns (size: nat, name: Value, kind: DocKind)
    ensures size == 1 && name == Str("Old guy") && kind == EmbeddedDocument
  {
    var team := new Doc(Document, Oid("team"), map[]);
    var retired := team.GetProxy(RetiredPlayers);
    var store := new Store();
    var payload := ArrayPayload([map["name" := Str("Old guy")]]);
    var r := AssignNestedAttributesForAssociation(PluginVersion, retired, payload, true, store);
    size := retired.Count();
    name := Get(retired.target[0].attributes, "name");
    kind := retired.target[0].kind;
  }

  /** `players_attributes => [{name: 'Normal guy'}]` on a new team: one player, with that name, rooted at the team. */
  method NestedCreateAddsOnePlayer() returns (size: nat, name: Value, rootedAtTeam: bool)
    ensures size == 1 && name == Str("Normal guy") && rootedAtTeam
  {
    var team := new Doc(Document, Oid("team"), map[]);
    var players := team.GetProxy(Players);
    var store := new Store();
    var payload := ArrayPayload([map["name" := Str("Normal guy")]]);
    var r := AssignNestedAttributesForAssociation(PluginVersion, players, payload, true, store);
    size := players.Count();
    name := Get(players.target[0].attributes, "name");
    rootedAtTeam := players.target[0].root == team;
  }

  /** The element `{_id: <player id>, _destroy: true, name: 'Ghost'}` against a team with one player. */
  function FlaggedUpdate(id: Value): Attrs {
    map["_id" := id, "_destroy" := Bool(true), "name" := Str("Ghost")]
  }

  /** A team whose association `assoc` holds one member, and an empty store. */
  method TeamWithOne(assoc: Descriptor, kind: DocKind, id: Value, attrs: Attrs) returns (proxy: Proxy, member: Doc, store: Store)
    ensures fresh(proxy) && fresh(member) && fresh(store)
    ensures proxy.target == [member] && member.id == id && member.attributes == attrs
    ensures store.log == [] && proxy.association == assoc
  {
    var team := new Doc(Document, Oid("team"), map[]);
    proxy := team.GetProxy(assoc);
    member := new Doc(kind, id, attrs);
    proxy.Push([member]);
    store := new Store();
  }

  /** A team with one embedded player. */
  method FlaggedPlayer() returns (players: Proxy, player: Doc, store: Store)
    ensures fresh(players) && fresh(player) && fresh(store)
    ensures players.target == [player] && player.id == Oid("4c1") && player.attributes == map["name" := Str("Normal guy")]
    ensures store.log == [] && players.association == Players
  {
    players, player, store := TeamWithOne(Players, EmbeddedDocument, Oid("4c1"), map["name" := Str("Normal guy")]);
  }

  /**
   * With `allow_destroy: false` the plugin version keeps the flagged player and
   * assigns only its other attributes.
   */
  method PluginKeepsFlaggedPlayer() returns (size: nat, same: bool, name: Value, id: Value, events: nat)
    ensures size == 1 && same && name == Str("Ghost") && id == Oid("4c1") && events == 0
  {
    var players, player, store := FlaggedPlayer();
    ghost var t0 := Start(players.target);
    assert t0.slots == [Existing(0, player)];
    assert Decide(PluginVersion, false, Ids(t0.slots), FlaggedUpdate(Oid("4c1"))) == Update(0);
    var r := AssignNestedAttributesForAssociation(PluginVersion, players, ArrayPayload([FlaggedUpdate(Oid("4c1"))]), false, store);
    size := players.Count();
    same := players.target[0] == player;
    name := Get(player.attributes, "name");
    id := player.id;
    events := |store.log|;
  }

  /** The older version removes the flagged player even with `allow_destroy: false`; players are embedded, so the store is not asked. */
  method LegacyRemovesFlaggedPlayer() returns (size: nat, events: nat)
    ensures size == 0 && events == 0
  {
    var players, player, store := FlaggedPlayer();
    ghost var t0 := Start(players.target);
    assert t0.slots == [Existing(0, player)];
    assert Decide(LegacyVersion, false, Ids(t0.slots), FlaggedUpdate(Oid("4c1"))) == Remove(0);
    var r := AssignNestedAttributesForAssociation(LegacyVersion, players, ArrayPayload([FlaggedUpdate(Oid("4c1"))]), false, store);
    size := players.Count();
    events := |store.log|;
  }

  /** A flagged game (a plain document) is removed and destroyed in the store when destruction is allowed. */
  method DestroyGame() returns (size: nat, log: seq<StoreEvent>)
    ensures size == 0 && log == [Destroyed(Oid("g1"))]
  {
    var games, game, store := TeamWithOne(Games, Document, Oid("g1"), map["opponent" := Str("Other team")]);
    ghost var t0 := Start(games.target);
    assert t0.slots == [Existing(0, game)];
    assert Ids(t0.slots) == [Oid("g1")];
    var a := FlaggedUpdate(Str("g1"));
    assert Get(a, "_id") == Str("g1") && !IsSpace("g1"[0]);
    assert FirstIdMatch(Ids(t0.slots), ToS(Get(a, "_id"))) == Some(0);
    assert Decide(PluginVersion, true, Ids(t0.slots), a) == Remove(0);
    var r := AssignNestedAttributesForAssociation(PluginVersion, games, ArrayPayload([FlaggedUpdate(Str("g1"))]), true, store);
    size := games.Count();
    log := store.log;
  }

  /** An `_id` no member has is skipped: the list, the member and the store are as before. */
  method UnknownIdIsSkipped() returns (size: nat, name: Value, events: nat)
    ensures size == 1 && name == Str("Normal guy") && events == 0
  {
    var players, player, store := FlaggedPlayer();
    ghost var t0 := Start(players.target);
    assert t0.slots == [Existing(0, player)];
    assert Ids(t0.slots) == [Oid("4c1")];
    assert Decide(LegacyVersion, true, Ids(t0.slots), FlaggedUpdate(Oid("4c2"))) == Skip;
    var r := AssignNestedAttributesForAssociation(LegacyVersion, players, ArrayPayload([FlaggedUpdate(Oid("4c2"))]), true, store);
    size := players.Count();
    name := Get(players.target[0].attributes, "name");
    events := |store.log|;
  }

  /** A payload that is neither a hash nor a list is refused. */
  method StringPayloadIsRefused() returns (r: Outcome, size: nat)
    ensures r == Fail(HashOrArrayExpected) && size == 0
  {
    var team := new Doc(Document, Oid("team"), map[]);
    var players := team.GetProxy(Players);
    var store := new Store();
    r := AssignNestedAttributesForAssociation(PluginVersion, players, OtherPayload(Str("players")), true, store);
    size := players.Count();
  }

  /** Two hash entries whose keys read as 1 and 0 come out in the order of those indices. */
  lemma SwappedPairInIndexOrder(k0: string, k1: string, a: Attrs, b: Attrs)
    requires ToI(k0) == 0 && ToI(k1) == 1
    ensures Normalize(HashPayload([(k1, b), (k0, a)])) == Ok([a, b])
  {
    var es := [(k1, b), (k0, a)];
    HashPayloadAsList(es);
    var r := Normalize(HashPayload(es)).value;
    assert r[ToI(es[0].0)] == es[0].1 && r[ToI(es[1].0)] == es[1].1;
    assert r == [a, b];
  }

  /** A hash payload `{"1" => b, "0" => a}` (keys the decimal forms of 1 and 0) is processed as the list `[a, b]`. */
  lemma HashPayloadInKeyOrder(a: Attrs, b: Attrs)
    ensures Normalize(HashPayload([(NatToString(1), b), (NatToString(0), a)])) == Ok([a, b])
  {
    ToIOfIndexKey(0);
    ToIOfIndexKey(1);
    SwappedPairInIndexOrder(NatToString(0), NatToString(1), a, b);
  }

  /** `pet.update_attributes(name: 'koda')` on a player of a saved team: same object, new name, saved through the root. */
  method UpdateAttributesThroughRoot() returns (same: bool, name: Value, result: Option<bool>, isNew: bool, log: seq<StoreEvent>)
    ensures same && name == Str("koda") && result == Some(true) && !isNew
    ensures |log| == 1 && log[0].RootSaved? && !log[0].bang
  {
    var person := new Doc(Document, Oid("p1"), map[]);
    var pets := person.GetProxy(Pets);
    var pet := new Doc(EmbeddedDocument, Oid("pet"), map["name" := Str("sparky")]);
    pets.Push([pet]);
    var store := new Store();
    result := pet.UpdateAttributes(map["name" := Str("koda")], store, true);
    same := pets.target[0] == pet;
    name := Get(pet.attributes, "name");
    isNew := pet.isNew;
    log := store.log;
  }

  /** Saving an embedded document with no root asks for nothing, answers nil and leaves it new. */
  method UnrootedSave() returns (result: Option<bool>, isNew: bool, events: nat)
    ensures result == None && isNew && events == 0
  {
    var pet := new Doc(EmbeddedDocument, Nil, map["name" := Str("sparky")]);
    var store := new Store();
    result := pet.Save(store, true);
    isNew := pet.isNew;
    events := |store.log|;
  }

  /** A failing root save leaves the embedded document new. */
  method FailedRootSave() returns (result: Option<bool>, isNew: bool)
    ensures result == Some(false) && isNew
  {
    var person := new Doc(Document, Oid("p1"), map[]);
    var pets := person.GetProxy(Pets);
    var pet := new Doc(EmbeddedDocument, Nil, map[]);
    pets.Push([pet]);
    var store := new Store();
    result := pet.SaveBang(store, false);
    isNew := pet.isNew;
  }

  /** A toy pushed onto the toys of a dog that lives in a document's pets is rooted at the document. */
  method RootThroughTwoLevels() returns (dogRoot: Doc?, toyRoot: Doc?, doc: Doc)
    ensures dogRoot == doc && toyRoot == doc
  {
    doc := new Doc(Document, Oid("d"), map[]);
    var pets := doc.GetProxy(Pets);
    var dog := new Doc(EmbeddedDocument, Nil, map["name" := Str("sparky")]);
    pets.Push([dog]);
    var toys := dog.GetProxy(Descriptor(Many, "toys", map[], true));
    var toy := toys.Build(map["name" := Str("bone")]);
    dogRoot := dog.root;
    toyRoot := toy.root;
  }

  /** `find` by the id itself and by its string form; `count` is the list's size. */
  method FindByIdOrString() returns (byId: Doc?, byString: Doc?, missing: Doc?, first: Doc, count: nat)
    ensures byId == first && byString == first && missing == null && count == 2
  {
    var person := new Doc(Document, Oid("p1"), map[]);
    var pets := person.GetProxy(Pets);
    first := new Doc(EmbeddedDocument, Oid("a1"), map[]);
    var second := new Doc(EmbeddedDocument, Oid("b2"), map[]);
    pets.Push([first, second]);
    byId := pets.Find(Oid("a1"));
    byString := pets.Find(Str("a1"));
    missing := pets.Find(Str("c3"));
    count := pets.Count();
  }

  /** Asking twice for a document's proxy gives the identical proxy. */
  method ProxyIsCached() returns (p: Proxy, q: Proxy)
    ensures p == q
  {
    var person := new Doc(Document, Oid("p1"), map[]);
    p := person.GetProxy(Pets);
    q := person.GetProxy(Pets);
  }

  /** A subclass's declarations and its parent's stay apart after `inherited`. */
  method InheritanceIsolation() returns (inParent: bool, inSub: bool, parentInSub: bool, laterInSub: bool)
    ensures !inParent && inSub && parentInSub && !laterInSub
  {
    var parent := new DocClass();
    var d := parent.CreateAssociation(Many, "players", map[], true);
    var sub := parent.Inherited();
    var e := sub.CreateAssociation(Many, "games", map[], false);
    var f := parent.CreateAssociation(One, "coach", map[], false);
    inParent := "games" in parent.associations;
    inSub := "games" in sub.associations;
    parentInSub := "players" in sub.associations;
    laterInSub := "coach" in sub.associations;
  }

  /** `accepts_nested_attributes_for :blah` on a class without that association fails. */
  method UnknownAssociationFails() returns (r: Outcome, s: Outcome)
    ensures r == Fail(NoAssociationFound("blah"))
    ensures s == Fail(UnknownOptionKeys({"limit"}))
  {
    var team := new DocClass();
    var d := team.CreateAssociation(Many, "players", map[], true);
    r := team.AcceptsNestedAttributesFor(["blah"], map[]);
    assert NestedOptions(map["limit" := Int(3)]).Keys == {"allow_destroy", "limit"};
    assert {"allow_destroy", "limit"} - NestedOptionKeys == {"limit"};
    s := team.AcceptsNestedAttributesFor(["players"], map["limit" := Int(3)]);
  }

  /** `many :games, dependent: :destroy` on a plain document registers one cascade hook, which destroys all games. */
  method CascadeOnDestroy() returns (hooks: nat, log: seq<StoreEvent>)
    ensures hooks == 1 && log == [Cascaded(DestroyAll, "games")]
  {
    var team := new DocClass();
    var d := team.CreateAssociation(Many, "games", map["dependent" := Sym("destroy")], false);
    var e := team.CreateAssociation(Many, "players", map["dependent" := Sym("destroy")], true);
    hooks := |team.hooks|;
    var doc := new Doc(Document, Oid("t"), map[]);
    var store := new Store();
    RunDestroyHooks(doc, team.hooks, store);
    log := store.log;
  }
}
