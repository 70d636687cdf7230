# MongoMapper associations, embedded collections and nested attributes in Dafny

This project models the core of MongoMapper's association and embedding layer and proves properties of that model. The core has five parts:

- **Nested-attributes assigner** (`assign_nested_attributes_for_association`), in both of its versions:
  - the plugin version, whose destroy branch needs the element's `_destroy` flag *and* the declaration's `allow_destroy`;
  - the older version, whose destroy branch needs the flag alone.

  The assigner:
  1. normalises the payload. A hash is ordered by `to_i` of its keys, a list is taken as it is, and anything else fails with ArgumentError.
  2. walks the elements in order against the association's current member list.
  3. for each element, does one of four things:
     - appends a new record when `_id` is blank;
     - removes and, for a non-embeddable target, destroys the first member whose id reads the same (destroy branch);
     - merges the element minus `id`, `_id` and `_destroy` into that member (update);
     - does nothing when no member matches.

  `accepts_nested_attributes_for` validates its options, defaults `allow_destroy` to false and defines one `<name>_attributes=` writer per declared association. It fails on the first name that has no association.
- **Association registry** (`DocClass`):
  - a name → descriptor map written by `create_association`, where a redeclaration replaces the earlier entry;
  - copied by `inherited`;
  - the `name?` presence predicate, which only singular associations get;
  - the `after_destroy` cascade hook, registered only for non-embedded `many` associations with a truthy `:dependent` option. The hook dispatches on that value: `:destroy` → destroy_all, `:delete_all` → delete_all, `:nullify` → nullify, anything else → nothing.
- **Per-document proxy cache** (`get_proxy`): creates a proxy on first use only, so that repeated calls answer the identical proxy. The `name=` writer replaces the proxy's target and answers the value.
- **Embedded collection proxy** (`Proxy`):
  - an in-memory ordered list;
  - `<<` (also `push` and `concat`) and `build` stamp the proxy's root document on each inserted document;
  - `find` and `count` read the list only;
  - the proxy's root is the owner's own `_root_document` when the owner is embedded, else the owner.
- **Embedded document save delegation**:
  - `save` and `save!` answer the root's result, or nil without asking anything when there is no root;
  - the `new` flag turns false only on a truthy result;
  - `update_attributes` and `update_attributes!` assign first and then save.

Modules, one file each:

- `Values`: Ruby values and the coercions the core relies on (`to_s`, `blank?`, truthiness, `String#to_i`).
- `Descriptors`: association descriptors, the gating rules and the pure declaration table, with lemmas about sequences of declarations.
- `Documents`: the `Doc` and `Proxy` classes and the `Store`.
- `Associations`: the `DocClass` class and the cascade hooks.
- `Payloads`: payload normalisation.
- `NestedAttributes`: the assigner.
- `Scenarios`: concrete situations from the functional tests.

The model does not perform storage effects; it records them. Each storage destroy, bulk cascade and root save is appended to the `Store` event log.

The assigner is specified by a left fold, `NestedAttributes.Run`, over a ghost `Tally`. The tally holds:

- the member list as entries: an existing member at its original position, or a record created from a payload element;
- the attributes of every member that was there before the call;
- the store requests made so far.

The assigner itself is a loop over the payload's elements. It is proved to keep the proxy in step with that fold: the `Mirrors` invariant relates the proxy to the tally. The properties of the two versions are lemmas about `Run`. Both versions are one method with a `Variant` parameter, because the two files are identical apart from the guard on line 50. The same holds for `accepts_nested_attributes_for`, `UNASSIGNABLE_KEYS` and `has_destroy_flag?`, so the rows below cite them once, from the plugin file.

The model follows the code in three places where a reader might expect otherwise:

- The append branch passes the element's attributes to `new` unstripped (lib/mongo_mapper/plugins/nested_attributes.rb:48). A created record therefore keeps its blank `_id` and its `_destroy` key; only updates strip `id`, `_id` and `_destroy`.
- The older version takes the destroy branch on a truthy `_destroy` whatever `allow_destroy` says (lib/mongo_mapper/nested_attributes.rb:50).
- Lines 48 and 52 find the target class from the association's *name* (`classify.constantize`), not from its declaration, so an association declared with `:class` under another name (`many :retired_players, :class => Player`) finds no class. `NestedAttributes.ClassFromName` models that lookup and `Scenarios.CustomClassNameIsNotFound` shows the failure; the assigner itself takes the class from the declaration, which is what the functional tests expect (see Findings).

## Model

| member | source | states |
|---|---|---|
| `Values.ToIOfIndexKey` | lib/mongo_mapper/plugins/nested_attributes.rb:40 | A hash key written as the decimal form of n reads back as n through `to_i`, the sort key of a hash payload. |
| `Values.DigitsValueOfNatToString` | lib/mongo_mapper/plugins/nested_attributes.rb:40 | The decimal digits of n evaluate back to n (the digit round trip behind `to_i`). |
| `Descriptors.CascadeFor` | lib/mongo_mapper/plugins/associations.rb:52-59 | The hook's `case`: `:destroy` dispatches to destroy_all, `:delete_all` to delete_all, `:nullify` to nullify, each if and only if; any other value, symbol or not, dispatches to nothing. |
| `Descriptors.Declare` | lib/mongo_mapper/plugins/associations.rb:31-62 | One `create_association`: the name maps to the new descriptor and every other name keeps its entry or its absence. The presence predicates grow, by this name at most. The hooks grow by at most one, at the end. |
| `Descriptors.DeclareAll` | lib/mongo_mapper/plugins/associations.rb:31-62 | A sequence of declarations never unregisters a name or drops a presence predicate, and appends at most one hook per declaration after the earlier hooks. |
| `Descriptors.DeclareKeepsKeyedByName` | lib/mongo_mapper/plugins/associations.rb:33 | A declaration keeps every registry entry stored under its own descriptor's name. |
| `Descriptors.DeclaredNames` | lib/mongo_mapper/plugins/associations.rb:31-33 | After a sequence of declarations, a name is registered if and only if it was registered before or some declaration used it. |
| `Descriptors.LastDeclarationWins` | lib/mongo_mapper/plugins/associations.rb:33 | Overwrite on redeclare: a name maps to the descriptor of its last declaration. |
| `Descriptors.UndeclaredNameUnchanged` | lib/mongo_mapper/plugins/associations.rb:33 | A name that no declaration uses keeps its earlier descriptor. |
| `Descriptors.PresenceIffSingularDeclaration` | lib/mongo_mapper/plugins/associations.rb:44-48 | A name has a presence predicate if and only if it had one or some declaration of it was `one` or `belongs_to`, so a name only ever declared with `many` never gets one. |
| `Descriptors.HooksAreCascadingDeclarations` | lib/mongo_mapper/plugins/associations.rb:50 | Cascade hooks are appended in declaration order, exactly for `many` declarations that are not embeddable and have a truthy `:dependent`. |
| `Descriptors.EmbeddedAssociations` | lib/mongo_mapper/plugins/associations.rb:71-77 | Every embeddable descriptor in the registry is in the result, and everything in the result is an embeddable descriptor of the registry. |
| `Descriptors.DeclareEmbeddedAssociations` | lib/mongo_mapper/plugins/associations.rb:71-77 | A declaration changes the embedded associations only at its name: the replaced entry drops out, and the new descriptor is in exactly when it is embeddable. |
| `Documents.EmbeddedClassesAreEmbeddable` | lib/mongo_mapper/embedded_document.rb:30-32 | Embedded document classes report `embeddable?` and plain document classes do not; an association's target class follows its descriptor. |
| `Documents.FirstFindMatch` | lib/mongo_mapper/plugins/associations/embedded_collection.rb:14 | `detect`: the position of the first document whose id, or whose id's string form, equals the argument; no earlier one matches; None exactly when none matches. |
| `Documents.Doc.constructor` | lib/mongo_mapper/plugins/associations/embedded_collection.rb:6 | A new document has the given class, id and attributes, is new, has no root and has no cached proxies. |
| `Documents.Doc.AssignAttributes` | lib/mongo_mapper/embedded_document.rb:51 | Mass assignment: the given keys take the given values and the other keys keep theirs. |
| `Documents.Doc.Save` | lib/mongo_mapper/embedded_document.rb:36-41 | Without a root: nil, no store request, `new` unchanged. With a root: one root save is requested and its result is answered. `new` turns false exactly when that result is true. |
| `Documents.Doc.SaveBang` | lib/mongo_mapper/embedded_document.rb:43-48 | The same delegation and flag rule through the root's `save!`. |
| `Documents.Doc.UpdateAttributes` | lib/mongo_mapper/embedded_document.rb:50-53 | The attributes are merged first, then `save` runs and its result is answered, with `save`'s effect on the store and on `new`. |
| `Documents.Doc.UpdateAttributesBang` | lib/mongo_mapper/embedded_document.rb:55-58 | The attributes are merged first, then `save!` runs and its result is answered. |
| `Documents.Doc.GetProxy` | lib/mongo_mapper/plugins/associations.rb:79-86 | A cached proxy is answered and the cache is unchanged. Otherwise a fresh, empty proxy for this owner and association is created and cached under the association's name, and nothing else in the cache changes. |
| `Documents.Doc.WriteAssociation` | lib/mongo_mapper/plugins/associations.rb:39-42 | The `name=` writer: the cached (or newly cached) proxy's target becomes the value, and the value itself is answered. The cache is unchanged when the proxy was cached, and gains only the new proxy otherwise; every other cached proxy keeps its target. |
| `Documents.Proxy.RootDocument` | lib/mongo_mapper/plugins/associations/embedded_collection.rb:33-38 | The root stamped on inserted documents is missing exactly when the owner is an embedded document that has no root of its own. |
| `Documents.Proxy.constructor` | lib/mongo_mapper/plugins/associations.rb:81 | A new proxy has its owner and association and an empty target. |
| `Documents.Proxy.Find` | lib/mongo_mapper/plugins/associations/embedded_collection.rb:12-15 | The result is a member that matches by id or by the id's string form; it is the first such member; it is nil exactly when no member matches. Being a function, it changes nothing. |
| `Documents.Proxy.Replace` | lib/mongo_mapper/plugins/associations.rb:40 | The target becomes the value. |
| `Documents.Proxy.Push` | lib/mongo_mapper/plugins/associations/embedded_collection.rb:22-30 | The documents are appended in argument order after the unchanged earlier ones, and `count` grows by their number. Each one gets the proxy's root as `_root_document`; nothing else about them changes. |
| `Documents.Proxy.Build` | lib/mongo_mapper/plugins/associations/embedded_collection.rb:5-10 | It answers a fresh, new document of the association's class with the given attributes, rooted at the proxy's root and appended as the last element. |
| `Documents.Proxy.DeleteAt` | lib/mongo_mapper/plugins/nested_attributes.rb:51 | The member at the given position leaves the list; the others keep their order. |
| `Associations.NestedOptions` | lib/mongo_mapper/plugins/nested_attributes.rb:12-13 | The given options over the default `allow_destroy: false`. A given value wins, `allow_destroy` is always present, and the key set is the given keys plus `allow_destroy`. |
| `Associations.FirstUndeclared` | lib/mongo_mapper/plugins/nested_attributes.rb:17-18 | The position of the first name that has no association, with every earlier name registered; None exactly when every name is registered. |
| `Associations.DefineWriters` | lib/mongo_mapper/plugins/nested_attributes.rb:19-23 | Defining the writers for the names adds exactly those names. Each gets the declaration's `allow_destroy`, and the other writers keep theirs. |
| `Associations.DocClass.constructor` | lib/mongo_mapper/plugins/associations.rb:17-19 | A new class starts with an empty registry, no presence predicates, no hooks and no writers. |
| `Associations.DocClass.SetAssociations` | lib/mongo_mapper/plugins/associations.rb:21-23 | `associations=` installs the given registry. |
| `Associations.DocClass.Inherited` | lib/mongo_mapper/plugins/associations.rb:25-28 | The subclass is a fresh object whose registry equals the parent's, and the parent does not change. Later declarations on either class do not reach the other. |
| `Associations.DocClass.CreateAssociation` | lib/mongo_mapper/plugins/associations.rb:31-62 | The descriptor is stored under its name, replacing any earlier entry for that name and leaving the others alone. The presence predicate and the cascade hook are added exactly as the gating rules say (`Declare`). |
| `Associations.DocClass.AcceptsNestedAttributesFor` | lib/mongo_mapper/plugins/nested_attributes.rb:11-28 | Unknown option keys fail with those keys and define nothing. Otherwise the writers for the names before the first unregistered name are defined, and that name fails; with no unregistered name every writer is defined and the call passes. |
| `Associations.CascadeNamesSnoc` | lib/mongo_mapper/plugins/associations.rb:51-60 | One more hook adds its association to the fetched proxies exactly when its value dispatches. |
| `Associations.CascadeEventsSnoc` | lib/mongo_mapper/plugins/associations.rb:51-60 | The hooks' requests are made in order: one more hook appends its own request, if any, after the earlier ones. |
| `Associations.CascadeEventsExact` | lib/mongo_mapper/plugins/associations.rb:51-60 | The hooks make at most one request each. Every request is a cascade. A cascade with operation op on association n is made if and only if some hook for n dispatches to op. |
| `Associations.RunDestroyHook` | lib/mongo_mapper/plugins/associations.rb:51-60 | One hook appends its cascade request (or none), fetches the association's proxy when it dispatches, and leaves every earlier cached proxy alone. |
| `Associations.RunDestroyHooks` | lib/mongo_mapper/plugins/associations.rb:50-61 | All hooks in order. The store receives exactly `CascadeEvents(hooks)`, the proxy cache gains exactly the dispatching hooks' associations, and existing cached proxies are kept. |
| `Payloads.Insert` | lib/mongo_mapper/plugins/nested_attributes.rb:40 | Inserting one entry yields the old entries plus that entry, as a multiset. |
| `Payloads.InsertKeepsSorted` | lib/mongo_mapper/plugins/nested_attributes.rb:40 | Inserting into a list sorted by key keeps it sorted. |
| `Payloads.SortByKey` | lib/mongo_mapper/plugins/nested_attributes.rb:40 | `sort_by`: the result is sorted by ascending key and is a permutation of the entries. |
| `Payloads.InsertValues` | lib/mongo_mapper/plugins/nested_attributes.rb:40 | Inserting an entry adds exactly its attributes to the projected values, as a multiset. |
| `Payloads.SortValues` | lib/mongo_mapper/plugins/nested_attributes.rb:40 | `sort_by` followed by the `map` projection yields the entries' values permuted. |
| `Payloads.Normalize` | lib/mongo_mapper/plugins/nested_attributes.rb:35-41 | A payload fails, with ArgumentError, if and only if it is neither a hash nor a list. A list is taken as it is, and a hash yields one attribute map per entry. |
| `Payloads.HashPayloadPermutesValues` | lib/mongo_mapper/plugins/nested_attributes.rb:39-41 | A hash payload always normalises, to a permutation of its values: each value once per entry, none added or lost. |
| `Payloads.InsertKeepsDistinct` | lib/mongo_mapper/plugins/nested_attributes.rb:40 | Inserting an entry with a new key into sorted, distinct keys keeps the keys distinct. |
| `Payloads.SortKeepsDistinct` | lib/mongo_mapper/plugins/nested_attributes.rb:40 | Sorting keeps distinct keys distinct. |
| `Payloads.KeysArePositions` | lib/mongo_mapper/plugins/nested_attributes.rb:40 | Sorted distinct keys drawn from 0 to n-1, in a list of length n, hold key i at position i. |
| `Payloads.HashPayloadAsList` | lib/mongo_mapper/plugins/nested_attributes.rb:39-41 | A hash payload keyed by the indices 0 to n-1, in any order, normalises to the equivalent list: each entry's attributes sit at the position its key names. |
| `NestedAttributes.Assignable` | lib/mongo_mapper/plugins/nested_attributes.rb:32 | `except(*UNASSIGNABLE_KEYS)`: exactly the keys other than `id`, `_id` and `_destroy`, with their values. |
| `NestedAttributes.HasDestroyFlag` | lib/mongo_mapper/plugins/nested_attributes.rb:62-64 | The flag is set only when `_destroy` is present and truthy. `true`, "1", "true", "TRUE", "t" and 1 set it, and "0", "false" and 0 do not. |
| `NestedAttributes.ClassFromName` | lib/mongo_mapper/plugins/nested_attributes.rb:48 | `classify.constantize` as written: the name's class when one is defined; otherwise a NameError for that name. |
| `NestedAttributes.FirstIdMatch` | lib/mongo_mapper/plugins/nested_attributes.rb:49 | `detect` by `id.to_s`: the first position whose id reads as the given string, with no earlier one; None exactly when there is none. |
| `NestedAttributes.Decide` | lib/mongo_mapper/plugins/nested_attributes.rb:47-56 | An update or removal always names a position in the current list. |
| `NestedAttributes.DecideTable` | lib/mongo_mapper/plugins/nested_attributes.rb:47-56 | The four outcomes, each if and only if. Append exactly for a blank `_id`. Skip exactly when no member's id reads as the `_id`. Remove exactly for a match in the destroy branch, update for any other match. The position is the first match. |
| `NestedAttributes.Apply` | lib/mongo_mapper/plugins/nested_attributes.rb:47-56 | Only an append lengthens the list, by one, and only a removal shortens it, by one. The store requests only grow, by one at most, and only through a removal from a target that is not embeddable. |
| `NestedAttributes.Step` | lib/mongo_mapper/plugins/nested_attributes.rb:47-56 | One element lengthens the list by one exactly when its `_id` is blank, and otherwise shortens it by one at most. A store request is added only in the destroy branch and only for a target that is not embeddable. |
| `NestedAttributes.RunBounds` | lib/mongo_mapper/plugins/nested_attributes.rb:44-57 | Over `Run`, the list gains exactly one record per blank `_id` and loses at most one member per other element. The store requests only accumulate, at most one per element. |
| `NestedAttributes.StepAppends` | lib/mongo_mapper/plugins/nested_attributes.rb:47-48 | A blank `_id` appends one created record, made from the element's attributes, at the end and changes nothing else. |
| `NestedAttributes.StepSkips` | lib/mongo_mapper/plugins/nested_attributes.rb:49 | An `_id` that matches no member changes nothing: not the list, not any member, not the store. |
| `NestedAttributes.FirstMatchIsFound` | lib/mongo_mapper/plugins/nested_attributes.rb:49 | The first member whose id reads as the `_id` is the one `detect` finds. |
| `NestedAttributes.StepRemoves` | lib/mongo_mapper/plugins/nested_attributes.rb:50-52 | In the destroy branch the first matching member leaves the list, the others keep their order and no attributes change. A storage destroy of its id is requested exactly when the target is not embeddable. |
| `NestedAttributes.StepUpdates` | lib/mongo_mapper/plugins/nested_attributes.rb:53-54 | Outside the destroy branch the list length and the store are unchanged, and the first matching member receives the element's assignable attributes. |
| `NestedAttributes.StepWellOrdered` | lib/mongo_mapper/plugins/nested_attributes.rb:44-57 | One element keeps the shape that `RunWellOrdered` states. |
| `NestedAttributes.RunWellOrdered` | lib/mongo_mapper/plugins/nested_attributes.rb:44-57 | After any payload the list is the surviving earlier members in their original order, then the surviving created records in payload order, each created from an element with a blank `_id`. |
| `NestedAttributes.PluginStepKeepsPrefix` | lib/mongo_mapper/plugins/nested_attributes.rb:50 | Without `allow_destroy`, one step of the plugin version keeps the leading earlier members, grows the list by one exactly for a blank `_id`, and requests nothing. |
| `NestedAttributes.PluginWithoutAllowDestroyNeverRemoves` | lib/mongo_mapper/plugins/nested_attributes.rb:50 | With `allow_destroy` false the plugin version never removes or destroys anything. Every earlier member stays in place, and the list grows by exactly the number of elements with a blank `_id`. |
| `NestedAttributes.VariantsAgree` | lib/mongo_mapper/nested_attributes.rb:50 | With `allow_destroy` true, or with no element flagged `_destroy`, the two versions give the same list, attributes and store requests. |
| `NestedAttributes.LegacyIgnoresAllowDestroy` | lib/mongo_mapper/nested_attributes.rb:50 | The older version gives the same result whatever `allow_destroy` is. |
| `NestedAttributes.VersionsDifferOnFlaggedMatch` | lib/mongo_mapper/nested_attributes.rb:50-52 | A flagged element that matches a member, with `allow_destroy` false, shortens the list by one in the older version and leaves its length alone in the plugin version. |
| `NestedAttributes.EmbeddableTargetIsNeverDestroyed` | lib/mongo_mapper/plugins/nested_attributes.rb:52 | For an embeddable target, no payload makes any store request. |
| `NestedAttributes.StepDestroysMembers` | lib/mongo_mapper/plugins/nested_attributes.rb:51-52 | One step keeps every request a destroy of nil or of the id of a member that was there before. |
| `NestedAttributes.RunDestroysMembers` | lib/mongo_mapper/plugins/nested_attributes.rb:51-52 | The fold keeps every request a destroy, of nil or of the id of a member from before the call. |
| `NestedAttributes.DestroyedIdsComeFromMembers` | lib/mongo_mapper/plugins/nested_attributes.rb:51-52 | Every store request the assigner makes is a destroy, naming the id of a member from before the call or nil (for a created record). |
| `NestedAttributes.MergeKeepsReserved` | lib/mongo_mapper/plugins/nested_attributes.rb:54 | Merging an element's assignable part into a member leaves the member's `id`, `_id` and `_destroy` as they were. |
| `NestedAttributes.StepTracksMembers` | lib/mongo_mapper/plugins/nested_attributes.rb:54 | A step keeps every remaining earlier member among the tracked documents. |
| `NestedAttributes.StepKeepsReserved` | lib/mongo_mapper/plugins/nested_attributes.rb:54 | A step tracks no new document and changes no reserved key of a tracked one. |
| `NestedAttributes.ReservedKeysKept` | lib/mongo_mapper/plugins/nested_attributes.rb:44-57 | Over the whole payload, no update changes the `id`, `_id` or `_destroy` of any earlier member, and no other document's attributes are tracked. |
| `NestedAttributes.MirroredIds` | lib/mongo_mapper/plugins/nested_attributes.rb:49 | The ids `detect` reads from the proxy are the ids the tally holds. |
| `NestedAttributes.MirrorsStart` | lib/mongo_mapper/plugins/nested_attributes.rb:44 | Before the first element, the proxy's list mirrors its own start tally. |
| `NestedAttributes.MirrorsRemove` | lib/mongo_mapper/plugins/nested_attributes.rb:51 | Dropping the same position from the list and from the tally keeps them in step. |
| `NestedAttributes.AppendCreated` | lib/mongo_mapper/plugins/nested_attributes.rb:48 | `proxy << Klass.new(attributes)`: a fresh record with the element's attributes is appended as the last element. The proxy then mirrors the tally after append, and no earlier document's root, flag or cache changes. |
| `NestedAttributes.UpdateMember` | lib/mongo_mapper/plugins/nested_attributes.rb:54 | `existing_record.attributes = ...`: the proxy mirrors the tally after update, and no document's root, flag or cache changes. |
| `NestedAttributes.DeleteMember` | lib/mongo_mapper/plugins/nested_attributes.rb:51 | `delete(existing_record)`: the member leaves the list at its position, and the list mirrors the tally without that slot. |
| `NestedAttributes.RemoveMember` | lib/mongo_mapper/plugins/nested_attributes.rb:51-52 | Delete, then a storage destroy unless the target is embeddable. The proxy and the store end as the tally after removal says. |
| `NestedAttributes.AssignElement` | lib/mongo_mapper/plugins/nested_attributes.rb:47-56 | One element. The proxy ends mirroring `Step` of the tally and the store has that step's requests appended. Any new records are fresh. |
| `NestedAttributes.RunSnoc` | lib/mongo_mapper/plugins/nested_attributes.rb:44 | One more element is one more step of the fold. |
| `NestedAttributes.AssignElements` | lib/mongo_mapper/plugins/nested_attributes.rb:44-57 | The `each` loop. The proxy ends mirroring `Run` from its start state, and the store receives exactly `Run`'s requests. Every member is an earlier one or fresh, and no earlier document's root, flag or cache changes. |
| `NestedAttributes.StartTracks` | lib/mongo_mapper/plugins/nested_attributes.rb:44 | The documents tracked at the start are exactly the members before the call. |
| `NestedAttributes.AssignNestedAttributesForAssociation` | lib/mongo_mapper/plugins/nested_attributes.rb:34-59 | A payload that is neither a hash nor a list fails with ArgumentError and leaves the list and the store alone. Otherwise it passes, with the hash sorted by `to_i` first. The list, the earlier members' attributes and the store end as `Run` says, created records are fresh documents, no earlier member's reserved keys change, and the root is unchanged. On a refused payload no earlier member's attributes change. No earlier member's root, `new` flag or proxy cache changes. |
| `NestedAttributes.NestedAttributesWriter` | lib/mongo_mapper/plugins/nested_attributes.rb:20-22 | `<name>_attributes=` fetches the association's proxy through the cache, making it on first use, and runs the assigner with the `allow_destroy` the declaration fixed. A refused payload fails and leaves the list, its members' attributes and the store alone. Otherwise the list, the members' attributes and the store end as `Run` says from the list cached before the call, and created records are fresh. No earlier member's reserved keys, root, `new` flag or proxy cache change. |
| `Scenarios.NestedCreateAddsOnePlayer` | test/functional/test_nested_attributes.rb:58-61 | `players_attributes: [{name: 'Normal guy'}]` gives one player named 'Normal guy', rooted at the team. |
| `Scenarios.CustomClassNameIsNotFound` | test/functional/test_nested_attributes.rb:15 | The class lookup by name finds the class for `players`, but for `retired_players`, declared with `:class => Player`, it raises a NameError. Its declaration says the target is embedded. |
| `Scenarios.NestedCreateUsesDeclaredClass` | test/functional/test_nested_attributes.rb:72-75 | `retired_players_attributes: [{name: 'Old guy'}]`: one member named 'Old guy', of the declared embedded class. |
| `Scenarios.TeamWithOne` | test/functional/test_nested_attributes.rb:145-151 | The fixture: a fresh team proxy holding one fresh member with the given id and attributes, and an empty store. |
| `Scenarios.FlaggedPlayer` | test/functional/test_nested_attributes.rb:47 | A team with one embedded player, 'Normal guy'. |
| `Scenarios.PluginKeepsFlaggedPlayer` | test/functional/test_nested_attributes.rb:121-131 | With `allow_destroy: false`, a flagged player survives as the same object, takes the new name, keeps its id, and nothing reaches the store. |
| `Scenarios.LegacyRemovesFlaggedPlayer` | lib/mongo_mapper/nested_attributes.rb:50-52 | The older version removes the flagged, embedded player with `allow_destroy: false` and asks the store for nothing. |
| `Scenarios.DestroyGame` | test/functional/test_nested_attributes.rb:114-118 | With destruction allowed, a flagged game (a plain document) leaves the list and exactly one destroy of its id is requested. |
| `Scenarios.UnknownIdIsSkipped` | lib/mongo_mapper/plugins/nested_attributes.rb:49 | An `_id` no member has leaves the list, the member's name and the store unchanged. |
| `Scenarios.StringPayloadIsRefused` | lib/mongo_mapper/plugins/nested_attributes.rb:35-37 | A string payload fails with ArgumentError and the association stays empty. |
| `Scenarios.SwappedPairInIndexOrder` | lib/mongo_mapper/plugins/nested_attributes.rb:40 | Two hash entries whose keys read as 1 and 0 come out in index order. |
| `Scenarios.HashPayloadInKeyOrder` | lib/mongo_mapper/plugins/nested_attributes.rb:39-41 | `{"1" => b, "0" => a}` is processed as `[a, b]`. |
| `Scenarios.UpdateAttributesThroughRoot` | test/functional/test_embedded_document.rb:103-113 | `update_attributes(name: 'koda')` on a rooted pet keeps the same object, renames it, answers true, clears `new` and requests one non-bang root save. |
| `Scenarios.UnrootedSave` | lib/mongo_mapper/embedded_document.rb:37-40 | An unrooted embedded document's `save` answers nil, asks for nothing and stays new. |
| `Scenarios.FailedRootSave` | lib/mongo_mapper/embedded_document.rb:44-47 | A false root `save!` leaves the embedded document new. |
| `Scenarios.RootThroughTwoLevels` | test/functional/test_embedded_document.rb:140-155 | A toy built in the toys of a pet of a document has that document as its root, as does the pet. |
| `Scenarios.FindByIdOrString` | lib/mongo_mapper/plugins/associations/embedded_collection.rb:12-20 | `find` succeeds by the id and by its string form and gives nil for an unknown id; `count` is 2 after pushing two. |
| `Scenarios.ProxyIsCached` | lib/mongo_mapper/plugins/associations.rb:79-86 | Two `get_proxy` calls give the identical proxy. |
| `Scenarios.InheritanceIsolation` | lib/mongo_mapper/plugins/associations.rb:25-28 | After `inherited`, the subclass sees the parent's earlier declarations. A later declaration on either class does not reach the other. |
| `Scenarios.UnknownAssociationFails` | test/functional/test_nested_attributes.rb:139-143 | `accepts_nested_attributes_for :blah` fails with no association found, and an unknown option key fails with that key. |
| `Scenarios.CascadeOnDestroy` | lib/mongo_mapper/plugins/associations.rb:50-60 | `many :games, dependent: :destroy` on a plain document registers one hook; an embedded `many` with the same option registers none. The hook's run requests `destroy_all` on games only. |

## Left out

- Storage: `existing_record.destroy`, a root `save`/`save!` and the `destroy_all`/`delete_all`/`nullify` cascades become events in `Store.log`. A root save's result is the `outcome` parameter.
- The identity map: its implementation is not part of this model.
- The proxy classes other than the embedded collection (base, proxy, collection, the `many`, `one`, `belongs_to` and `in_array` proxies) are not part of this model. Every association's proxy is the embedded-collection `Proxy`, whatever its target.
- `NestedAttributes.AppendCreated`, `NestedAttributes.RemoveMember`, `NestedAttributes.AssignNestedAttributesForAssociation`: for a target that is not embeddable (`games`), the list operations follow embedded-collection semantics. `<<` stamps the root and makes no store request, and `detect` and `delete` work on the in-memory list. The many-documents proxy's `<<`, which saves the record, is not modelled; only the storage destroy of line 52 is recorded.
- `load_target` is left out: the in-memory list is the target.
- `present?`, behind the `name?` predicate, is not modelled. Only which names get the predicate is modelled.
- Id generation: a record created by the assigner or by `build` has id nil. The document layer's id assignment is not part of this model.
- `Documents.Doc.AssignAttributes`: `attributes=` is modelled as a merge of string-keyed maps. The keys plugin's type casting and any filtering it does are not part of this model.
- `Values.BooleanToMongo`: `Boolean.to_mongo` is not part of this model. It stands in as true for `true` and for values whose text reads "true", "t" or "1", ignoring case.
- `Values.ToI`: `String#to_i` is modelled without underscore separators between digits.
- `Values.Lower`: letter case is folded for ASCII letters only.
- `Documents.Proxy.DeleteAt`: the collection's `delete(record)` is modelled as removing the member at the position `detect` found, which is its first occurrence. Ruby's `Array#delete` removes every member equal to the record; other members that are equal to it (such as ones sharing its id) stay in the list in the model.
- `allow_destroy` is the boolean the declaration fixed: `Truthy` of the option value. The string interpolation into the writer's source is not modelled.
- The `:reject_if` option is accepted as a key and otherwise unused, as in the code.
- Nested attributes on the singular association `coach` depend on the `one` proxy, which is not part of this model. `captain` is a key (`key :captain, Player`), not an association, so as written `accepts_nested_attributes_for` rejects it with "No association found" (lib/mongo_mapper/plugins/nested_attributes.rb:18, :25), as `Associations.DocClass.AcceptsNestedAttributesFor` states.
- Ruby method and callback inheritance: `inherited` copies only the registry. Presence predicates, hooks and writers start empty in the subclass.
- `stringify_keys!` and `HashWithIndifferentAccess`: attribute and registry keys are strings already.
- `NestedAttributes.AppendCreated`, `NestedAttributes.RemoveMember`: the created record's class and the `embeddable?` test come from the association's declaration (`Documents.TargetKind`), not from `classify.constantize` of its name as lines 48 and 52 do. `NestedAttributes.ClassFromName` models the lookup as written, with the defined classes as a parameter; `classify` (singular, camel case) is folded into that parameter's keys.
- The association reader is `Doc.GetProxy` itself.
- `_parent_document` is not set anywhere in the modelled code and is not modelled.
- The plugin list of embedded documents is configuration and is not modelled.
- `Descriptors.EmbeddedAssociations`: the registry is an unordered map and the result is a set, so the order (the registry hash's insertion order) and the multiplicity of the Array the source returns are not modelled.
- `Documents.Proxy.Count` is a function whose value is the list's length by definition. It carries no contract of its own; `Push` states how it grows.
- Ruby's tie order in `sort_by` is unspecified. `SortByKey` keeps entries with equal keys in their input order; no property proved here depends on that order.
- `Documents.Doc.Save`, `SaveBang`, `UpdateAttributes` and `UpdateAttributesBang` require an embedded document, the only kind whose `save` the modelled code defines.

## Findings

| source | as written | input that shows it | evidently intended | confidence | as-written member | corrected member |
|---|---|---|---|---|---|---|
| lib/mongo_mapper/plugins/nested_attributes.rb:48 | The class of a created record, and at line 52 the `embeddable?` test, come from `association_name.to_s.classify.constantize`. | `many :retired_players, :class => Player` (test/functional/test_nested_attributes.rb:15), then `accepts_nested_attributes_for :retired_players` and `retired_players_attributes = [{name: 'Old guy'}]`: the lookup asks for `RetiredPlayer`, which is not defined, and raises NameError. | The class the association declares, as the test's `retired_players.size == 1` (line 73) expects. | medium, not executed | `NestedAttributes.ClassFromName`, `Scenarios.CustomClassNameIsNotFound` | `NestedAttributes.AppendCreated` (class from `Documents.TargetKind` of the declaration), `Scenarios.NestedCreateUsesDeclaredClass` |
