# gildr persistence and membership, modelled in Dafny

gildr is a small guild service. Players sign up, found guilds, and join or leave them. Guild owners
edit their rosters. This project models the part of the service that keeps that state:

- **`DAOFacadeStore`** (`stores.dfy`, module `Stores`). It keeps one JSON file per record, named
  `<id>.<type>.idx`, and an in-memory index of ids per type (`allGuildIds`, `allPlayerIds`).
  - The data directory is a `map` from file name to file text.
  - Each index is a duplicate-free sequence in insertion order, like Java's `LinkedHashSet`.
  - On top of this sit the listings, the two profile joins, and the two membership changes.
- **`DAOFacadeCache`** (`cache.dfy`, module `Caches`). It puts a guild cache and a player cache in front
  of the store. Reads fill the cache on a miss. Writes go to the store and then to the cache. Deletes and
  successful membership changes evict entries.
  - The class keeps the invariant `Coherent()`: every cached entry is what the store would read.
  - `Evict` lets the cache lose entries at any time.
  - `JoinIsVisible` shows that a read after a join never returns the stale copy.
- **The entities** (`models.dfy`, module `Models`). These are `Player`, `Guild`, `Invite`, the roster
  `Manifest`, the default `type` tags, and the `require` checks of the constructors.
  - Kotlin's `copy` re-runs those checks. `NewGuild(g.(...))` models that.
  - An exception is a `Failure` carrying the `Error` it stands for.
- **`ManagerInterface`** (`managers.dfy`, module `Managers`). This is the simpler store with one file per
  id, named `<id>.idx`. It appears as the class `Manager` with its three instances.
- **The roster arithmetic of the guild handlers** (`routes.dfy`, module `Routes`): the name search, the
  owner gate, join, leave and the onboard/deboard edit. Each handler's result is an `Outcome`:
  - not found;
  - the `copy` threw;
  - `validate()` declined;
  - saved.

Supporting modules:
- `wrappers.dfy`: `Option` and `Result`.
- `text.dfy`: Kotlin's `isBlank`, `startsWith(ignoreCase = true)`, `substringBefore` and `substringBeforeLast`.
- `uuids.dfy`: a UUID is its canonical 36-character text.
- `lists.dfy`: `distinct`, `filterNot`, `removeAll`, `filter`, `mapNotNull` and `any`, with the lemmas relating them.
- `codec.dfy`: the JSON codec, kept abstract. It is an encoder plus one decoder per class. `RoundTrips(c)`
  says that each decoder inverts the encoder on its own class. Proofs take that as a hypothesis and never assume it.

Validity is proved, never assumed. Gson builds records without running the Kotlin `init` checks:
- Records read from files may be invalid. Wherever validity matters, it is a hypothesis or a `Failure` branch.
- Each store invariant names its own hypotheses: the codec round-trips, and records carry their default tags.

The model follows the code as written, including these behaviours:
- **`listAllPlayers`/`listAllGuilds` throw instead of skipping.** They cast every `byId` result with
  `as Player`/`as Guild` before `mapNotNull` can drop it. So an indexed id without a readable file makes
  the whole listing throw (`Stores.ListAll`).
- **The store sends every non-guild id to the player index.** `add` puts the id of any record whose type
  is not `"guild"` into `allPlayerIds`, an invite's included. After that, `listAllPlayers()` throws
  (`Stores.StoredInviteBreaksPlayerListing`).
- **The cache's `byId` reads the player file for every non-guild type.** For any type other than
  `"guild"`, the cache's `byId(type, id)` answers with `playerById(id)`. The store's `byId` instead reads
  `<id>.<type>.idx` (`Caches.DaoFacadeCache.ById`).
- **Removing the last owner saves nothing.** When `removePlayerFromGuild` takes out the only owner, the
  `copy` throws. The file stays as it was (`Stores.RemovingLastOwnerFails`).

## Model

| member | source | states |
|---|---|---|
| Uuids.Parse | src/Stores.kt:70 | `UUID.fromString` succeeds exactly on canonical UUID text and gives that UUID |
| Uuids.ParseText | src/Stores.kt:70 | parsing a UUID's own text gives the UUID back |
| Text.BlankIffNoVisibleChar | src/Models.kt:27-28 | `isBlank` holds exactly when the text has no character other than whitespace |
| Text.StartsWithIgnoreCaseIsUpperPrefix | src/Routes.kt:74 | the case-insensitive prefix test is a plain prefix test after upper-casing both texts |
| Text.SubstringBefore | src/Stores.kt:16-17 | `substringBefore(".")` is the text up to the first dot, or all of it when there is none |
| Text.SubstringBeforeLast | src/Stores.kt:69 | `substringBeforeLast(".")` is the text up to the last dot, or all of it when there is none |
| Lists.Distinct | src/Stores.kt:164-165 | `distinct()` has no duplicates and exactly the input's elements |
| Lists.DistinctKeepsOrder | src/Stores.kt:164-165 | `distinct()` keeps elements in the order of their first occurrences |
| Lists.DistinctOfNoDuplicates | src/Stores.kt:164-165 | a duplicate-free list is its own `distinct()` |
| Lists.DistinctIdempotent | src/Routes.kt:141 | `distinct()` of a `distinct()` changes nothing |
| Lists.DistinctSnoc | src/Stores.kt:174 | de-duplicating a list with one id appended appends the id once, and only if it is new |
| Lists.Without | src/Stores.kt:164-165 | `filterNot { it == x }` keeps exactly the elements other than `x` |
| Lists.WithoutCounts | src/Stores.kt:164-165 | `filterNot { it == x }` keeps every copy of every element other than `x` and no copy of `x` |
| Lists.WithoutAbsent | src/Routes.kt:159-160 | `filterNot { it == x }` leaves a list without `x` unchanged |
| Lists.WithoutIsSubsequence | src/Stores.kt:164-165 | `filterNot` keeps the order of what it keeps |
| Lists.DistinctWithoutCommute | src/Routes.kt:159-160 | `filterNot` then `distinct()` equals `distinct()` then `filterNot` |
| Lists.RemoveAll | src/Routes.kt:183 | `removeAll(d)` keeps exactly the elements not in `d`, and leaves nothing when every element is in `d` |
| Lists.RemoveAllCounts | src/Routes.kt:183 | `removeAll(d)` keeps every copy of every element not in `d` and no copy of one in `d` |
| Lists.RemoveAllIsSubsequence | src/Routes.kt:183 | `removeAll` keeps the order of what it keeps |
| Lists.RemoveAllKeepsNoDuplicates | src/Routes.kt:183 | `removeAll` keeps a duplicate-free list duplicate-free |
| Lists.DistinctRemoveAllCommute | src/Routes.kt:180-192 | `removeAll` then `distinct()` equals `distinct()` then `removeAll` |
| Lists.AnyIs | src/Routes.kt:120 | `any { it == x }` holds exactly when `x` is in the list |
| Lists.Filter | src/Routes.kt:74 | `filter` keeps exactly the elements that pass, and all of them when all pass |
| Lists.FilterIsSubsequence | src/Routes.kt:74 | `filter` keeps the order of the list |
| Lists.FilterCounts | src/Routes.kt:74 | `filter` keeps every copy of every element that passes and no copy of one that fails |
| Lists.MapNotNull | src/Stores.kt:144-145 | `map { read(it) }.mapNotNull { it }` contains every value an id resolves to, and one per id when all resolve |
| Lists.MapNotNullSingle | src/Stores.kt:144-145 | one id gives its value when it resolves and nothing otherwise |
| Lists.MapNotNullAppend | src/Stores.kt:144-145 | the values of a concatenation of id lists are the values of the first part followed by those of the second, so values come one per resolving id, in id order |
| Lists.MapNotNullResolved | src/Stores.kt:144-145 | every value kept by `mapNotNull` is what some id resolved to |
| Models.NewPlayer | src/Models.kt:26-29 | the player constructor succeeds exactly when name and password are not blank; otherwise it throws the first failing check's message |
| Models.NewGuild | src/Models.kt:46-50 | the guild constructor succeeds exactly when there is an owner and name and description are not blank; otherwise it throws the first failing check's message, in source order |
| Models.DefaultPlayer | src/Models.kt:18-25 | a new player has tag `"player"` and empty `memberOf`/`ownerOf`, and exists only with a name and a password |
| Models.DefaultGuild | src/Models.kt:36-45 | a new guild has tag `"guild"`, empty resolved lists and, unless given, no member ids, and exists only with an owner, a name and a description |
| Models.DefaultInvite | src/Models.kt:62-68 | a new invite has tag `"invite"` and the given ids |
| Models.DefaultManifest | src/Models.kt:57 | a manifest's lists default to empty |
| Models.BlankPlayerNameFails | src/Models.kt:27 | a blank name makes the player constructor throw "All players must have a name." |
| Models.BlankPlayerPasswordFails | src/Models.kt:28 | a blank password makes it throw "All players must have a password." |
| Models.EmptyOwnersFails | src/Models.kt:47 | a guild copied with no owners throws |
| Stores.FileNameParts | src/Stores.kt:68-78 | a file written for `(type, id)` passes the scan filter for `type`, and the scan reads `id` back from its name |
| Stores.FileNameInjective | src/Stores.kt:52-54 | different `(type, id)` pairs never share a file |
| Stores.CollectIds | src/Stores.kt:68-78 | the scan succeeds exactly when every admitted name starts with a UUID, and it collects exactly those UUIDs |
| Stores.ScanIndex | src/Stores.kt:68-78 | the initial index is duplicate-free and holds exactly the scanned ids |
| Stores.ScanIndexesEveryFile | src/Stores.kt:68-78 | every listed file for `(type, id)` puts `id` into that type's index |
| Stores.ScanKeepsTypesApart | src/Stores.kt:69-75 | a guild file never passes the player filter, and a player file never passes the guild filter |
| Stores.ScanAgrees | src/Stores.kt:68-78 | on a directory of guild and player files, the initial indexes agree with the files |
| Stores.ReadRecord | src/Stores.kt:80-91 | `byId` finds a record only in the file for `(type, id)`, decodes a `Guild` for `"guild"` and a `Player` otherwise, and never throws |
| Stores.ReadPlayer | src/Stores.kt:125-128 | `playerById` is `byId("player", id)` |
| Stores.ReadGuild | src/Stores.kt:130-133 | `guildById` is `byId("guild", id)` |
| Stores.ReadAfterWrite | src/Stores.kt:93-96 | after `add(r)`, `byId(r.type, r.id)` gives `r` back |
| Stores.WriteLeavesOthers | src/Stores.kt:93-96 | `add(r)` changes no other record |
| Stores.ReadAfterDelete | src/Stores.kt:106-110 | after `remove(type, id)`, `byId(type, id)` is null |
| Stores.DeleteLeavesOthers | src/Stores.kt:106-110 | `remove` changes no other record |
| Stores.Insert | src/Stores.kt:97-101 | adding to the index keeps it duplicate-free and adds exactly the id |
| Stores.AddKeepsConsistency | src/Stores.kt:93-104 | `add` of a guild or player with its default tag keeps the index in agreement with the files, and keeps every record in its own file |
| Stores.RemoveKeepsConsistency | src/Stores.kt:106-117 | `remove` with type `"guild"` or `"player"` keeps that agreement |
| Stores.FailedDeleteBreaksIndex | src/Stores.kt:106-117 | when `file.delete()` fails on an existing file, the id still leaves the index, so index and files disagree and the next scan indexes the id again |
| Stores.ListAll | src/Stores.kt:120-123 | a listing succeeds exactly when every indexed id reads, giving one record per id in index order; otherwise it throws the null cast |
| Stores.StoredInviteBreaksPlayerListing | src/Stores.kt:97-101 | adding an invite puts its id into the player index, after which `listAllPlayers()` throws |
| Stores.GuildsByMemberId | src/Stores.kt:151-153 | exactly the listed guilds whose `memberIds` contain the id, each with all its copies in the listing, in listing order |
| Stores.GuildsByOwnerId | src/Stores.kt:156-158 | exactly the listed guilds whose `ownerIds` contain the id, each with all its copies in the listing, in listing order |
| Stores.ResolvedPlayer | src/Stores.kt:135-140 | `playerProfile` is null exactly for an absent player; otherwise it is the stored player, with `memberOf`/`ownerOf` exactly the listed guilds naming it, every copy of each, in order; it throws when the listing or the `copy` does |
| Stores.ResolvedPlayerMemberships | src/Stores.kt:135-140 | on a well-keyed directory, the profile's guilds are exactly the listed guilds naming the requested id |
| Stores.ResolvedGuild | src/Stores.kt:142-148 | `guildProfile` is null exactly for an absent guild; otherwise it is the stored guild with `members`/`owners` the `mapNotNull` of its ids: one player per readable id, in id order |
| Stores.ResolvedGuildListsOnlyItsIds | src/Stores.kt:144-145 | every resolved member or owner is the player stored for one of the guild's ids |
| Stores.RemovalPlan | src/Stores.kt:160-169 | `removePlayerFromGuild` writes nothing when the player or guild is absent; otherwise it writes the guild with the player filtered out of both lists and the lists de-duplicated; it throws when the `copy` does |
| Stores.AdditionPlan | src/Stores.kt:171-178 | `addGuildMember` writes nothing when the player or guild is absent; otherwise it writes the guild with `memberIds.union(listOf(player.id))` |
| Stores.RemovalRemovesFromBothLists | src/Stores.kt:160-169 | after a removal the player is in neither list, every other id stays, both lists are duplicate-free, an owner remains, and name, description and id are unchanged |
| Stores.RemovingLastOwnerFails | src/Stores.kt:164-167 | removing the only owner makes the `copy` throw "Guild <name> must have at least one owner", so nothing is written |
| Stores.AdditionAddsOnce | src/Stores.kt:171-178 | after an addition the player is a member exactly once, appended only if it was new, and owners, name and description are unchanged |
| Stores.AdditionIdempotent | src/Stores.kt:171-178 | a second `addGuildMember` with the same ids writes the same guild again |
| Stores.PlannedGuildIsStorable | src/Stores.kt:166-176 | the guild a membership change writes has its default tag and goes back to its own file |
| Stores.DaoFacadeStore.constructor | src/Stores.kt:68-78 | the indexes are the scans of the directory listing, and agree with the files on a directory of guild and player files |
| Stores.DaoFacadeStore.ById | src/Stores.kt:80-91 | `byId` answers what the file for `(type, id)` decodes to |
| Stores.DaoFacadeStore.PlayerById | src/Stores.kt:125-128 | `playerById` answers the player file's record |
| Stores.DaoFacadeStore.GuildById | src/Stores.kt:130-133 | `guildById` answers the guild file's record |
| Stores.DaoFacadeStore.Add | src/Stores.kt:93-104 | `add` returns `r.id`, writes exactly the file for `(r.type, r.id)`, adds the id to the guild index for `"guild"` and to the player index otherwise, reads `r` back, and keeps the store consistent |
| Stores.DaoFacadeStore.Remove | src/Stores.kt:106-117 | `remove` returns true, deletes the file if it exists and the delete succeeds, always drops the id from that type's index, and, unless an existing file failed to go, leaves `byId` null and keeps the store consistent |
| Stores.DaoFacadeStore.ListAllPlayers | src/Stores.kt:120-121 | the player listing over the player index |
| Stores.DaoFacadeStore.ListAllGuilds | src/Stores.kt:123 | the guild listing over the guild index |
| Stores.DaoFacadeStore.PlayerProfile | src/Stores.kt:135-140 | the resolved player profile |
| Stores.DaoFacadeStore.GuildProfile | src/Stores.kt:142-148 | the resolved guild profile |
| Stores.DaoFacadeStore.RemovePlayerFromGuild | src/Stores.kt:160-169 | answers false and writes nothing when the player or guild is absent, throws without writing when the `copy` fails, and otherwise writes the planned guild, answers true, and keeps the store consistent |
| Stores.DaoFacadeStore.AddGuildMember | src/Stores.kt:171-178 | the same for the planned addition |
| Caches.DaoFacadeCache.constructor | src/Stores.kt:183-210 | both caches start empty, and so coherent |
| Caches.DaoFacadeCache.Evict | src/Stores.kt:185-207 | a cache that only loses entries stays coherent |
| Caches.DaoFacadeCache.PlayerById | src/Stores.kt:227-240 | a hit answers the cached player and reads no file; a miss answers the store's player and caches it only if found; under coherence the answer is the store's |
| Caches.DaoFacadeCache.GuildById | src/Stores.kt:242-254 | the same for guilds |
| Caches.DaoFacadeCache.ById | src/Stores.kt:219-225 | the guild path for `"guild"` and the player path for any other type: a hit answers the cached entry and changes no cache; a miss answers the store's record and caches it only if found; it keeps coherence |
| Caches.DaoFacadeCache.Add | src/Stores.kt:259-269 | writes the store as the store's `add` does, then caches the record; throws the class cast after the write when the tag names the other class; keeps the cache coherent and the store consistent |
| Caches.DaoFacadeCache.WriteKeepsCoherence | src/Stores.kt:259-269 | after a write, the cache entries other than the written one still agree with the store |
| Caches.DaoFacadeCache.Remove | src/Stores.kt:271-279 | deletes from the store as the store's `remove` does (the delete may fail), drops the entry from the type's cache, answers true, and keeps coherence |
| Caches.DaoFacadeCache.RemovePlayerFromGuild | src/Stores.kt:281-287 | the store's removal with its new files and indexes, then the guild's entry is evicted exactly when the answer is true; coherence is kept |
| Caches.DaoFacadeCache.AddGuildMember | src/Stores.kt:289-295 | the same for the addition, with its new files and indexes |
| Caches.DaoFacadeCache.MutationKeepsCoherence | src/Stores.kt:281-295 | a membership change rewrites only that guild's file, so with its entry evicted the cache agrees again |
| Caches.DaoFacadeCache.ListAllPlayers | src/Stores.kt:216 | handed to the store, never cached |
| Caches.DaoFacadeCache.ListAllGuilds | src/Stores.kt:217 | handed to the store, never cached |
| Caches.DaoFacadeCache.PlayerProfile | src/Stores.kt:257 | handed to the store, never cached |
| Caches.DaoFacadeCache.GuildProfile | src/Stores.kt:256 | handed to the store, never cached |
| Caches.JoinIsVisible | src/Stores.kt:289-295 | a guild read through the cache right after a successful join shows the new member, even when a stale copy was cached before |
| Managers.ManagedFileInjective | src/Managers.kt:20-22 | `buildFile` depends on the id alone, and different ids get different files |
| Managers.ManagedFileIsNoStoreFile | src/Managers.kt:20-22 | a manager file never has a store file's name |
| Managers.Load | src/Managers.kt:24-26 | `fromFile` throws file-not-found exactly when the file is missing, and throws when the text does not decode; it is never null |
| Managers.LoadAfterSave | src/Managers.kt:24-30 | `toFile(r)` then `fromFile(r.id)` gives `r` back |
| Managers.SaveLeavesOthers | src/Managers.kt:28-30 | `toFile(r)` adds or overwrites only the file of `r.id` |
| Managers.LoadAfterDrop | src/Managers.kt:32-38 | after a delete, `fromFile` fails for want of the file, and other ids read as before |
| Managers.Manager.constructor | src/Managers.kt:9-18 | a manager over the given codec and data directory |
| Managers.Manager.FromFile | src/Managers.kt:24-26 | `fromFile` answers `Load` on the current files |
| Managers.Manager.ToFile | src/Managers.kt:28-30 | writes exactly the record's file, which then reads back as the record |
| Managers.Manager.DeleteFile | src/Managers.kt:32-38 | true and nothing changed when there is no file; otherwise the delete's own answer, with the file gone exactly when it says true; after true the file is gone |
| Managers.NewPlayerManager | src/Managers.kt:41-43 | the codec seen from `Player`; it round-trips when the codec does |
| Managers.NewGuildManager | src/Managers.kt:45-47 | the codec seen from `Guild`; it round-trips when the codec does |
| Managers.NewInviteManager | src/Managers.kt:49-51 | the codec seen from `Invite`; it round-trips when the codec does |
| Routes.SearchGuilds | src/Routes.kt:74 | exactly the listed guilds whose name starts with `q`, ignoring case, each with all its copies in the listing |
| Routes.SearchKeepsListingOrder | src/Routes.kt:74 | the search keeps listing order |
| Routes.EmptyQueryKeepsAll | src/Application.kt:28 | the default query `""` returns the whole listing |
| Routes.IsOwner | src/Routes.kt:115-126 | a guild is removed (and, at src/Routes.kt:177, edited) exactly when it exists and the principal is among its owners |
| Routes.Commit | src/Routes.kt:142-146 | the update is saved exactly when its `copy` succeeds and `validate()` accepts, and the thrown error is the constructor's |
| Routes.JoinedMembers | src/Routes.kt:141 | join gives the old list de-duplicated, with the principal appended if absent |
| Routes.JoinIdempotent | src/Routes.kt:141 | joining twice is joining once |
| Routes.Join | src/Routes.kt:135-150 | not found exactly for a missing guild; a saved join has the principal as a member and the owners unchanged |
| Routes.LeftIds | src/Routes.kt:159-160 | leave keeps exactly the other ids, without duplicates |
| Routes.LeaveKeepsOrder | src/Routes.kt:159-160 | the ids that stay keep the order of their first occurrences |
| Routes.Leave | src/Routes.kt:152-169 | not found exactly for a missing guild; a saved leave has the principal in neither list and an owner left |
| Routes.LeaveByOutsiderOnlyDeduplicates | src/Routes.kt:159-160 | a principal on neither list leaves them only de-duplicated |
| Routes.LastOwnerCannotLeave | src/Routes.kt:161-165 | when the principal is the only owner, leave throws "Guild <name> must have at least one owner", and nothing is saved |
| Routes.EditedRoster | src/Routes.kt:180-192 | an edited roster is duplicate-free and holds exactly the old and onboarded ids that are not deboarded, in the order of their first occurrences; without a manifest it is the old list de-duplicated |
| Routes.EditRoster | src/Routes.kt:180-192 | `addAll(onboard)`, `removeAll(deboard)` and `distinct()` give the edited roster |
| Routes.DeboardWins | src/Routes.kt:180-192 | an id both onboarded and deboarded ends up absent |
| Routes.EmptyManifestOnlyDeduplicates | src/Models.kt:57 | an edit with the default empty manifest only de-duplicates |
| Routes.MembershipEdit | src/Routes.kt:172-200 | not found exactly when the guild is missing or the principal is no owner; for an owner, the commit of the guild with both rosters edited by their manifests and nothing else changed; a saved edit keeps an owner and has duplicate-free lists |
| Routes.MembershipRoute | src/Routes.kt:172-200 | the handler's in-place edits give the membership edit |
| Routes.DeboardingAllOwnersThrows | src/Routes.kt:186-194 | deboarding every owner makes the `copy` throw, so nothing is saved |

## Left out

- The HTTP layer: Ktor routing, `call.respond`, status codes, CORS, content negotiation, locations, static files and `/login`. The handlers appear only as their list computations and their `Outcome`.
- JWT signing and SHA-256 password hashing. These are foreign crypto libraries, and a password is just a string here.
- Gson's builder options and its reflection. The codec is abstract, and its round trip is a stated hypothesis.
- Gson decoding a file as the wrong class. A player or guild decoder may answer anything for another class's text.
- The Ehcache tiers, capacities and disk persistence. Each cache is a map that may lose entries (`Evict`).
- `mkdirs` and the startup `IOException`. That is filesystem I/O.
- The laziness of the index initialisers. In Kotlin each index is scanned at its first use. That can come after the store's own first write or delete, since `add` writes its file and `remove` deletes it before either reads the index. The model runs both scans in the constructor. When a fresh store's first index-touching call is `add(r)`, the model appends `r`'s id to the index, where Kotlin's scan puts it at its place in the directory listing; the order of the listings, of the profiles' guild lists and of the search can differ in the same way. For a type that only ends in `guild` or `player` (such as `xguild`), Kotlin's later scan can also pick that first file up into an index the model leaves it out of, or the reverse for a first `remove`. The constructor also requires a scan that does not throw.
- The laziness of Kotlin sequences. A listing is evaluated whole.
- `validate()` is defined in no file of this model. It is a parameter, `validate: Guild -> bool`.
- `PlayerStore`, `GuildStore` and `InviteStore` are not part of this model. Neither are the invite routes, the player routes or guild creation. The guild handlers take the guild they looked up as an argument.
- The guild profile handler (src/Routes.kt:97-113) is request plumbing over the unmodelled stores.
- Concurrency. The code takes no locks, and the model is sequential.
- The web frontend.
- `Uuids.Parse`: it accepts only the canonical lower-case form. It does not model the lenient forms Java's `UUID.fromString` also takes.
- `Text.StartsWithIgnoreCase`: it folds case for ASCII letters only, not for the rest of Unicode.
- `Managers.Manager.DeleteFile`: whether the operating system deletes the file is a parameter (`removed`).
- `Stores.DaoFacadeStore.Remove` and `Caches.DaoFacadeCache.Remove`: whether `file.delete()` succeeds is likewise a parameter (`removed`); the source ignores that answer.
- `Routes.EditRoster`: a manifest whose `onboard` or `deboard` list is JSON `null` is not modelled. The model's lists always exist, which matches the `?: listOf()` fallback.
- `Stores.DaoFacadeStore.constructor`: the agreement of index and files is promised only for directories that hold only guild and player files. Other files may add ids the scan cannot tell apart.
