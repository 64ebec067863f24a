/** The list computations of the guild HTTP handlers, without the request plumbing: the name search,
    the owner gate of the delete, join, leave and the onboard/deboard roster edit. */
module Routes {
  import opened Wrappers
  import opened Text
  import opened Uuids
  import opened Lists
  import opened Models

  // ---------------------------------------------------------------------------
  // Search and delete

  /** `GET /v1/guilds?q=`: the listed guilds whose name starts with `q`, ignoring case. */
  function SearchGuilds(guilds: seq<Guild>, q: string): (r: seq<Guild>)
    ensures forall g :: g in r <==> g in guilds && StartsWithIgnoreCase(g.name, q)
    ensures forall g :: multiset(r)[g] == if StartsWithIgnoreCase(g.name, q) then multiset(guilds)[g] else 0
    ensures |r| <= |guilds|
  {
    var keep := (g: Guild) => StartsWithIgnoreCase(g.name, q);
    FilterCounts(guilds, keep);
    Filter(guilds, keep)
  }

  /** The search keeps the listing's order. */
  lemma SearchKeepsListingOrder(guilds: seq<Guild>, q: string)
    ensures IsSubsequence(SearchGuilds(guilds, q), guilds)
  {
    FilterIsSubsequence(guilds, (g: Guild) => StartsWithIgnoreCase(g.name, q));
  }

  /** The query's default, `q = ""`, returns the whole listing. */
  lemma EmptyQueryKeepsAll(guilds: seq<Guild>)
    ensures SearchGuilds(guilds, "") == guilds
  {
    forall g | g in guilds ensures StartsWithIgnoreCase(g.name, "") {
      StartsWithIgnoreCaseEmpty(g.name);
    }
  }

  /** The owner gate of `DELETE /v1/guilds/{id}` and of the roster edit: the guild was found and the
      principal is among its owners (`ownerIds.any { it == ownerId }`); otherwise the answer is "not found". */
  function IsOwner(found: Option<Guild>, principal: Uuid): (owner: bool)
    ensures owner <==> found.Some? && principal in found.value.ownerIds
  {
    match found
    case None => false
    case Some(g) => AnyIs(g.ownerIds, principal)
  }

  // ---------------------------------------------------------------------------
  // Updating a guild: `copy`, then `validate()`, then `guildStore.add`

  /** What a membership handler does with a found guild: `NotFound` when the guild is missing (or, for a
      roster edit, the principal is no owner), `Thrown` when `copy` fails a `require`, `Unsaved` when
      `validate()` declines, `Saved` with the guild handed to `guildStore.add`. */
  datatype Outcome = NotFound | Thrown(error: Error) | Unsaved | Saved(guild: Guild)

  /** `val update = guild.copy(...); if (update.validate()) guildStore.add(update)`. */
  function Commit(candidate: Guild, validate: Guild -> bool): (r: Outcome)
    ensures r.Saved? <==> ValidGuild(candidate) && validate(candidate)
    ensures r.Saved? ==> r.guild == candidate
    ensures r.Thrown? <==> !ValidGuild(candidate)
    ensures r.Thrown? ==> r == Thrown(NewGuild(candidate).error)
    ensures !r.NotFound?
  {
    match NewGuild(candidate)
    case Failure(e) => Thrown(e)
    case Success(u) => if validate(u) then Saved(u) else Unsaved
  }

  /** Join's `memberIds.union(listOf(principal)).distinct()`. */
  function JoinedMembers(memberIds: seq<Uuid>, principal: Uuid): (r: seq<Uuid>)
    ensures r == if principal in memberIds then Distinct(memberIds) else Distinct(memberIds) + [principal]
    ensures principal in r && NoDuplicates(r)
    ensures forall x :: x in r <==> x in memberIds || x == principal
  {
    DistinctSnoc(memberIds, principal);
    DistinctIdempotent(memberIds + [principal]);
    Distinct(Distinct(memberIds + [principal]))
  }

  /** Joining twice is joining once. */
  lemma JoinIdempotent(memberIds: seq<Uuid>, principal: Uuid)
    ensures JoinedMembers(JoinedMembers(memberIds, principal), principal) == JoinedMembers(memberIds, principal)
  {
    DistinctIdempotent(JoinedMembers(memberIds, principal));
  }

  /** `PUT /v1/guilds/{id}/join`. */
  function Join(found: Option<Guild>, principal: Uuid, validate: Guild -> bool): (r: Outcome)
    ensures r == NotFound <==> found.None?
    ensures found.Some? ==> r == Commit(found.value.(memberIds := JoinedMembers(found.value.memberIds, principal)), validate)
    ensures r.Saved? ==> principal in r.guild.memberIds && r.guild.ownerIds == found.value.ownerIds
  {
    match found
    case None => NotFound
    case Some(g) => Commit(g.(memberIds := JoinedMembers(g.memberIds, principal)), validate)
  }

  /** Leave's `filterNot { it == principal }.distinct()`, on either list. */
  function LeftIds(ids: seq<Uuid>, principal: Uuid): (r: seq<Uuid>)
    ensures principal !in r && NoDuplicates(r)
    ensures forall x :: x in r <==> x in ids && x != principal
  {
    Distinct(Without(ids, principal))
  }

  /** The ids that stay keep the order of their first occurrences. */
  lemma LeaveKeepsOrder(ids: seq<Uuid>, principal: Uuid)
    ensures LeftIds(ids, principal) == Without(Distinct(ids), principal)
    ensures IsSubsequence(LeftIds(ids, principal), Distinct(ids))
  {
    DistinctWithoutCommute(ids, principal);
    WithoutIsSubsequence(Distinct(ids), principal);
  }

  /** `PUT /v1/guilds/{id}/leave`: the principal leaves both lists. */
  function Leave(found: Option<Guild>, principal: Uuid, validate: Guild -> bool): (r: Outcome)
    ensures r == NotFound <==> found.None?
    ensures found.Some? ==>
      r == Commit(found.value.(memberIds := LeftIds(found.value.memberIds, principal), ownerIds := LeftIds(found.value.ownerIds, principal)), validate)
    ensures r.Saved? ==> principal !in r.guild.memberIds && principal !in r.guild.ownerIds && |r.guild.ownerIds| > 0
  {
    match found
    case None => NotFound
    case Some(g) => Commit(g.(memberIds := LeftIds(g.memberIds, principal), ownerIds := LeftIds(g.ownerIds, principal)), validate)
  }

  /** A principal who is on neither list leaves both lists only de-duplicated. */
  lemma LeaveByOutsiderOnlyDeduplicates(ids: seq<Uuid>, principal: Uuid)
    requires principal !in ids
    ensures LeftIds(ids, principal) == Distinct(ids)
  {
    WithoutAbsent(ids, principal);
  }

  /** The last owner cannot leave: the `copy` throws and nothing is saved. */
  lemma LastOwnerCannotLeave(g: Guild, principal: Uuid, validate: Guild -> bool)
    requires forall x :: x in g.ownerIds ==> x == principal
    ensures Leave(Some(g), principal, validate) == Thrown(IllegalArgument(GuildOwnerMessage(g.name)))
  {
    assert LeftIds(g.ownerIds, principal) == [];
  }

  // ---------------------------------------------------------------------------
  // Roster edit

  /** What an edit leaves in a roster: with no manifest the list de-duplicated, otherwise the old list
      followed by `onboard`, de-duplicated, less every `deboard` id. */
  function EditedRoster(ids: seq<Uuid>, manifest: Option<Manifest>): (r: seq<Uuid>)
    ensures NoDuplicates(r)
    ensures manifest.None? ==> r == Distinct(ids)
    ensures manifest.Some? ==> forall x ::
      x in r <==> (x in ids || x in manifest.value.onboard) && x !in manifest.value.deboard
    ensures manifest.Some? ==> IsSubsequence(r, Distinct(ids + manifest.value.onboard))
  {
    match manifest
    case None => Distinct(ids)
    case Some(m) =>
      RemoveAllKeepsNoDuplicates(Distinct(ids + m.onboard), m.deboard);
      RemoveAllIsSubsequence(Distinct(ids + m.onboard), m.deboard);
      RemoveAll(Distinct(ids + m.onboard), m.deboard)
  }

  /** The handler's own steps on a `toMutableList()` copy: `addAll(onboard)`, `removeAll(deboard)`
      when the manifest is present, then `distinct()`. */
  method EditRoster(ids: seq<Uuid>, manifest: Option<Manifest>) returns (r: seq<Uuid>)
    ensures r == EditedRoster(ids, manifest)
  {
    var list := ids;
    if manifest.Some? {
      list := list + manifest.value.onboard;
      list := RemoveAll(list, manifest.value.deboard);
      DistinctRemoveAllCommute(ids + manifest.value.onboard, manifest.value.deboard);
    }
    r := Distinct(list);
  }

  /** An id both onboarded and deboarded ends up absent. */
  lemma DeboardWins(ids: seq<Uuid>, m: Manifest, x: Uuid)
    requires x in m.onboard && x in m.deboard
    ensures x !in EditedRoster(ids, Some(m))
  {
  }

  /** With an empty manifest the edit only de-duplicates. */
  lemma EmptyManifestOnlyDeduplicates(ids: seq<Uuid>)
    ensures EditedRoster(ids, Some(DefaultManifest())) == Distinct(ids)
  {
    var m := DefaultManifest();
    assert ids + m.onboard == ids;
    RemoveAllNothing(Distinct(ids));
  }

  lemma {:induction false} RemoveAllNothing(s: seq<Uuid>)
    ensures RemoveAll(s, []) == s
  {
    if s != [] {
      RemoveAllNothing(s[1..]);
      assert [s[0]] + s[1..] == s;
    }
  }

  /** What `PUT /v1/guilds/{id}/membership` does: only an owner may edit, both rosters are edited
      by their manifests. */
  function MembershipEdit(found: Option<Guild>, principal: Uuid, update: GuildMembershipUpdate, validate: Guild -> bool): (r: Outcome)
    ensures r == NotFound <==> !IsOwner(found, principal)
    ensures IsOwner(found, principal) ==>
      r == Commit(found.value.(ownerIds := EditedRoster(found.value.ownerIds, update.owners),
                               memberIds := EditedRoster(found.value.memberIds, update.members)), validate)
    ensures r.Saved? ==> principal in found.value.ownerIds && |r.guild.ownerIds| > 0
    ensures r.Saved? ==> NoDuplicates(r.guild.ownerIds) && NoDuplicates(r.guild.memberIds)
  {
    if !IsOwner(found, principal) then NotFound
    else
      var g := found.value;
      Commit(g.(ownerIds := EditedRoster(g.ownerIds, update.owners), memberIds := EditedRoster(g.memberIds, update.members)), validate)
  }

  /** The handler, with the rosters edited in place. */
  method MembershipRoute(found: Option<Guild>, principal: Uuid, update: GuildMembershipUpdate, validate: Guild -> bool) returns (r: Outcome)
    ensures r == MembershipEdit(found, principal, update, validate)
  {
    if !IsOwner(found, principal) {
      return NotFound;
    }
    var g := found.value;
    var members := EditRoster(g.memberIds, update.members);
    var owners := EditRoster(g.ownerIds, update.owners);
    r := Commit(g.(ownerIds := owners, memberIds := members), validate);
  }

  /** Deboarding every owner makes the `copy` throw: nothing is saved. */
  lemma DeboardingAllOwnersThrows(g: Guild, principal: Uuid, m: Manifest, members: Option<Manifest>, validate: Guild -> bool)
    requires principal in g.ownerIds
    requires forall x :: x in g.ownerIds || x in m.onboard ==> x in m.deboard
    ensures MembershipEdit(Some(g), principal, GuildMembershipUpdate(Some(m), members), validate)
      == Thrown(IllegalArgument(GuildOwnerMessage(g.name)))
  {
    assert forall x :: x in g.ownerIds + m.onboard ==> x in m.deboard;
    assert EditedRoster(g.ownerIds, Some(m)) == [];
  }
}
