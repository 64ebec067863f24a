/** The entities of the guild service and the checks their constructors run. */
module Models {
  import opened Wrappers
  import opened Text
  import opened Uuids

  /** What the Kotlin code throws; `Failure(e)` in a result stands for that exception. */
  datatype Error =
    | IllegalArgument(message: string)  // a failed `require` in an `init` block
    | NullCast                          // `null as Guild` / `null as Player`
    | ClassCast                         // `record as Guild` on a record of another class
    | FileNotFound(name: string)        // `readText()` on a missing file
    | Malformed(name: string)           // the decoder rejected the file's text

  /** A player. `memberOf` and `ownerOf` are resolved at read time and stored empty. */
  datatype Player = Player(
    tag: string,
    id: Uuid,
    memberOf: seq<Guild>,
    ownerOf: seq<Guild>,
    name: string,
    password: string)

  /** A guild. `owners` and `members` are resolved at read time; only the id lists are kept. */
  datatype Guild = Guild(
    id: Uuid,
    tag: string,
    name: string,
    description: string,
    owners: seq<Player>,
    ownerIds: seq<Uuid>,
    members: seq<Player>,
    memberIds: seq<Uuid>)

  datatype Invite = Invite(id: Uuid, tag: string, invitorId: Uuid, inviteeId: Uuid, guildId: Uuid)

  /** The ids to add and to remove in one list of a roster edit. */
  datatype Manifest = Manifest(onboard: seq<Uuid>, deboard: seq<Uuid>)

  /** A roster edit. `None` is a list for which the handler's `!== null` test fails; a list the request
      leaves out gets the default, empty `Manifest()`, which edits a roster the same way as `None`. */
  datatype GuildMembershipUpdate = GuildMembershipUpdate(owners: Option<Manifest>, members: Option<Manifest>)

  /** Anything `Identifiable`: it has an `id` and a `type` tag. */
  datatype Record = PlayerRecord(player: Player) | GuildRecord(guild: Guild) | InviteRecord(invite: Invite) {
    function Id(): Uuid {
      match this
      case PlayerRecord(p) => p.id
      case GuildRecord(g) => g.id
      case InviteRecord(i) => i.id
    }

    function Tag(): string {
      match this
      case PlayerRecord(p) => p.tag
      case GuildRecord(g) => g.tag
      case InviteRecord(i) => i.tag
    }
  }

  const PlayerTag := "player"
  const GuildTag := "guild"
  const InviteTag := "invite"

  /** The record carries the default `type` tag of its class; the store names files and picks indexes by it. */
  predicate HasDefaultTag(r: Record) {
    match r
    case PlayerRecord(p) => p.tag == PlayerTag
    case GuildRecord(g) => g.tag == GuildTag
    case InviteRecord(i) => i.tag == InviteTag
  }

  predicate ValidPlayer(p: Player) {
    !IsBlank(p.name) && !IsBlank(p.password)
  }

  predicate ValidGuild(g: Guild) {
    |g.ownerIds| > 0 && !IsBlank(g.name) && !IsBlank(g.description)
  }

  const PlayerNameMessage := "All players must have a name."
  const PlayerPasswordMessage := "All players must have a password."
  const GuildNameMessage := "All guilds must have a name."
  const GuildDescriptionMessage := "All guilds must have a description."

  function GuildOwnerMessage(name: string): string {
    "Guild " + name + " must have at least one owner"
  }

  /** Running `Player`'s constructor on these field values (also what `copy` does): the first failing `require` throws. */
  function NewPlayer(p: Player): (r: Result<Player, Error>)
    ensures r.Success? <==> ValidPlayer(p)
    ensures r.Success? ==> r.value == p
    ensures IsBlank(p.name) ==> r == Failure(IllegalArgument(PlayerNameMessage))
    ensures !IsBlank(p.name) && IsBlank(p.password) ==> r == Failure(IllegalArgument(PlayerPasswordMessage))
  {
    if IsBlank(p.name) then Failure(IllegalArgument(PlayerNameMessage))
    else if IsBlank(p.password) then Failure(IllegalArgument(PlayerPasswordMessage))
    else Success(p)
  }

  /** Running `Guild`'s constructor on these field values (also what `copy` does). */
  function NewGuild(g: Guild): (r: Result<Guild, Error>)
    ensures r.Success? <==> ValidGuild(g)
    ensures r.Success? ==> r.value == g
    ensures g.ownerIds == [] ==> r == Failure(IllegalArgument(GuildOwnerMessage(g.name)))
    ensures g.ownerIds != [] && IsBlank(g.name) ==> r == Failure(IllegalArgument(GuildNameMessage))
    ensures g.ownerIds != [] && !IsBlank(g.name) && IsBlank(g.description) ==> r == Failure(IllegalArgument(GuildDescriptionMessage))
  {
    if |g.ownerIds| == 0 then Failure(IllegalArgument(GuildOwnerMessage(g.name)))
    else if IsBlank(g.name) then Failure(IllegalArgument(GuildNameMessage))
    else if IsBlank(g.description) then Failure(IllegalArgument(GuildDescriptionMessage))
    else Success(g)
  }

  /** `Player(id = id, name = name, password = password)`: the other parameters take their defaults. */
  function DefaultPlayer(id: Uuid, name: string, password: string): (r: Result<Player, Error>)
    ensures r.Success? <==> !IsBlank(name) && !IsBlank(password)
    ensures r.Success? ==>
      && r.value.tag == PlayerTag && r.value.id == id && r.value.name == name
      && r.value.password == password && r.value.memberOf == [] && r.value.ownerOf == []
    ensures r.Success? ==> HasDefaultTag(PlayerRecord(r.value))
  {
    NewPlayer(Player(PlayerTag, id, [], [], name, password))
  }

  /** `Guild(id = id, name = ..., description = ..., ownerIds = ..., memberIds = ...)`; `memberIds` defaults to empty. */
  function DefaultGuild(id: Uuid, name: string, description: string, ownerIds: seq<Uuid>, memberIds: seq<Uuid> := []): (r: Result<Guild, Error>)
    ensures r.Success? <==> |ownerIds| > 0 && !IsBlank(name) && !IsBlank(description)
    ensures r.Success? ==>
      && r.value.tag == GuildTag && r.value.id == id && r.value.name == name
      && r.value.description == description && r.value.ownerIds == ownerIds
      && r.value.memberIds == memberIds && r.value.owners == [] && r.value.members == []
    ensures r.Success? ==> HasDefaultTag(GuildRecord(r.value))
  {
    NewGuild(Guild(id, GuildTag, name, description, [], ownerIds, [], memberIds))
  }

  /** `Invite(invitorId = ..., inviteeId = ..., guildId = ...)`: no checks, tag `"invite"`. */
  function DefaultInvite(id: Uuid, invitorId: Uuid, inviteeId: Uuid, guildId: Uuid): (r: Invite)
    ensures HasDefaultTag(InviteRecord(r))
    ensures r.id == id && r.invitorId == invitorId && r.inviteeId == inviteeId && r.guildId == guildId
  {
    Invite(id, InviteTag, invitorId, inviteeId, guildId)
  }

  /** `Manifest()`: both lists empty. */
  function DefaultManifest(): (m: Manifest)
    ensures m.onboard == [] && m.deboard == []
  {
    Manifest([], [])
  }

  /** A player needs a name that is not blank. */
  lemma BlankPlayerNameFails(id: Uuid, name: string, password: string)
    requires IsBlank(name)
    ensures DefaultPlayer(id, name, password) == Failure(IllegalArgument(PlayerNameMessage))
  {
  }

  /** A player needs a password that is not blank. */
  lemma BlankPlayerPasswordFails(id: Uuid, name: string, password: string)
    requires !IsBlank(name) && IsBlank(password)
    ensures DefaultPlayer(id, name, password) == Failure(IllegalArgument(PlayerPasswordMessage))
  {
  }

  /** Copying a guild with an empty owner list throws, whatever the other fields are. */
  lemma EmptyOwnersFails(g: Guild)
    ensures NewGuild(g.(ownerIds := [])).Failure?
  {
  }
}
