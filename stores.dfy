/** `DAOFacadeStore`: one file per record, named `<id>.<type>.idx`, and an in-memory id index per type. */
module Stores {
  import opened Wrappers
  import opened Text
  import opened Uuids
  import opened Lists
  import opened Models
  import opened Codecs

  /** The data directory: file name to file text. */
  type Directory = map<string, string>

  // ---------------------------------------------------------------------------
  // File names and the index scan

  /** `getFile(type, id)`: the file `"$id.$type.idx"` in the data directory. */
  function FileName(tag: string, id: Uuid): string {
    id + "." + tag + ".idx"
  }

  /** Kotlin's `File.nameWithoutAllExtensions` as the source defines it: the name before its first dot. */
  function NameWithoutAllExtensions(name: string): string {
    SubstringBefore(name, '.')
  }

  /** Kotlin's `File.nameWithoutExtension`: the name before its last dot. */
  function NameWithoutExtension(name: string): string {
    SubstringBeforeLast(name, '.')
  }

  /** The filter of the lazy index initialiser: the name minus its last extension ends with the type. */
  predicate Admits(name: string, tag: string) {
    EndsWith(NameWithoutExtension(name), tag)
  }

  /** A file written for `(tag, id)` is admitted for `tag`, and the scan reads `id` back from its name. */
  lemma FileNameParts(tag: string, id: Uuid)
    ensures NameWithoutAllExtensions(FileName(tag, id)) == id
    ensures NameWithoutExtension(FileName(tag, id)) == id + "." + tag
    ensures Admits(FileName(tag, id), tag)
    ensures Parse(NameWithoutAllExtensions(FileName(tag, id))) == Some(id)
  {
    var s := FileName(tag, id);
    NoDotInUuid(id);
    assert s[..36] == id;
    assert s[36] == '.';
    assert forall i :: 0 <= i < 36 ==> s[i] == id[i];
    var k := IndexOf(s, '.');
    assert k == 36;
    var p := 37 + |tag|;
    assert s[p..] == ".idx";
    assert s[p] == '.';
    assert forall i :: p < i < |s| ==> s[i] == ".idx"[i - p];
    var j := LastIndexOf(s, '.');
    assert j == p;
    assert s[..p] == id + "." + tag;
  }

  /** Different `(type, id)` pairs never share a file. */
  lemma FileNameInjective(t1: string, i1: Uuid, t2: string, i2: Uuid)
    requires FileName(t1, i1) == FileName(t2, i2)
    ensures t1 == t2 && i1 == i2
  {
    FileNameParts(t1, i1);
    FileNameParts(t2, i2);
    assert (i1 + "." + t1)[37..] == t1;
  }

  /** The scan's ids in listing order (`mapTo(ArrayList())`); `None` when a name does not start with a UUID,
      which makes the initialiser throw. */
  function CollectIds(names: seq<string>, tag: string): (r: Option<seq<Uuid>>)
    ensures r.Some? <==> forall n :: n in names && Admits(n, tag) ==> Parse(NameWithoutAllExtensions(n)).Some?
    ensures r.Some? ==> forall n :: n in names && Admits(n, tag) ==> NameWithoutAllExtensions(n) in r.value
    ensures r.Some? ==> forall id :: id in r.value ==> exists n :: n in names && Admits(n, tag) && NameWithoutAllExtensions(n) == id
  {
    if names == [] then Some([])
    else
      var rest := CollectIds(names[1..], tag);
      assert forall n :: n in names <==> n == names[0] || n in names[1..];
      if !Admits(names[0], tag) then rest
      else match Parse(NameWithoutAllExtensions(names[0]))
        case None => None
        case Some(id) =>
          match rest
          case None => None
          case Some(ids) => Some([id] + ids)
  }

  /** `allGuildIds` / `allPlayerIds` as first built: the scan's ids through `toMutableSet()`. */
  function ScanIndex(names: seq<string>, tag: string): (r: Option<seq<Uuid>>)
    ensures r.Some? <==> CollectIds(names, tag).Some?
    ensures r.Some? ==> NoDuplicates(r.value)
    ensures r.Some? ==> forall id :: id in r.value <==> id in CollectIds(names, tag).value
  {
    match CollectIds(names, tag)
    case None => None
    case Some(ids) => Some(Distinct(ids))
  }

  /** Every file written for `(tag, id)` that the directory lists puts `id` into the index for `tag`. */
  lemma ScanIndexesEveryFile(names: seq<string>, tag: string, id: Uuid)
    requires FileName(tag, id) in names
    requires ScanIndex(names, tag).Some?
    ensures id in ScanIndex(names, tag).value
  {
    FileNameParts(tag, id);
  }

  /** The guild and player files never pass each other's filter. */
  lemma ScanKeepsTypesApart(id: Uuid)
    ensures !Admits(FileName(GuildTag, id), PlayerTag)
    ensures !Admits(FileName(PlayerTag, id), GuildTag)
  {
    FileNameParts(GuildTag, id);
    FileNameParts(PlayerTag, id);
    var g, p := id + "." + GuildTag, id + "." + PlayerTag;
    assert g[|g| - 6..] == ".guild";
    assert p[|p| - 5..] == "layer";
  }

  /** A directory that holds only guild and player files. */
  ghost predicate Canonical(dir: Directory) {
    forall n :: n in dir ==> exists id: Uuid :: n == FileName(GuildTag, id) || n == FileName(PlayerTag, id)
  }

  // ---------------------------------------------------------------------------
  // Reading and writing records

  /** `byId(type, id)`: a missing file or a decoder failure reads as `null`; type `"guild"` decodes a
      `Guild`, every other type a `Player`. */
  function ReadRecord(c: Codec, dir: Directory, tag: string, id: Uuid): (r: Option<Record>)
    ensures r.Some? ==> FileName(tag, id) in dir
    ensures r.Some? ==> if tag == GuildTag then r.value.GuildRecord? else r.value.PlayerRecord?
  {
    var name := FileName(tag, id);
    if name !in dir then None
    else if tag == GuildTag then
      match c.decodeGuild(dir[name])
      case None => None
      case Some(g) => Some(GuildRecord(g))
    else
      match c.decodePlayer(dir[name])
      case None => None
      case Some(p) => Some(PlayerRecord(p))
  }

  /** `playerById(id)`: `byId("player", id) as Player`. */
  function ReadPlayer(c: Codec, dir: Directory, id: Uuid): (r: Option<Player>)
    ensures r.Some? <==> ReadRecord(c, dir, PlayerTag, id).Some?
    ensures r.Some? ==> ReadRecord(c, dir, PlayerTag, id) == Some(PlayerRecord(r.value))
  {
    match ReadRecord(c, dir, PlayerTag, id)
    case Some(PlayerRecord(p)) => Some(p)
    case _ => None
  }

  /** `guildById(id)`: `byId("guild", id) as Guild`. */
  function ReadGuild(c: Codec, dir: Directory, id: Uuid): (r: Option<Guild>)
    ensures r.Some? <==> ReadRecord(c, dir, GuildTag, id).Some?
    ensures r.Some? ==> ReadRecord(c, dir, GuildTag, id) == Some(GuildRecord(r.value))
  {
    match ReadRecord(c, dir, GuildTag, id)
    case Some(GuildRecord(g)) => Some(g)
    case _ => None
  }

  /** The directory after `file.writeText(gson.toJson(record))` in `add`. */
  function Written(c: Codec, dir: Directory, r: Record): Directory {
    dir[FileName(r.Tag(), r.Id()) := c.encode(r)]
  }

  /** The directory after `remove(type, id)`: the file is deleted if it exists. */
  function Deleted(dir: Directory, tag: string, id: Uuid): Directory {
    if FileName(tag, id) in dir then dir - {FileName(tag, id)} else dir
  }

  /** `byId` decodes the class a record's tag selects: `Guild` for `"guild"`, `Player` otherwise. */
  predicate TagSelectsClass(r: Record) {
    if r.Tag() == GuildTag then r.GuildRecord? else r.PlayerRecord?
  }

  /** A record `add` can store without disturbing the index agreement: a guild or a player with its default tag. */
  predicate Storable(r: Record) {
    (r.GuildRecord? || r.PlayerRecord?) && HasDefaultTag(r)
  }

  /** After `add(r)`, `byId(r.type, r.id)` gives `r` back. */
  lemma ReadAfterWrite(c: Codec, dir: Directory, r: Record)
    requires RoundTrips(c)
    requires TagSelectsClass(r)
    ensures ReadRecord(c, Written(c, dir, r), r.Tag(), r.Id()) == Some(r)
  {
  }

  /** `add(r)` changes no other record. */
  lemma WriteLeavesOthers(c: Codec, dir: Directory, r: Record, tag: string, id: Uuid)
    requires tag != r.Tag() || id != r.Id()
    ensures ReadRecord(c, Written(c, dir, r), tag, id) == ReadRecord(c, dir, tag, id)
  {
    if FileName(tag, id) == FileName(r.Tag(), r.Id()) {
      FileNameInjective(tag, id, r.Tag(), r.Id());
    }
  }

  /** After `remove(type, id)`, `byId(type, id)` is `null`. */
  lemma ReadAfterDelete(c: Codec, dir: Directory, tag: string, id: Uuid)
    ensures ReadRecord(c, Deleted(dir, tag, id), tag, id) == None
  {
  }

  /** `remove(type, id)` changes no other record. */
  lemma DeleteLeavesOthers(c: Codec, dir: Directory, tag: string, id: Uuid, tag': string, id': Uuid)
    requires tag != tag' || id != id'
    ensures ReadRecord(c, Deleted(dir, tag, id), tag', id') == ReadRecord(c, dir, tag', id')
  {
    if FileName(tag, id) == FileName(tag', id') {
      FileNameInjective(tag, id, tag', id');
    }
  }

  // ---------------------------------------------------------------------------
  // The id index

  /** `LinkedHashSet.add`: a new id goes to the end, a known one stays where it is. */
  function Insert(ids: seq<Uuid>, id: Uuid): (r: seq<Uuid>)
    ensures NoDuplicates(ids) ==> NoDuplicates(r)
    ensures forall x :: x in r <==> x in ids || x == id
  {
    if id in ids then ids else ids + [id]
  }

  /** The index for a type: `allGuildIds` for `"guild"`, `allPlayerIds` for every other type. */
  predicate UsesGuildIndex(tag: string) {
    tag == GuildTag
  }

  /** The index agrees with the files: an id is indexed exactly when its guild (player) file exists. */
  ghost predicate IndexAgrees(dir: Directory, guildIds: seq<Uuid>, playerIds: seq<Uuid>) {
    && (forall id: Uuid :: id in guildIds <==> FileName(GuildTag, id) in dir)
    && (forall id: Uuid :: id in playerIds <==> FileName(PlayerTag, id) in dir)
  }

  /** Every record the store can read sits in the file named after its own id and type. */
  ghost predicate WellKeyed(c: Codec, dir: Directory) {
    && (forall id: Uuid :: ReadGuild(c, dir, id).Some? ==> ReadGuild(c, dir, id).value.id == id && ReadGuild(c, dir, id).value.tag == GuildTag)
    && (forall id: Uuid :: ReadPlayer(c, dir, id).Some? ==> ReadPlayer(c, dir, id).value.id == id && ReadPlayer(c, dir, id).value.tag == PlayerTag)
  }

  /** On a directory of guild and player files only, the scanned index agrees with the files. */
  lemma ScanAgrees(names: seq<string>, dir: Directory)
    requires forall n :: n in names <==> n in dir
    requires Canonical(dir)
    ensures ScanIndex(names, GuildTag).Some? && ScanIndex(names, PlayerTag).Some?
    ensures IndexAgrees(dir, ScanIndex(names, GuildTag).value, ScanIndex(names, PlayerTag).value)
  {
    forall n | n in names
      ensures Admits(n, GuildTag) ==> Parse(NameWithoutAllExtensions(n)).Some? && n == FileName(GuildTag, NameWithoutAllExtensions(n))
      ensures Admits(n, PlayerTag) ==> Parse(NameWithoutAllExtensions(n)).Some? && n == FileName(PlayerTag, NameWithoutAllExtensions(n))
    {
      var id: Uuid :| n == FileName(GuildTag, id) || n == FileName(PlayerTag, id);
      FileNameParts(GuildTag, id);
      FileNameParts(PlayerTag, id);
      ScanKeepsTypesApart(id);
    }
    var gi, pi := ScanIndex(names, GuildTag).value, ScanIndex(names, PlayerTag).value;
    forall id: Uuid ensures id in gi <==> FileName(GuildTag, id) in dir {
      if FileName(GuildTag, id) in dir {
        ScanIndexesEveryFile(names, GuildTag, id);
      }
    }
    forall id: Uuid ensures id in pi <==> FileName(PlayerTag, id) in dir {
      if FileName(PlayerTag, id) in dir {
        ScanIndexesEveryFile(names, PlayerTag, id);
      }
    }
  }

  /** The indexes after `add(r)`: the id joins the index its tag selects. */
  function GuildIndexAfterAdd(guildIds: seq<Uuid>, r: Record): seq<Uuid> {
    if UsesGuildIndex(r.Tag()) then Insert(guildIds, r.Id()) else guildIds
  }

  function PlayerIndexAfterAdd(playerIds: seq<Uuid>, r: Record): seq<Uuid> {
    if UsesGuildIndex(r.Tag()) then playerIds else Insert(playerIds, r.Id())
  }

  /** The indexes after `remove(type, id)`: the id leaves the index its type selects. */
  function GuildIndexAfterRemove(guildIds: seq<Uuid>, tag: string, id: Uuid): seq<Uuid> {
    if UsesGuildIndex(tag) then Without(guildIds, id) else guildIds
  }

  function PlayerIndexAfterRemove(playerIds: seq<Uuid>, tag: string, id: Uuid): seq<Uuid> {
    if UsesGuildIndex(tag) then playerIds else Without(playerIds, id)
  }

  /** `add` of a guild or player with its default tag keeps the index in agreement with the files,
      and keeps every record in the file named after it. */
  lemma AddKeepsConsistency(c: Codec, dir: Directory, guildIds: seq<Uuid>, playerIds: seq<Uuid>, r: Record)
    requires RoundTrips(c) && Storable(r)
    requires IndexAgrees(dir, guildIds, playerIds) && WellKeyed(c, dir)
    ensures IndexAgrees(Written(c, dir, r), GuildIndexAfterAdd(guildIds, r), PlayerIndexAfterAdd(playerIds, r))
    ensures WellKeyed(c, Written(c, dir, r))
  {
    var dir' := Written(c, dir, r);
    forall id: Uuid
      ensures FileName(GuildTag, id) in dir' <==> FileName(GuildTag, id) in dir || (r.Tag() == GuildTag && id == r.Id())
      ensures FileName(PlayerTag, id) in dir' <==> FileName(PlayerTag, id) in dir || (r.Tag() == PlayerTag && id == r.Id())
    {
      if FileName(GuildTag, id) == FileName(r.Tag(), r.Id()) {
        FileNameInjective(GuildTag, id, r.Tag(), r.Id());
      }
      if FileName(PlayerTag, id) == FileName(r.Tag(), r.Id()) {
        FileNameInjective(PlayerTag, id, r.Tag(), r.Id());
      }
    }
    forall id: Uuid
      ensures ReadGuild(c, dir', id).Some? ==> ReadGuild(c, dir', id).value.id == id && ReadGuild(c, dir', id).value.tag == GuildTag
      ensures ReadPlayer(c, dir', id).Some? ==> ReadPlayer(c, dir', id).value.id == id && ReadPlayer(c, dir', id).value.tag == PlayerTag
    {
      if GuildTag == r.Tag() && id == r.Id() {
        ReadAfterWrite(c, dir, r);
        assert ReadGuild(c, dir', id) == Some(r.guild);
      } else {
        WriteLeavesOthers(c, dir, r, GuildTag, id);
        assert ReadGuild(c, dir', id) == ReadGuild(c, dir, id);
      }
      if PlayerTag == r.Tag() && id == r.Id() {
        ReadAfterWrite(c, dir, r);
        assert ReadPlayer(c, dir', id) == Some(r.player);
      } else {
        WriteLeavesOthers(c, dir, r, PlayerTag, id);
        assert ReadPlayer(c, dir', id) == ReadPlayer(c, dir, id);
      }
    }
  }

  /** `remove` of a guild or a player keeps the index in agreement with the files. */
  lemma RemoveKeepsConsistency(c: Codec, dir: Directory, guildIds: seq<Uuid>, playerIds: seq<Uuid>, tag: string, id: Uuid)
    requires tag == GuildTag || tag == PlayerTag
    requires IndexAgrees(dir, guildIds, playerIds) && WellKeyed(c, dir)
    ensures IndexAgrees(Deleted(dir, tag, id), GuildIndexAfterRemove(guildIds, tag, id), PlayerIndexAfterRemove(playerIds, tag, id))
    ensures WellKeyed(c, Deleted(dir, tag, id))
  {
    var dir' := Deleted(dir, tag, id);
    forall x: Uuid
      ensures FileName(GuildTag, x) in dir' <==> FileName(GuildTag, x) in dir && !(tag == GuildTag && x == id)
      ensures FileName(PlayerTag, x) in dir' <==> FileName(PlayerTag, x) in dir && !(tag == PlayerTag && x == id)
    {
      if FileName(GuildTag, x) == FileName(tag, id) {
        FileNameInjective(GuildTag, x, tag, id);
      }
      if FileName(PlayerTag, x) == FileName(tag, id) {
        FileNameInjective(PlayerTag, x, tag, id);
      }
    }
    forall x: Uuid
      ensures ReadGuild(c, dir', x).Some? ==> ReadGuild(c, dir, x) == ReadGuild(c, dir', x)
      ensures ReadPlayer(c, dir', x).Some? ==> ReadPlayer(c, dir, x) == ReadPlayer(c, dir', x)
    {
      if GuildTag != tag || x != id {
        DeleteLeavesOthers(c, dir, tag, id, GuildTag, x);
      }
      if PlayerTag != tag || x != id {
        DeleteLeavesOthers(c, dir, tag, id, PlayerTag, x);
      }
    }
  }

  /** When `file.delete()` fails on an existing file, `remove` still drops the id from the index, so the
      index no longer agrees with the files, and the scan of the next store over the directory indexes
      the id again. */
  lemma FailedDeleteBreaksIndex(dir: Directory, guildIds: seq<Uuid>, playerIds: seq<Uuid>, tag: string, id: Uuid, names: seq<string>)
    requires tag == GuildTag || tag == PlayerTag
    requires FileName(tag, id) in dir
    requires forall n :: n in names <==> n in dir
    ensures !IndexAgrees(dir, GuildIndexAfterRemove(guildIds, tag, id), PlayerIndexAfterRemove(playerIds, tag, id))
    ensures ScanIndex(names, tag).Some? ==> id in ScanIndex(names, tag).value
  {
    if tag == GuildTag {
      assert id !in Without(guildIds, id);
    } else {
      assert id !in Without(playerIds, id);
    }
    if ScanIndex(names, tag).Some? {
      ScanIndexesEveryFile(names, tag, id);
    }
  }

  // ---------------------------------------------------------------------------
  // Listings and profiles

  /** `ids.asSequence().mapNotNull { read(it) as T }`: the cast of a `null` throws, so one unreadable
      indexed id fails the whole listing instead of being skipped. */
  function ListAll<T>(ids: seq<Uuid>, read: Uuid -> Option<T>): (r: Result<seq<T>, Error>)
    ensures r.Success? <==> forall i :: 0 <= i < |ids| ==> read(ids[i]).Some?
    ensures r.Success? ==> |r.value| == |ids| && forall i :: 0 <= i < |ids| ==> read(ids[i]) == Some(r.value[i])
    ensures r.Failure? ==> r.error == NullCast
  {
    if ids == [] then Success([])
    else
      assert forall i :: 1 <= i < |ids| ==> ids[i] == ids[1..][i - 1];
      match read(ids[0])
      case None => Failure(NullCast)
      case Some(x) =>
        match ListAll(ids[1..], read)
        case Failure(e) => Failure(e)
        case Success(xs) => Success([x] + xs)
  }

  /** `listAllGuilds()`: one guild per indexed id, in index order. */
  function GuildListing(c: Codec, dir: Directory, guildIds: seq<Uuid>): Result<seq<Guild>, Error> {
    ListAll(guildIds, id => ReadGuild(c, dir, id))
  }

  /** `listAllPlayers()`: one player per indexed id, in index order. */
  function PlayerListing(c: Codec, dir: Directory, playerIds: seq<Uuid>): Result<seq<Player>, Error> {
    ListAll(playerIds, id => ReadPlayer(c, dir, id))
  }

  /** `add` puts the id of every record not tagged `"guild"` into `allPlayerIds`, an invite's too; no player
      file answers for that id, so `listAllPlayers()` then throws. */
  lemma StoredInviteBreaksPlayerListing(c: Codec, dir: Directory, playerIds: seq<Uuid>, i: Invite)
    requires i.tag == InviteTag && FileName(PlayerTag, i.id) !in dir
    ensures PlayerListing(c, Written(c, dir, InviteRecord(i)), PlayerIndexAfterAdd(playerIds, InviteRecord(i))) == Failure(NullCast)
  {
    var r := InviteRecord(i);
    var ids := PlayerIndexAfterAdd(playerIds, r);
    assert i.id in ids;
    var k :| 0 <= k < |ids| && ids[k] == i.id;
    WriteLeavesOthers(c, dir, r, PlayerTag, i.id);
    assert ReadPlayer(c, Written(c, dir, r), ids[k]).None?;
  }

  /** `guildsByMemberId(id)` on a listing: the guilds whose `memberIds` contain `id`, in listing order. */
  function GuildsByMemberId(guilds: seq<Guild>, id: Uuid): (r: seq<Guild>)
    ensures forall g :: g in r <==> g in guilds && id in g.memberIds
    ensures forall g :: multiset(r)[g] == if id in g.memberIds then multiset(guilds)[g] else 0
    ensures IsSubsequence(r, guilds)
  {
    var keep := (g: Guild) => id in g.memberIds;
    FilterIsSubsequence(guilds, keep);
    FilterCounts(guilds, keep);
    Filter(guilds, keep)
  }

  /** `guildsByOwnerId(id)` on a listing: the guilds whose `ownerIds` contain `id`, in listing order. */
  function GuildsByOwnerId(guilds: seq<Guild>, id: Uuid): (r: seq<Guild>)
    ensures forall g :: g in r <==> g in guilds && id in g.ownerIds
    ensures forall g :: multiset(r)[g] == if id in g.ownerIds then multiset(guilds)[g] else 0
    ensures IsSubsequence(r, guilds)
  {
    var keep := (g: Guild) => id in g.ownerIds;
    FilterIsSubsequence(guilds, keep);
    FilterCounts(guilds, keep);
    Filter(guilds, keep)
  }

  /** `playerProfile(id)`: the stored player with `memberOf` and `ownerOf` resolved from the guild listing;
      `Success(None)` is `null`, a `Failure` is what the listing or the `copy` throws. */
  function ResolvedPlayer(c: Codec, dir: Directory, guildIds: seq<Uuid>, id: Uuid): (r: Result<Option<Player>, Error>)
    ensures r == Success(None) <==> ReadPlayer(c, dir, id).None?
    ensures r.Failure? ==> ReadPlayer(c, dir, id).Some?
    ensures r.Failure? <==> ReadPlayer(c, dir, id).Some? && (GuildListing(c, dir, guildIds).Failure? || !ValidPlayer(ReadPlayer(c, dir, id).value))
    ensures r.Success? && r.value.Some? ==>
      var p, q, gs := ReadPlayer(c, dir, id).value, r.value.value, GuildListing(c, dir, guildIds).value;
      && q.(memberOf := p.memberOf, ownerOf := p.ownerOf) == p
      && (forall g :: g in q.memberOf <==> g in gs && p.id in g.memberIds)
      && (forall g :: g in q.ownerOf <==> g in gs && p.id in g.ownerIds)
      && (forall g :: multiset(q.memberOf)[g] == if p.id in g.memberIds then multiset(gs)[g] else 0)
      && (forall g :: multiset(q.ownerOf)[g] == if p.id in g.ownerIds then multiset(gs)[g] else 0)
      && IsSubsequence(q.memberOf, gs) && IsSubsequence(q.ownerOf, gs)
  {
    match ReadPlayer(c, dir, id)
    case None => Success(None)
    case Some(p) =>
      match GuildListing(c, dir, guildIds)
      case Failure(e) => Failure(e)
      case Success(gs) =>
        match NewPlayer(p.(memberOf := GuildsByMemberId(gs, p.id), ownerOf := GuildsByOwnerId(gs, p.id)))
        case Failure(e) => Failure(e)
        case Success(q) => Success(Some(q))
  }

  /** `guildProfile(id)`: the stored guild with `members` and `owners` resolved id by id, in order,
      dropping the ids no player file answers for. */
  function ResolvedGuild(c: Codec, dir: Directory, id: Uuid): (r: Result<Option<Guild>, Error>)
    ensures r == Success(None) <==> ReadGuild(c, dir, id).None?
    ensures r.Failure? <==> ReadGuild(c, dir, id).Some? && !ValidGuild(ReadGuild(c, dir, id).value)
    ensures r.Success? && r.value.Some? ==>
      var g, q := ReadGuild(c, dir, id).value, r.value.value;
      && q.(members := g.members, owners := g.owners) == g
      && q.members == MapNotNull(g.memberIds, (pid: Uuid) => ReadPlayer(c, dir, pid))
      && q.owners == MapNotNull(g.ownerIds, (pid: Uuid) => ReadPlayer(c, dir, pid))
      && |q.members| <= |g.memberIds| && |q.owners| <= |g.ownerIds|
      && (forall i :: 0 <= i < |g.memberIds| && ReadPlayer(c, dir, g.memberIds[i]).Some? ==> ReadPlayer(c, dir, g.memberIds[i]).value in q.members)
      && (forall i :: 0 <= i < |g.ownerIds| && ReadPlayer(c, dir, g.ownerIds[i]).Some? ==> ReadPlayer(c, dir, g.ownerIds[i]).value in q.owners)
  {
    match ReadGuild(c, dir, id)
    case None => Success(None)
    case Some(g) =>
      var read := (pid: Uuid) => ReadPlayer(c, dir, pid);
      match NewGuild(g.(members := MapNotNull(g.memberIds, read), owners := MapNotNull(g.ownerIds, read)))
      case Failure(e) => Failure(e)
      case Success(q) => Success(Some(q))
  }

  /** Each resolved member or owner of a guild profile is the player stored for one of the guild's ids. */
  lemma ResolvedGuildListsOnlyItsIds(c: Codec, dir: Directory, id: Uuid, p: Player)
    requires ResolvedGuild(c, dir, id).Success? && ResolvedGuild(c, dir, id).value.Some?
    ensures var g, q := ReadGuild(c, dir, id).value, ResolvedGuild(c, dir, id).value.value;
      && (p in q.members ==> exists pid :: pid in g.memberIds && ReadPlayer(c, dir, pid) == Some(p))
      && (p in q.owners ==> exists pid :: pid in g.ownerIds && ReadPlayer(c, dir, pid) == Some(p))
  {
    var g := ReadGuild(c, dir, id).value;
    var read := (pid: Uuid) => ReadPlayer(c, dir, pid);
    if p in MapNotNull(g.memberIds, read) {
      MapNotNullResolved(g.memberIds, read, p);
      var i :| 0 <= i < |g.memberIds| && read(g.memberIds[i]) == Some(p);
      assert g.memberIds[i] in g.memberIds;
    }
    if p in MapNotNull(g.ownerIds, read) {
      MapNotNullResolved(g.ownerIds, read, p);
      var i :| 0 <= i < |g.ownerIds| && read(g.ownerIds[i]) == Some(p);
      assert g.ownerIds[i] in g.ownerIds;
    }
  }

  /** On a well-keyed directory, a player's profile lists exactly the listed guilds that name the player. */
  lemma ResolvedPlayerMemberships(c: Codec, dir: Directory, guildIds: seq<Uuid>, id: Uuid)
    requires WellKeyed(c, dir)
    requires ResolvedPlayer(c, dir, guildIds, id).Success? && ResolvedPlayer(c, dir, guildIds, id).value.Some?
    ensures var q, gs := ResolvedPlayer(c, dir, guildIds, id).value.value, GuildListing(c, dir, guildIds).value;
      && q.id == id
      && (forall g :: g in q.memberOf <==> g in gs && id in g.memberIds)
      && (forall g :: g in q.ownerOf <==> g in gs && id in g.ownerIds)
  {
    assert ReadPlayer(c, dir, id).value.id == id;
  }

  // ---------------------------------------------------------------------------
  // Membership changes

  /** What `removePlayerFromGuild(playerId, guildId)` writes: `Success(None)` when the player or the guild
      is absent (it returns false), a `Failure` when the `copy` throws, otherwise the updated guild. */
  function RemovalPlan(c: Codec, dir: Directory, playerId: Uuid, guildId: Uuid): (r: Result<Option<Guild>, Error>)
    ensures r == Success(None) <==> ReadPlayer(c, dir, playerId).None? || ReadGuild(c, dir, guildId).None?
    ensures r.Success? && r.value.Some? ==>
      var p, g, u := ReadPlayer(c, dir, playerId).value, ReadGuild(c, dir, guildId).value, r.value.value;
      u == g.(memberIds := Distinct(Without(g.memberIds, p.id)), ownerIds := Distinct(Without(g.ownerIds, p.id)))
    ensures r.Success? && r.value.Some? ==> ValidGuild(r.value.value)
    ensures r.Failure? ==> r.error.IllegalArgument?
  {
    match ReadPlayer(c, dir, playerId)
    case None => Success(None)
    case Some(p) =>
      match ReadGuild(c, dir, guildId)
      case None => Success(None)
      case Some(g) =>
        var memberIds := Distinct(Without(g.memberIds, p.id));
        var ownerIds := Distinct(Without(g.ownerIds, p.id));
        match NewGuild(g.(memberIds := memberIds, ownerIds := ownerIds))
        case Failure(e) => Failure(e)
        case Success(u) => Success(Some(u))
  }

  /** What `addGuildMember(playerId, guildId)` writes: `memberIds.union(listOf(player.id))`. */
  function AdditionPlan(c: Codec, dir: Directory, playerId: Uuid, guildId: Uuid): (r: Result<Option<Guild>, Error>)
    ensures r == Success(None) <==> ReadPlayer(c, dir, playerId).None? || ReadGuild(c, dir, guildId).None?
    ensures r.Success? && r.value.Some? ==>
      var p, g, u := ReadPlayer(c, dir, playerId).value, ReadGuild(c, dir, guildId).value, r.value.value;
      u == g.(memberIds := Distinct(g.memberIds + [p.id]))
    ensures r.Success? && r.value.Some? ==> ValidGuild(r.value.value)
    ensures r.Failure? ==> r.error.IllegalArgument?
  {
    match ReadPlayer(c, dir, playerId)
    case None => Success(None)
    case Some(p) =>
      match ReadGuild(c, dir, guildId)
      case None => Success(None)
      case Some(g) =>
        match NewGuild(g.(memberIds := Distinct(g.memberIds + [p.id])))
        case Failure(e) => Failure(e)
        case Success(u) => Success(Some(u))
  }

  /** Removal takes the player out of both lists and keeps the other ids, each once, in first-seen order. */
  lemma RemovalRemovesFromBothLists(c: Codec, dir: Directory, playerId: Uuid, guildId: Uuid)
    requires WellKeyed(c, dir)
    requires RemovalPlan(c, dir, playerId, guildId).Success? && RemovalPlan(c, dir, playerId, guildId).value.Some?
    ensures var g, u := ReadGuild(c, dir, guildId).value, RemovalPlan(c, dir, playerId, guildId).value.value;
      && playerId !in u.memberIds && playerId !in u.ownerIds
      && (forall x :: x != playerId ==> (x in u.memberIds <==> x in g.memberIds) && (x in u.ownerIds <==> x in g.ownerIds))
      && NoDuplicates(u.memberIds) && NoDuplicates(u.ownerIds)
      && |u.ownerIds| > 0
      && u.id == guildId && u.name == g.name && u.description == g.description
  {
    assert ReadPlayer(c, dir, playerId).value.id == playerId;
  }

  /** Removing the last owner makes the `copy` throw: nothing is written. */
  lemma RemovingLastOwnerFails(c: Codec, dir: Directory, playerId: Uuid, guildId: Uuid)
    requires ReadPlayer(c, dir, playerId).Some? && ReadGuild(c, dir, guildId).Some?
    requires forall x :: x in ReadGuild(c, dir, guildId).value.ownerIds ==> x == ReadPlayer(c, dir, playerId).value.id
    ensures RemovalPlan(c, dir, playerId, guildId) == Failure(IllegalArgument(GuildOwnerMessage(ReadGuild(c, dir, guildId).value.name)))
  {
    var p, g := ReadPlayer(c, dir, playerId).value, ReadGuild(c, dir, guildId).value;
    assert Distinct(Without(g.ownerIds, p.id)) == [];
  }

  /** Addition puts the player among the members once and touches nothing else. */
  lemma AdditionAddsOnce(c: Codec, dir: Directory, playerId: Uuid, guildId: Uuid)
    requires WellKeyed(c, dir)
    requires AdditionPlan(c, dir, playerId, guildId).Success? && AdditionPlan(c, dir, playerId, guildId).value.Some?
    ensures var g, u := ReadGuild(c, dir, guildId).value, AdditionPlan(c, dir, playerId, guildId).value.value;
      && playerId in u.memberIds && NoDuplicates(u.memberIds)
      && (forall x :: x in u.memberIds <==> x in g.memberIds || x == playerId)
      && u.memberIds == (if playerId in g.memberIds then Distinct(g.memberIds) else Distinct(g.memberIds) + [playerId])
      && u.ownerIds == g.ownerIds && u.name == g.name && u.description == g.description && u.id == guildId
  {
    var g := ReadGuild(c, dir, guildId).value;
    assert ReadPlayer(c, dir, playerId).value.id == playerId;
    DistinctSnoc(g.memberIds, playerId);
  }

  /** A second `addGuildMember` with the same ids writes the guild the first one wrote. */
  lemma AdditionIdempotent(c: Codec, dir: Directory, playerId: Uuid, guildId: Uuid)
    requires RoundTrips(c) && WellKeyed(c, dir)
    requires AdditionPlan(c, dir, playerId, guildId).Success? && AdditionPlan(c, dir, playerId, guildId).value.Some?
    ensures var u := AdditionPlan(c, dir, playerId, guildId).value.value;
      AdditionPlan(c, Written(c, dir, GuildRecord(u)), playerId, guildId) == Success(Some(u))
  {
    var p, g := ReadPlayer(c, dir, playerId).value, ReadGuild(c, dir, guildId).value;
    var u := AdditionPlan(c, dir, playerId, guildId).value.value;
    var dir' := Written(c, dir, GuildRecord(u));
    assert g.id == guildId && g.tag == GuildTag;
    ReadAfterWrite(c, dir, GuildRecord(u));
    WriteLeavesOthers(c, dir, GuildRecord(u), PlayerTag, playerId);
    assert ReadGuild(c, dir', guildId) == Some(u);
    assert ReadPlayer(c, dir', playerId) == Some(p);
    DistinctSnoc(u.memberIds, p.id);
    DistinctOfNoDuplicates(u.memberIds);
    assert u.(memberIds := Distinct(u.memberIds + [p.id])) == u;
  }

  /** The guild a membership change writes goes back into its own file, so the store stays consistent. */
  lemma PlannedGuildIsStorable(c: Codec, dir: Directory, u: Guild, guildId: Uuid)
    requires WellKeyed(c, dir)
    requires ReadGuild(c, dir, guildId).Some?
    requires u.id == ReadGuild(c, dir, guildId).value.id && u.tag == ReadGuild(c, dir, guildId).value.tag
    ensures Storable(GuildRecord(u)) && u.id == guildId
  {
  }

  // ---------------------------------------------------------------------------
  // The store object

  /** `DAOFacadeStore(dataDir)`: the directory's files and the two id indexes, `allGuildIds` and
      `allPlayerIds` (insertion-ordered sets, so duplicate-free sequences here). */
  class DaoFacadeStore {
    const codec: Codec
    var files: Directory
    var guildIds: seq<Uuid>
    var playerIds: seq<Uuid>

    ghost predicate Valid()
      reads this
    {
      NoDuplicates(guildIds) && NoDuplicates(playerIds)
    }

    /** The indexes agree with the files and every record sits in the file named after it. */
    ghost predicate Consistent()
      reads this
    {
      Valid() && IndexAgrees(files, guildIds, playerIds) && WellKeyed(codec, files)
    }

    /** A store over `dir`, whose files the directory lists in `listing` order; the lazy index
        initialisers are run here, once. */
    constructor (codec: Codec, dir: Directory, listing: seq<string>)
      requires forall n :: n in listing <==> n in dir
      requires ScanIndex(listing, GuildTag).Some? && ScanIndex(listing, PlayerTag).Some?
      ensures Valid()
      ensures this.codec == codec && files == dir
      ensures guildIds == ScanIndex(listing, GuildTag).value && playerIds == ScanIndex(listing, PlayerTag).value
      ensures Canonical(dir) ==> IndexAgrees(files, guildIds, playerIds)
    {
      this.codec := codec;
      files := dir;
      guildIds := ScanIndex(listing, GuildTag).value;
      playerIds := ScanIndex(listing, PlayerTag).value;
      new;
      if Canonical(dir) {
        ScanAgrees(listing, dir);
      }
    }

    /** `byId(type, id)`. */
    method ById(tag: string, id: Uuid) returns (r: Option<Record>)
      ensures r == ReadRecord(codec, files, tag, id)
    {
      var name := FileName(tag, id);
      if name !in files {
        return None;
      }
      if tag == GuildTag {
        var g := codec.decodeGuild(files[name]);
        r := if g.Some? then Some(GuildRecord(g.value)) else None;
      } else {
        var p := codec.decodePlayer(files[name]);
        r := if p.Some? then Some(PlayerRecord(p.value)) else None;
      }
    }

    /** `playerById(id)`. */
    method PlayerById(id: Uuid) returns (r: Option<Player>)
      ensures r == ReadPlayer(codec, files, id)
    {
      var record := ById(PlayerTag, id);
      r := if record.Some? && record.value.PlayerRecord? then Some(record.value.player) else None;
    }

    /** `guildById(id)`. */
    method GuildById(id: Uuid) returns (r: Option<Guild>)
      ensures r == ReadGuild(codec, files, id)
    {
      var record := ById(GuildTag, id);
      r := if record.Some? && record.value.GuildRecord? then Some(record.value.guild) else None;
    }

    /** `add(record)`: write the record's file, then add its id to the index its tag selects. */
    method Add(r: Record) returns (id: Uuid)
      requires Valid()
      modifies this
      ensures Valid()
      ensures id == r.Id()
      ensures files == Written(codec, old(files), r)
      ensures guildIds == GuildIndexAfterAdd(old(guildIds), r) && playerIds == PlayerIndexAfterAdd(old(playerIds), r)
      ensures RoundTrips(codec) && TagSelectsClass(r) ==> ReadRecord(codec, files, r.Tag(), r.Id()) == Some(r)
      ensures old(Consistent()) && RoundTrips(codec) && Storable(r) ==> Consistent()
    {
      ghost var dir := files;
      files := files[FileName(r.Tag(), r.Id()) := codec.encode(r)];
      if r.Tag() == GuildTag {
        guildIds := Insert(guildIds, r.Id());
      } else {
        playerIds := Insert(playerIds, r.Id());
      }
      id := r.Id();
      if RoundTrips(codec) && TagSelectsClass(r) {
        ReadAfterWrite(codec, dir, r);
      }
      if old(Consistent()) && RoundTrips(codec) && Storable(r) {
        AddKeepsConsistency(codec, dir, old(guildIds), old(playerIds), r);
      }
    }

    /** `remove(type, id)`: delete the file if it exists, drop the id from the index; always `true`.
        `removed` is the operating system's answer to `file.delete()`, which the source ignores. */
    method Remove(tag: string, id: Uuid, removed: bool) returns (ok: bool)
      requires Valid()
      modifies this
      ensures Valid()
      ensures ok
      ensures files == if removed then Deleted(old(files), tag, id) else old(files)
      ensures guildIds == GuildIndexAfterRemove(old(guildIds), tag, id)
      ensures playerIds == PlayerIndexAfterRemove(old(playerIds), tag, id)
      ensures removed || FileName(tag, id) !in old(files) ==> ReadRecord(codec, files, tag, id) == None
      ensures old(Consistent()) && (tag == GuildTag || tag == PlayerTag) && (removed || FileName(tag, id) !in old(files)) ==> Consistent()
    {
      ghost var dir := files;
      var name := FileName(tag, id);
      if name in files && removed {
        files := files - {name};
      }
      if tag == GuildTag {
        WithoutIsSubsequence(guildIds, id);
        SubsequenceKeepsNoDuplicates(Without(guildIds, id), guildIds);
        guildIds := Without(guildIds, id);
      } else {
        WithoutIsSubsequence(playerIds, id);
        SubsequenceKeepsNoDuplicates(Without(playerIds, id), playerIds);
        playerIds := Without(playerIds, id);
      }
      ok := true;
      if old(Consistent()) && (tag == GuildTag || tag == PlayerTag) && (removed || FileName(tag, id) !in old(files)) {
        RemoveKeepsConsistency(codec, dir, old(guildIds), old(playerIds), tag, id);
      }
    }

    /** `listAllPlayers()`. */
    method ListAllPlayers() returns (r: Result<seq<Player>, Error>)
      ensures r == PlayerListing(codec, files, playerIds)
    {
      r := PlayerListing(codec, files, playerIds);
    }

    /** `listAllGuilds()`. */
    method ListAllGuilds() returns (r: Result<seq<Guild>, Error>)
      ensures r == GuildListing(codec, files, guildIds)
    {
      r := GuildListing(codec, files, guildIds);
    }

    /** `playerProfile(id)`. */
    method PlayerProfile(id: Uuid) returns (r: Result<Option<Player>, Error>)
      ensures r == ResolvedPlayer(codec, files, guildIds, id)
    {
      var player := PlayerById(id);
      if player.None? {
        return Success(None);
      }
      var p := player.value;
      var guilds := ListAllGuilds();
      if guilds.Failure? {
        return Failure(guilds.error);
      }
      var memberOf := GuildsByMemberId(guilds.value, p.id);
      var ownerOf := GuildsByOwnerId(guilds.value, p.id);
      var copy := NewPlayer(p.(memberOf := memberOf, ownerOf := ownerOf));
      r := if copy.Success? then Success(Some(copy.value)) else Failure(copy.error);
    }

    /** `guildProfile(id)`. */
    method GuildProfile(id: Uuid) returns (r: Result<Option<Guild>, Error>)
      ensures r == ResolvedGuild(codec, files, id)
    {
      var guild := GuildById(id);
      if guild.None? {
        return Success(None);
      }
      var g := guild.value;
      var c, dir := codec, files;
      var read := (pid: Uuid) => ReadPlayer(c, dir, pid);
      var members := MapNotNull(g.memberIds, read);
      var owners := MapNotNull(g.ownerIds, read);
      var copy := NewGuild(g.(members := members, owners := owners));
      r := if copy.Success? then Success(Some(copy.value)) else Failure(copy.error);
    }

    /** `removePlayerFromGuild(playerId, guildId)`: `false` when either is absent, the `copy`'s exception
        when the result is not a valid guild, otherwise the updated guild is written and the answer is `true`. */
    method RemovePlayerFromGuild(playerId: Uuid, guildId: Uuid) returns (r: Result<bool, Error>)
      requires Valid()
      modifies this
      ensures Valid()
      ensures var plan := RemovalPlan(codec, old(files), playerId, guildId);
        && r == (if plan.Failure? then Failure(plan.error) else Success(plan.value.Some?))
        && if plan.Success? && plan.value.Some? then
             && files == Written(codec, old(files), GuildRecord(plan.value.value))
             && guildIds == GuildIndexAfterAdd(old(guildIds), GuildRecord(plan.value.value))
             && playerIds == PlayerIndexAfterAdd(old(playerIds), GuildRecord(plan.value.value))
           else
             files == old(files) && guildIds == old(guildIds) && playerIds == old(playerIds)
      ensures old(Consistent()) && RoundTrips(codec) ==> Consistent()
    {
      var player := PlayerById(playerId);
      if player.None? {
        return Success(false);
      }
      var guild := GuildById(guildId);
      if guild.None? {
        return Success(false);
      }
      var g := guild.value;
      var memberIds := Distinct(Without(g.memberIds, player.value.id));
      var ownerIds := Distinct(Without(g.ownerIds, player.value.id));
      var update := NewGuild(g.(memberIds := memberIds, ownerIds := ownerIds));
      if update.Failure? {
        return Failure(update.error);
      }
      if old(Consistent()) {
        PlannedGuildIsStorable(codec, files, update.value, guildId);
      }
      var _ := Add(GuildRecord(update.value));
      r := Success(true);
    }

    /** `addGuildMember(playerId, guildId)`: `false` when either is absent, otherwise the player's id is
        added to `memberIds` (as a set union) and the guild is written. */
    method AddGuildMember(playerId: Uuid, guildId: Uuid) returns (r: Result<bool, Error>)
      requires Valid()
      modifies this
      ensures Valid()
      ensures var plan := AdditionPlan(codec, old(files), playerId, guildId);
        && r == (if plan.Failure? then Failure(plan.error) else Success(plan.value.Some?))
        && if plan.Success? && plan.value.Some? then
             && files == Written(codec, old(files), GuildRecord(plan.value.value))
             && guildIds == GuildIndexAfterAdd(old(guildIds), GuildRecord(plan.value.value))
             && playerIds == PlayerIndexAfterAdd(old(playerIds), GuildRecord(plan.value.value))
           else
             files == old(files) && guildIds == old(guildIds) && playerIds == old(playerIds)
      ensures old(Consistent()) && RoundTrips(codec) ==> Consistent()
    {
      var player := PlayerById(playerId);
      if player.None? {
        return Success(false);
      }
      var guild := GuildById(guildId);
      if guild.None? {
        return Success(false);
      }
      var g := guild.value;
      var memberIds := Distinct(g.memberIds + [player.value.id]);
      var update := NewGuild(g.(memberIds := memberIds));
      if update.Failure? {
        return Failure(update.error);
      }
      if old(Consistent()) {
        PlannedGuildIsStorable(codec, files, update.value, guildId);
      }
      var _ := Add(GuildRecord(update.value));
      r := Success(true);
    }
  }
}
