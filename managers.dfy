/** `ManagerInterface`: the simpler store with one file per id, named `<id>.idx`, and no index. */
module Managers {
  import opened Wrappers
  import opened Uuids
  import opened Models
  import opened Codecs
  import opened Stores

  /** `buildFile(id)`: the file `"$id.idx"` in the data directory; it depends on the id alone. */
  function ManagedFile(id: Uuid): string {
    id + ".idx"
  }

  /** Different ids never share a file. */
  lemma ManagedFileInjective(a: Uuid, b: Uuid)
    ensures ManagedFile(a) == ManagedFile(b) <==> a == b
  {
    assert ManagedFile(a)[..36] == a && ManagedFile(b)[..36] == b;
  }

  /** A manager's file never has the name of a store file, whatever the type, so both can share a directory. */
  lemma ManagedFileIsNoStoreFile(a: Uuid, tag: string, b: Uuid)
    ensures ManagedFile(a) != FileName(tag, b)
  {
    assert |ManagedFile(a)| == 40 && |FileName(tag, b)| == 41 + |tag|;
  }

  /** The manager's codec pair: decoding what was encoded gives the record back. */
  ghost predicate Inverts<T(!new)>(encode: T -> string, decode: string -> Option<T>) {
    forall x :: decode(encode(x)) == Some(x)
  }

  /** `fromFile(id)`: `readText()` throws on a missing file and Gson throws on text it cannot parse;
      unlike the store's `byId`, neither comes back as `null`. */
  function Load<T>(decode: string -> Option<T>, dir: Directory, id: Uuid): (r: Result<T, Error>)
    ensures r == Failure(FileNotFound(ManagedFile(id))) <==> ManagedFile(id) !in dir
    ensures r.Success? <==> ManagedFile(id) in dir && decode(dir[ManagedFile(id)]).Some?
    ensures r.Success? ==> decode(dir[ManagedFile(id)]) == Some(r.value)
    ensures r.Failure? ==> r.error == FileNotFound(ManagedFile(id)) || r.error == Malformed(ManagedFile(id))
  {
    var name := ManagedFile(id);
    if name !in dir then Failure(FileNotFound(name))
    else match decode(dir[name])
      case None => Failure(Malformed(name))
      case Some(x) => Success(x)
  }

  /** The directory after `toFile(record)`: the record's own file holds its encoding. */
  function Saved<T>(encode: T -> string, idOf: T -> Uuid, dir: Directory, record: T): Directory {
    dir[ManagedFile(idOf(record)) := encode(record)]
  }

  /** The directory after a delete that took place. */
  function Dropped(dir: Directory, id: Uuid): Directory {
    dir - {ManagedFile(id)}
  }

  /** `toFile(r)` then `fromFile(r.id)` gives `r` back. */
  lemma LoadAfterSave<T(!new)>(encode: T -> string, decode: string -> Option<T>, idOf: T -> Uuid, dir: Directory, record: T)
    requires Inverts(encode, decode)
    ensures Load(decode, Saved(encode, idOf, dir, record), idOf(record)) == Success(record)
  {
    assert decode(encode(record)) == Some(record);
  }

  /** `toFile(r)` adds or overwrites the file of `r.id` and no other. */
  lemma SaveLeavesOthers<T>(encode: T -> string, decode: string -> Option<T>, idOf: T -> Uuid, dir: Directory, record: T, id: Uuid)
    requires id != idOf(record)
    ensures Saved(encode, idOf, dir, record).Keys == dir.Keys + {ManagedFile(idOf(record))}
    ensures Load(decode, Saved(encode, idOf, dir, record), id) == Load(decode, dir, id)
  {
    ManagedFileInjective(id, idOf(record));
  }

  /** After a delete, `fromFile(id)` fails for want of the file; the other ids read as before. */
  lemma LoadAfterDrop<T>(decode: string -> Option<T>, dir: Directory, id: Uuid, other: Uuid)
    requires other != id
    ensures Load(decode, Dropped(dir, id), id) == Failure(FileNotFound(ManagedFile(id)))
    ensures Load(decode, Dropped(dir, id), other) == Load(decode, dir, other)
  {
    ManagedFileInjective(id, other);
  }

  /** A `PlayerManager`, `GuildManager` or `InviteManager` over a data directory. */
  class Manager<T(!new)> {
    /** Gson, seen from one model class (`modelKlass`). */
    const encode: T -> string
    const decode: string -> Option<T>
    /** `Identifiable.id`. */
    const idOf: T -> Uuid
    var files: Directory

    constructor (encode: T -> string, decode: string -> Option<T>, idOf: T -> Uuid, files: Directory)
      ensures this.encode == encode && this.decode == decode && this.idOf == idOf && this.files == files
    {
      this.encode := encode;
      this.decode := decode;
      this.idOf := idOf;
      this.files := files;
    }

    /** `fromFile(id)`. */
    method FromFile(id: Uuid) returns (r: Result<T, Error>)
      ensures r == Load(decode, files, id)
    {
      var name := ManagedFile(id);
      if name !in files {
        return Failure(FileNotFound(name));
      }
      var x := decode(files[name]);
      r := if x.Some? then Success(x.value) else Failure(Malformed(name));
    }

    /** `toFile(record)`: writes the record's encoding over its file. */
    method ToFile(record: T)
      modifies this
      ensures files == Saved(encode, idOf, old(files), record)
      ensures Inverts(encode, decode) ==> Load(decode, files, idOf(record)) == Success(record)
    {
      files := files[ManagedFile(idOf(record)) := encode(record)];
      if Inverts(encode, decode) {
        LoadAfterSave(encode, decode, idOf, old(files), record);
      }
    }

    /** `deleteFile(id)`: `true` when there is no file; otherwise what `File.delete()` answers, which
        the operating system decides and is given here as `removed`. */
    method DeleteFile(id: Uuid, removed: bool) returns (ok: bool)
      modifies this
      ensures ManagedFile(id) !in old(files) ==> ok && files == old(files)
      ensures ManagedFile(id) in old(files) ==> ok == removed && files == (if removed then Dropped(old(files), id) else old(files))
      ensures ok ==> Load(decode, files, id) == Failure(FileNotFound(ManagedFile(id)))
    {
      var name := ManagedFile(id);
      if name in files {
        if removed {
          files := files - {name};
        }
        return removed;
      }
      return true;
    }
  }

  /** `PlayerManager(dataDir)`: the codec seen from class `Player`. */
  method NewPlayerManager(c: Codec, dir: Directory) returns (m: Manager<Player>)
    ensures fresh(m) && m.files == dir
    ensures forall p :: m.idOf(p) == p.id && m.encode(p) == c.encode(PlayerRecord(p))
    ensures m.decode == c.decodePlayer
    ensures RoundTrips(c) ==> Inverts(m.encode, m.decode)
  {
    m := new Manager(p => c.encode(PlayerRecord(p)), c.decodePlayer, (p: Player) => p.id, dir);
  }

  /** `GuildManager(dataDir)`: the codec seen from class `Guild`. */
  method NewGuildManager(c: Codec, dir: Directory) returns (m: Manager<Guild>)
    ensures fresh(m) && m.files == dir
    ensures forall g :: m.idOf(g) == g.id && m.encode(g) == c.encode(GuildRecord(g))
    ensures m.decode == c.decodeGuild
    ensures RoundTrips(c) ==> Inverts(m.encode, m.decode)
  {
    m := new Manager(g => c.encode(GuildRecord(g)), c.decodeGuild, (g: Guild) => g.id, dir);
  }

  /** `InviteManager(dataDir)`: the codec seen from class `Invite`. */
  method NewInviteManager(c: Codec, dir: Directory) returns (m: Manager<Invite>)
    ensures fresh(m) && m.files == dir
    ensures forall i :: m.idOf(i) == i.id && m.encode(i) == c.encode(InviteRecord(i))
    ensures m.decode == c.decodeInvite
    ensures RoundTrips(c) ==> Inverts(m.encode, m.decode)
  {
    m := new Manager(i => c.encode(InviteRecord(i)), c.decodeInvite, (i: Invite) => i.id, dir);
  }
}
