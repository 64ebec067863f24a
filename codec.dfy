/** The JSON codec, kept abstract: an encoder and one decoder per class, each decoder free to fail. */
module Codecs {
  import opened Wrappers
  import opened Models

  datatype Codec = Codec(
    encode: Record -> string,
    decodePlayer: string -> Option<Player>,
    decodeGuild: string -> Option<Guild>,
    decodeInvite: string -> Option<Invite>)

  /** Decoding what was encoded, as the record's own class, gives the record back. */
  ghost predicate RoundTrips(c: Codec) {
    && (forall p :: c.decodePlayer(c.encode(PlayerRecord(p))) == Some(p))
    && (forall g :: c.decodeGuild(c.encode(GuildRecord(g))) == Some(g))
    && (forall i :: c.decodeInvite(c.encode(InviteRecord(i))) == Some(i))
  }
}
