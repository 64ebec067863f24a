/** `java.util.UUID` in its canonical text form, as `toString` prints it and as file names carry it. */
module Uuids {
  import opened Wrappers

  predicate IsLowerHexDigit(c: char) {
    ('0' <= c <= '9') || ('a' <= c <= 'f')
  }

  /** The positions of the four hyphens in `xxxxxxxx-xxxx-xxxx-xxxx-xxxxxxxxxxxx`. */
  predicate IsHyphenPosition(i: int) {
    i == 8 || i == 13 || i == 18 || i == 23
  }

  predicate IsUuidText(s: string) {
    && |s| == 36
    && forall i :: 0 <= i < 36 ==> if IsHyphenPosition(i) then s[i] == '-' else IsLowerHexDigit(s[i])
  }

  /** A UUID, identified with its canonical text. */
  type Uuid = s: string | IsUuidText(s)
    witness seq(36, i => if IsHyphenPosition(i) then '-' else '0')

  /** `UUID.fromString`, restricted to the canonical form; `None` stands for the exception it throws. */
  function Parse(s: string): (r: Option<Uuid>)
    ensures r.Some? <==> IsUuidText(s)
    ensures r.Some? ==> r.value == s
  {
    if IsUuidText(s) then Some(s) else None
  }

  /** The text of a UUID never contains a dot, so the dot-separated parts of a file name stay apart. */
  lemma NoDotInUuid(u: Uuid)
    ensures '.' !in u
  {
  }

  /** `UUID.fromString(u.toString())` gives back `u`. */
  lemma ParseText(u: Uuid)
    ensures Parse(u) == Some(u)
  {
  }
}
