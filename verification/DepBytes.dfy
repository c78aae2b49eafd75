/**
  The two packed bytes of the dependency cache, bit by bit. A dependency's byte
  holds three results for the dependency itself (bits 0..2) and the same three
  for its or-group up to and including it (bits 3..5); the byte of a negative
  dependency is stored inverted, its two top bits included.
*/
module DepBytes {

  datatype VersionType = NowVersion | InstallVersion | CandidateVersion

  datatype Bits = Bits(now: bool, install: bool, cver: bool)
  {
    predicate At(ty: VersionType) {
      match ty
      case NowVersion => now
      case InstallVersion => install
      case CandidateVersion => cver
    }

    function Or(o: Bits): Bits { Bits(now || o.now, install || o.install, cver || o.cver) }

    function Flip(invert: bool): Bits { Bits(now != invert, install != invert, cver != invert) }

    /** Equal as far as the Now and the Install check are concerned. */
    predicate Agrees(o: Bits) { now == o.now && install == o.install }
  }

  const NO_BITS := Bits(false, false, false)

  datatype Byte = Byte(low: Bits, group: Bits, top: bool)
  {
    predicate Agrees(o: Byte) { low.Agrees(o.low) && group.Agrees(o.group) && top == o.top }
  }

  const ZERO_BYTE := Byte(NO_BITS, NO_BITS, false)

  function Stored(raw: Bits, group: Bits, negative: bool): Byte {
    Byte(raw.Flip(negative), group.Flip(negative), negative)
  }

  function RawOf(b: Byte, negative: bool): Bits {
    b.low.Flip(negative)
  }

  /** The test the version scan applies to the last byte of an or-group: low bits or group bits. */
  predicate Passes(b: Byte, check: VersionType) {
    b.low.At(check) || b.group.At(check)
  }

  /** The summary byte of a package: a bit that is low means broken. */
  datatype Summary = Summary(
    nowPolicy: bool, nowMin: bool, instPolicy: bool, instMin: bool, candPolicy: bool, candMin: bool)

  const ZERO_SUMMARY := Summary(false, false, false, false, false, false)

  /** For a positive end the group decides, for a negative one only the end itself does. */
  lemma PassesStored(raw: Bits, before: Bits, negative: bool, check: VersionType)
    ensures Passes(Stored(raw, before.Or(raw), negative), check)
       <==> if negative then !raw.At(check) else before.At(check) || raw.At(check)
  {
  }
}
