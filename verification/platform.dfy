/** The control-system platform has no boolean type on its signal
    interface: booleans travel as 16-bit integers, 1 for true and 0 for
    false, and any non-zero value reads back as true. */
module Platform {

  /** A signed 16-bit integer, the platform's `short`. */
  newtype Int16 = x: int | -0x8000 <= x < 0x8000

  /** Encode a boolean for the platform. */
  function ToPlatformBool(b: bool): (v: Int16)
    ensures b ==> v == 1
    ensures !b ==> v == 0
  {
    if b then 1 else 0
  }

  /** Decode a platform value: every non-zero value is true. */
  function ToBool(v: Int16): (b: bool)
    ensures b <==> v != 0
  {
    v != 0
  }

  /** Encoding then decoding gives the boolean back. */
  lemma DecodeEncode(b: bool)
    ensures ToBool(ToPlatformBool(b)) == b
  {
  }

  /** Decoding then encoding gives the value back exactly for 0 and 1;
      every other non-zero value collapses to 1. */
  lemma EncodeDecode(v: Int16)
    ensures ToPlatformBool(ToBool(v)) == v <==> (v == 0 || v == 1)
    ensures v != 0 ==> ToPlatformBool(ToBool(v)) == 1
  {
  }

  /** Encoding is injective, so comparing encoded values compares the
      booleans. */
  lemma EncodeInjective(a: bool, b: bool)
    ensures ToPlatformBool(a) == ToPlatformBool(b) <==> a == b
  {
  }
}
