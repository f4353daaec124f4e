/** The fixed-width text values the contracts store (shipment requirements
    and company registration numbers): 32 characters, padded on the right
    with NUL characters. Each character stands for one byte, so the model
    covers ASCII text. */
module Bytes32Codec {
  import opened Ledger

  /** The width of a stored value. */
  const WIDTH: nat := 32

  const NUL: char := '\0'

  /** A stored 32-character value. */
  type Bytes32 = b: seq<char> | |b| == 32 witness seq(32, _ => '\0')

  /** `n` NUL characters. */
  function Nuls(n: nat): (r: seq<char>)
    ensures |r| == n
    ensures forall i :: 0 <= i < n ==> r[i] == NUL
  {
    seq(n, _ => NUL)
  }

  /** The all-NUL value, read back for a registry entry that was never set. */
  const EMPTY: Bytes32 := Nuls(WIDTH)

  /** True when `s` does not end in a NUL character, that is, when padding
      `s` loses no information. */
  predicate Unpadded(s: seq<char>) {
    |s| == 0 || s[|s| - 1] != NUL
  }

  /** The encoder of test/utils.js: `s` followed by `32 - |s|` NULs. A string
      longer than 32 characters has no encoding (the allocation of a negative
      number of padding bytes throws). */
  function NormaliseBytes32(s: string): (r: Option<Bytes32>)
    ensures r.Some? <==> |s| <= WIDTH
    ensures r.Some? ==> r.value[..|s|] == s
    ensures r.Some? ==> forall i :: |s| <= i < WIDTH ==> r.value[i] == NUL
  {
    if |s| <= WIDTH then Some(s + Nuls(WIDTH - |s|)) else None
  }

  /** The decoder: drops the trailing NULs of a stored value. */
  function StripNuls(b: seq<char>): (r: seq<char>)
    ensures |r| <= |b| && r == b[..|r|]
    ensures Unpadded(r)
    ensures forall i :: |r| <= i < |b| ==> b[i] == NUL
  {
    if |b| == 0 || b[|b| - 1] != NUL then b
    else StripNuls(b[..|b| - 1])
  }

  /** Decoding an encoded string gives the string back, provided it does not
      itself end in NUL. */
  lemma StripAfterNormalise(s: string)
    requires |s| <= WIDTH && Unpadded(s)
    ensures StripNuls(NormaliseBytes32(s).value) == s
  {
    var p := NormaliseBytes32(s).value;
    var r := StripNuls(p);
    if |s| > 0 {
      assert p[|s| - 1] == p[..|s|][|s| - 1] == s[|s| - 1];
    }
    assert |r| == |s|;
  }

  /** Encoding a decoded value gives the value back: every stored value is
      the encoding of its stripped form. */
  lemma NormaliseAfterStrip(b: Bytes32)
    ensures NormaliseBytes32(StripNuls(b)) == Some(b)
  {
    var r := StripNuls(b);
    var p := NormaliseBytes32(r).value;
    assert forall i :: 0 <= i < WIDTH ==> p[i] == b[i] by {
      forall i | 0 <= i < WIDTH
        ensures p[i] == b[i]
      {
        if i < |r| {
          assert p[i] == p[..|r|][i] == r[i];
        }
      }
    }
    assert p == b;
  }

  /** Distinct unpadded strings have distinct encodings, so a value stored
      under an encoded key identifies the string it came from. */
  lemma NormaliseInjective(s: string, t: string)
    requires |s| <= WIDTH && Unpadded(s)
    requires |t| <= WIDTH && Unpadded(t)
    requires NormaliseBytes32(s) == NormaliseBytes32(t)
    ensures s == t
  {
    StripAfterNormalise(s);
    StripAfterNormalise(t);
  }

  /** A string that already fills the width is stored unchanged. */
  lemma NormaliseFullWidth(s: string)
    requires |s| == WIDTH
    ensures NormaliseBytes32(s) == Some(s)
  {
    assert s + Nuls(0) == s;
  }

  /** The empty string encodes to the value an unset entry reads back as. */
  lemma NormaliseEmpty()
    ensures NormaliseBytes32("") == Some(EMPTY)
  {
  }
}
