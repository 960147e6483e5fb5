/** Atoms as byte strings, and a reference definition of the integer casts.

    The runtime converts keyword positions to atoms with `int_to_bytes` and reads
    atoms back as integers with `int_from_bytes`; both live in `clvm/casts.py`,
    which is not part of this model. The keyword tables are therefore stated for
    ANY conversion function that meets two stated assumptions (see
    `Runtime001.CastsAssumptions`). The functions below are one definition of
    the documented encoding — minimal big-endian two's complement, with 0 as the
    empty atom — that shows the assumptions can be met and that `int_from_bytes`
    undoes `int_to_bytes`. (The converse holds only for minimal atoms: a
    redundant leading byte, as in [0, 1], is not reproduced.) */
module Casts {

  newtype byte = x: int | 0 <= x < 256

  /** The payload of an atom. */
  type Atom = seq<byte>

  function Pow256(n: nat): (p: nat)
    ensures p >= 1
  {
    if n == 0 then 1 else 256 * Pow256(n - 1)
  }

  /** Two's-complement big-endian bytes of `n`, at least one byte, with no
      redundant leading 0x00 or 0xFF byte. */
  function Signed(n: int): (b: Atom)
    ensures |b| >= 1
    decreases if n < 0 then -n else n
  {
    if -128 <= n < 128 then [(n % 256) as byte]
    else Signed(n / 256) + [(n % 256) as byte]
  }

  /** `int_to_bytes`: 0 is the empty atom, every other integer its minimal
      two's-complement encoding. */
  function IntToBytes(n: int): (b: Atom)
    ensures b == [] <==> n == 0
    ensures 0 < n < 128 ==> b == [n as byte]
  {
    if n == 0 then [] else Signed(n)
  }

  /** The bytes read as an unsigned big-endian number. */
  function Unsigned(b: Atom): (u: nat)
    ensures u < Pow256(|b|)
  {
    if b == [] then 0 else Unsigned(b[..|b| - 1]) * 256 + b[|b| - 1] as int
  }

  /** `int_from_bytes`: the empty atom is 0, otherwise big-endian two's complement. */
  function IntFromBytes(b: Atom): (n: int)
  {
    if b == [] then 0
    else if b[0] >= 128 then Unsigned(b) - Pow256(|b|)
    else Unsigned(b)
  }

  /** Appending a byte multiplies the value read by 256 and adds the byte. */
  lemma AppendByte(s: Atom, r: byte)
    requires |s| >= 1
    ensures IntFromBytes(s + [r]) == IntFromBytes(s) * 256 + r as int
  {
    var b := s + [r];
    assert b[..|b| - 1] == s;
    assert b[0] == s[0];
    assert Pow256(|b|) == 256 * Pow256(|s|);
  }

  /** Reading back the encoding of `n` gives `n`, for every integer. */
  lemma {:induction false} IntRoundTrip(n: int)
    ensures IntFromBytes(IntToBytes(n)) == n
    decreases if n < 0 then -n else n
  {
    if n != 0 {
      SignedRoundTrip(n);
    }
  }

  lemma {:induction false} SignedRoundTrip(n: int)
    ensures IntFromBytes(Signed(n)) == n
    decreases if n < 0 then -n else n
  {
    if -128 <= n < 128 {
      assert Signed(n) == [(n % 256) as byte];
      assert Unsigned(Signed(n)) == n % 256 by {
        assert Signed(n)[..0] == [];
      }
    } else {
      SignedRoundTrip(n / 256);
      AppendByte(Signed(n / 256), (n % 256) as byte);
    }
  }
}
