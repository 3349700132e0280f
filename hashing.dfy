/**
 * The Java hash codes an agent configuration combines: `String.hashCode`
 * and `Objects.hash`, both in 32-bit two's complement arithmetic.
 */
module Hashing {
  import opened Numerals

  /** The UTF-16 code units of a string, as a Java `String` stores it. */
  function Utf16(s: string): (units: seq<int>)
    ensures |units| >= |s|
    ensures forall k :: 0 <= k < |units| ==> 0 <= units[k] < 0x1_0000
  {
    if s == [] then []
    else
      var c := s[0] as int;
      var head := if c < 0x1_0000 then [c]
        else [0xD800 + (c - 0x1_0000) / 0x400, 0xDC00 + (c - 0x1_0000) % 0x400];
      head + Utf16(s[1..])
  }

  /** `h = 31 * h + unit` over the units, from the left, starting at 0. */
  function PolynomialHash(units: seq<int>): Int32
  {
    if units == [] then 0
    else Wrap32(31 * PolynomialHash(units[..|units| - 1]) + units[|units| - 1])
  }

  /** `String.hashCode()`. */
  function StringHash(s: string): Int32
  {
    PolynomialHash(Utf16(s))
  }

  /** `Arrays.hashCode` / `Objects.hash` of element hashes: `h = 31 * h + e` starting at 1. */
  function CombineHashes(hashes: seq<Int32>): Int32
  {
    if hashes == [] then 1
    else Wrap32(31 * CombineHashes(hashes[..|hashes| - 1]) + hashes[|hashes| - 1])
  }

  /** A text of basic-plane characters is hashed over its characters. */
  lemma Utf16OfBasicPlane(s: string)
    requires forall k :: 0 <= k < |s| ==> (s[k] as int) < 0x1_0000
    ensures |Utf16(s)| == |s|
    ensures forall k :: 0 <= k < |s| ==> Utf16(s)[k] == s[k] as int
  {
    if s != [] {
      Utf16OfBasicPlane(s[1..]);
    }
  }

  /** The hashes of a few texts, as the JDK gives them. */
  lemma StringHashExamples()
    ensures StringHash("") == 0
    ensures StringHash("a") == 97
    ensures StringHash("ab") == 97 * 31 + 98
  {
    assert Utf16("a") == [97];
    assert Utf16("ab") == [97, 98] by {
      assert "ab"[1..] == "b";
      assert Utf16("b") == [98];
    }
    assert [97, 98][..1] == [97];
  }
}
