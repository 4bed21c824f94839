/**
 * Go strings are UTF-8 byte sequences: `len` counts bytes, indexing and slicing
 * address bytes, and `range` walks runes with their byte offsets. The model keeps
 * strings as sequences of Unicode scalar values and recovers the byte view here.
 */
module Utf8 {

  /** Number of bytes in the UTF-8 encoding of one scalar value. */
  function Width(c: char): (r: nat)
    ensures 1 <= r <= 4
    ensures r == 1 <==> (c as int) < 0x80
  {
    if (c as int) < 0x80 then 1
    else if (c as int) < 0x800 then 2
    else if (c as int) < 0x10000 then 3
    else 4
  }

  /** The UTF-8 encoding of one scalar value. */
  function EncodeChar(c: char): (r: seq<int>)
    ensures |r| == Width(c)
    ensures forall i | 0 <= i < |r| :: 0 <= r[i] < 256
    ensures (r[0] < 0x80) <==> (c as int) < 0x80
    ensures |r| == 1 ==> r[0] == c as int
    ensures forall i | 1 <= i < |r| :: 0x80 <= r[i] < 0xC0
    ensures |r| > 1 ==> r[0] >= 0xC0
  {
    var v := c as int;
    if v < 0x80 then [v]
    else if v < 0x800 then [0xC0 + v / 64, 0x80 + v % 64]
    else if v < 0x10000 then [0xE0 + v / 4096, 0x80 + (v / 64) % 64, 0x80 + v % 64]
    else [0xF0 + v / 262144, 0x80 + (v / 4096) % 64, 0x80 + (v / 64) % 64, 0x80 + v % 64]
  }

  /** The bytes of a string. */
  function Encode(s: string): (r: seq<int>)
    ensures |r| == ByteLen(s)
  {
    if |s| == 0 then [] else Encode(s[..|s| - 1]) + EncodeChar(s[|s| - 1])
  }

  /** Go's `len(s)`: the number of bytes. */
  function ByteLen(s: string): (r: nat)
    ensures r >= |s|
  {
    if |s| == 0 then 0 else ByteLen(s[..|s| - 1]) + Width(s[|s| - 1])
  }

  predicate IsAscii(s: string) {
    forall i | 0 <= i < |s| :: (s[i] as int) < 0x80
  }

  /** The byte offset at which rune `k` starts: what `range` yields as its index. */
  function Offset(s: string, k: nat): (r: nat)
    requires k <= |s|
    ensures r >= k
    ensures r == ByteLen(s[..k])
  {
    if k == 0 then 0
    else
      assert s[..k][..k - 1] == s[..k - 1];
      Offset(s, k - 1) + Width(s[k - 1])
  }

  /** Byte length equals rune count exactly for ASCII strings. */
  lemma {:induction false} ByteLenAscii(s: string)
    ensures ByteLen(s) == |s| <==> IsAscii(s)
  {
    if |s| > 0 {
      ByteLenAscii(s[..|s| - 1]);
      assert ByteLen(s[..|s| - 1]) >= |s| - 1;
      if IsAscii(s) {
        assert IsAscii(s[..|s| - 1]);
      } else if IsAscii(s[..|s| - 1]) {
        assert (s[|s| - 1] as int) >= 0x80;
      }
    }
  }

  /** An ASCII prefix of the string is its own byte prefix. */
  lemma {:induction false} AsciiPrefixBytes(s: string, k: nat)
    requires k <= |s| && IsAscii(s[..k])
    ensures ByteLen(s[..k]) == k
    ensures forall i | 0 <= i < k :: Encode(s)[i] == s[i] as int
  {
    ByteLenAscii(s[..k]);
    EncodePrefix(s, k);
    AsciiEncoding(s[..k]);
  }

  lemma {:induction false} EncodePrefix(s: string, k: nat)
    requires k <= |s|
    ensures ByteLen(s[..k]) <= |Encode(s)| && Encode(s)[..ByteLen(s[..k])] == Encode(s[..k])
    decreases |s|
  {
    if k < |s| {
      assert s[..|s| - 1][..k] == s[..k];
      EncodePrefix(s[..|s| - 1], k);
      assert ByteLen(s[..k]) <= ByteLen(s[..|s| - 1]) by { PrefixByteLen(s[..|s| - 1], k); }
    } else {
      assert s[..k] == s;
    }
  }

  lemma {:induction false} PrefixByteLen(s: string, k: nat)
    requires k <= |s|
    ensures ByteLen(s[..k]) <= ByteLen(s)
    decreases |s|
  {
    if k < |s| {
      assert s[..|s| - 1][..k] == s[..k];
      PrefixByteLen(s[..|s| - 1], k);
    } else {
      assert s[..k] == s;
    }
  }

  lemma {:induction false} AsciiEncoding(s: string)
    requires IsAscii(s)
    ensures |Encode(s)| == |s|
    ensures forall i | 0 <= i < |s| :: Encode(s)[i] == s[i] as int
  {
    ByteLenAscii(s);
    if |s| > 0 {
      assert IsAscii(s[..|s| - 1]);
      AsciiEncoding(s[..|s| - 1]);
    }
  }
}
