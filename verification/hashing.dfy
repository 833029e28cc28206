// `hash_str_to_int` (`backend/utils.py`): the leading bytes of a text's MD5
// digest (RFC 1321) read as a big-endian integer. The digest algorithm is
// a parameter: any function from texts to 16-byte digests.

module Hashing {
  newtype byte = x: int | 0 <= x < 256

  /** An MD5 digest: sixteen bytes. */
  type Digest = d: seq<byte> | |d| == 16
    witness [0, 0, 0, 0, 0, 0, 0, 0, 0, 0, 0, 0, 0, 0, 0, 0]

  function Pow256(k: nat): (r: nat)
    ensures r >= 1
  {
    if k == 0 then 1 else 256 * Pow256(k - 1)
  }

  /** `int.from_bytes(bs, "big")`. */
  function FromBytesBig(bs: seq<byte>): (r: nat)
    ensures r < Pow256(|bs|)
  {
    if |bs| == 0 then 0 else FromBytesBig(bs[..|bs| - 1]) * 256 + bs[|bs| - 1] as nat
  }

  /** `v.to_bytes(k, "big")` for a value that fits in `k` bytes. */
  function ToBytesBig(v: nat, k: nat): (r: seq<byte>)
    requires v < Pow256(k)
    ensures |r| == k
  {
    if k == 0 then [] else ToBytesBig(v / 256, k - 1) + [(v % 256) as byte]
  }

  /** Reading back what was written gives the value. */
  lemma {:induction false} FromToBytes(v: nat, k: nat)
    requires v < Pow256(k)
    ensures FromBytesBig(ToBytesBig(v, k)) == v
  {
    if k > 0 {
      var bs := ToBytesBig(v, k);
      assert bs[..k - 1] == ToBytesBig(v / 256, k - 1);
      FromToBytes(v / 256, k - 1);
    }
  }

  /** Writing back what was read gives the bytes. */
  lemma {:induction false} ToFromBytes(bs: seq<byte>)
    ensures ToBytesBig(FromBytesBig(bs), |bs|) == bs
  {
    if |bs| > 0 {
      var init := bs[..|bs| - 1];
      var v := FromBytesBig(bs);
      assert v / 256 == FromBytesBig(init);
      assert v % 256 == bs[|bs| - 1] as nat;
      ToFromBytes(init);
      assert bs == init + [bs[|bs| - 1]];
    }
  }

  /** Python's end index for `s[0:n]` on a sequence of length `len`: a negative end counts from the back. */
  function SliceEnd(n: int, len: nat): (e: nat)
    ensures e <= len
    ensures n >= 0 ==> e == if n < len then n else len
    ensures n < 0 ==> e == if len + n > 0 then len + n else 0
  {
    if n >= 0 then (if n < len then n else len)
    else if len + n > 0 then len + n else 0
  }

  /** `hash_str_to_int(text, N)`. */
  function HashStrToInt(md5: string -> Digest, text: string, n: int): (r: nat)
    ensures r == FromBytesBig(md5(text)[..SliceEnd(n, 16)])
    ensures 0 <= n <= 16 ==> r < Pow256(n)
    ensures n >= 16 ==> r == FromBytesBig(md5(text))
  {
    var digest := md5(text);
    assert digest[..16] == digest;
    FromBytesBig(digest[..SliceEnd(n, 16)])
  }

  /** The default `N = 3` gives a number below 2^24. */
  lemma DefaultFitsThreeBytes(md5: string -> Digest, text: string)
    ensures HashStrToInt(md5, text, 3) < 16777216
  {
    assert Pow256(3) == 16777216;
  }

  /** A big-endian number splits into its leading bytes, shifted up, plus its trailing bytes. */
  lemma {:induction false} SplitBytes(bs: seq<byte>, k: nat)
    requires k <= |bs|
    ensures FromBytesBig(bs) == FromBytesBig(bs[..k]) * Pow256(|bs| - k) + FromBytesBig(bs[k..])
    decreases |bs|
  {
    if k < |bs| {
      var init := bs[..|bs| - 1];
      var last := bs[|bs| - 1] as nat;
      assert init[..k] == bs[..k];
      assert bs[k..] == init[k..] + [bs[|bs| - 1]];
      assert bs[k..][..|bs[k..]| - 1] == init[k..];
      SplitBytes(init, k);
      ShiftByte(FromBytesBig(bs[..k]), Pow256(|init| - k), FromBytesBig(init[k..]), last,
        FromBytesBig(bs), FromBytesBig(bs[k..]), Pow256(|bs| - k));
    } else {
      assert bs[..k] == bs;
      assert bs[k..] == [];
    }
  }

  /** The arithmetic of one step of `SplitBytes`: appending a byte to both the whole and its tail. */
  lemma ShiftByte(hi: nat, p: nat, lo: nat, last: nat, whole: nat, tail: nat, q: nat)
    requires whole == (hi * p + lo) * 256 + last
    requires tail == lo * 256 + last
    requires q == 256 * p
    ensures whole == hi * q + tail
  {
    var hp := hi * p;
    assert hi * (256 * p) == 256 * hp;
  }

  /**
   * Hashes of different lengths of the same text agree on their leading
   * bytes: the full-digest hash is the `n`-byte hash shifted up by the
   * remaining bytes, plus a remainder below that shift.
   */
  lemma ShorterHashIsLeadingBytes(md5: string -> Digest, text: string, n: nat)
    requires n <= 16
    ensures HashStrToInt(md5, text, 16) == HashStrToInt(md5, text, n) * Pow256(16 - n) + FromBytesBig(md5(text)[n..])
    ensures FromBytesBig(md5(text)[n..]) < Pow256(16 - n)
  {
    var digest := md5(text);
    SplitBytes(digest, n);
    assert HashStrToInt(md5, text, n) == FromBytesBig(digest[..n]);
    assert HashStrToInt(md5, text, 16) == FromBytesBig(digest);
    assert |digest[n..]| == 16 - n;
  }
}
