/**
 Bytes, frames and the small optional type shared by every module.
 */
module Bytes {

  /** A C `uint8_t`. */
  type byte = b: int | 0 <= b < 256

  /** The bytes of one frame, without the unused tail of the buffer that carries it. */
  type Frame = seq<byte>

  /** `ETHERNET_FRAME_LENGTH`: the size of every frame buffer. */
  const FRAME_BUFFER: nat := 1522

  /** An `unsigned long` counts modulo this. */
  const U64: int := 0x1_0000_0000_0000_0000

  datatype Option<+T> = None | Some(value: T)

  /** The 16-bit big-endian word at offset `i`, as `ntohs` reads it. */
  function Be16(f: Frame, i: nat): (w: int)
    requires i + 2 <= |f|
    ensures 0 <= w < 0x1_0000
  {
    f[i] as int * 256 + f[i + 1] as int
  }

  /** The 32-bit big-endian word at offset `i`, as `ntohl` reads it. */
  function Be32(f: Frame, i: nat): (w: int)
    requires i + 4 <= |f|
    ensures 0 <= w < 0x1_0000_0000
  {
    Be16(f, i) * 0x1_0000 + Be16(f, i + 2)
  }

  /** The two bytes that `htons` stores for `w`. */
  function Put16(w: int): (f: Frame)
    requires 0 <= w < 0x1_0000
    ensures |f| == 2 && Be16(f, 0) == w
  {
    [w / 256, w % 256]
  }

  /** What `f` makes of each element, in order. */
  function Each<T, U>(xs: seq<T>, f: T -> U): (ys: seq<U>)
    ensures |ys| == |xs| && forall k :: 0 <= k < |xs| ==> ys[k] == f(xs[k])
  {
    seq(|xs|, k requires 0 <= k < |xs| => f(xs[k]))
  }

  lemma SubsetSize<T>(s: set<T>, t: set<T>)
    requires s <= t
    ensures |s| <= |t|
  {
    assert t == s + (t - s);
  }

  /** `memcpy(dst, src, |src|)`: the bytes of `dst` past the copy survive. */
  function Overlay(dst: Frame, src: Frame): (r: Frame)
    requires |src| <= |dst|
    ensures |r| == |dst| && r[..|src|] == src && r[|src|..] == dst[|src|..]
  {
    src + dst[|src|..]
  }
}
