/**
 nodes/src/ip_modifier_node.c: rewriting the IPv4 destination in place and
 recomputing the header checksum (section 3.1 of RFC 791, section 1 of RFC 1071),
 and its agreement with the incremental update of section 3 of RFC 1624.
 */
module Checksum {
  import opened Bytes

  const WORD: int := 0x1_0000
  const ONES: int := 0xFFFF

  type word = w: int | 0 <= w < 0x1_0000

  // ---------------------------------------------------------------- one's-complement sums

  /** The end-around carry loop: `while (s >> 16) s = (s & 0xFFFF) + (s >> 16)`. */
  function Fold(s: nat): (w: word)
    decreases s
  {
    if s < WORD then s else Fold(s % WORD + s / WORD)
  }

  /** Folding keeps the value modulo 65535, and only zero folds to zero. */
  lemma {:induction false} FoldValue(s: nat)
    ensures Fold(s) == if s == 0 then 0 else (s - 1) % ONES + 1
    decreases s
  {
    if s >= WORD {
      var t := s % WORD + s / WORD;
      assert s == t + (s / WORD) * ONES;
      FoldValue(t);
      SameRemainder(t - 1, s / WORD);
    } else if s > 0 {
      assert (s - 1) % ONES == s - 1;
    }
  }

  lemma SameRemainder(a: int, k: int)
    ensures (a + k * ONES) % ONES == a % ONES
  {
  }

  lemma FoldModulus(s: nat)
    ensures Fold(s) % ONES == s % ONES
    ensures Fold(s) == 0 <==> s == 0
  {
    FoldValue(s);
    if s > 0 {
      var q, r := (s - 1) / ONES, (s - 1) % ONES;
      assert s == (r + 1) + q * ONES;
      SameRemainder(r + 1, q);
    }
  }

  /** Nonzero sums that agree modulo 65535 fold to one word. */
  lemma FoldAgrees(s: nat, t: nat)
    requires s % ONES == t % ONES && (s == 0 <==> t == 0)
    ensures Fold(s) == Fold(t)
  {
    FoldValue(s);
    FoldValue(t);
    if s > 0 {
      var k := s / ONES - t / ONES;
      assert s - 1 == (t - 1) + k * ONES;
      SameRemainder(t - 1, k);
    }
  }

  /** `~w` on 16 bits. */
  function Complement(w: word): word {
    ONES - w
  }

  /** The sum of the 16-bit words in the first `n` bytes of `h`. */
  function Sum(h: Frame, n: nat): (s: nat)
    requires n <= |h| && n % 2 == 0
    ensures s <= ONES * n
  {
    if n == 0 then 0 else Sum(h, n - 2) + Be16(h, n - 2)
  }

  /** Overwriting the word at `at` changes the sum by the difference. */
  lemma {:induction false} SumUpdate(h: Frame, n: nat, at: nat, w: word)
    requires n <= |h| && n % 2 == 0 && at % 2 == 0 && at + 2 <= |h|
    ensures Sum(SetWord(h, at, w), n) == if at < n then Sum(h, n) - Be16(h, at) + w else Sum(h, n)
  {
    if n == 0 {
    } else {
      SumUpdate(h, n - 2, at, w);
    }
  }

  function SetWord(h: Frame, at: nat, w: word): (r: Frame)
    requires at + 2 <= |h|
    ensures |r| == |h| && Be16(r, at) == w
  {
    h[at := w / 256][at + 1 := w % 256]
  }

  // ---------------------------------------------------------------- the specification

  /** `(short)x` on the usual two's-complement machine. */
  function ToShort(x: word): int {
    if x < 0x8000 then x else x - WORD
  }

  /** `is_ip_packet`. */
  predicate IsIp(f: Frame)
    requires |f| >= 18
  {
    var field := ToShort(Be16(f, 12));
    var inner := if field == 0x8100 then ToShort(Be16(f, 16)) else field;
    inner == 0x0800
  }

  /** Where the code looks for the IPv4 header. */
  function HeaderOffset(f: Frame): nat
    requires |f| >= 18
  {
    if ToShort(Be16(f, 12)) == 0x8100 then 18 else 14
  }

  /** `ihl * 4`, the header length in bytes. */
  function HeaderLength(h: Frame): (n: nat)
    requires |h| >= 1
    ensures n % 4 == 0 && n <= 60
  {
    (h[0] % 16) * 4
  }

  /** A header with the new destination `hi.lo` and a checksum field of zero. */
  function Cleared(h: Frame, hi: word, lo: word): (r: Frame)
    requires |h| >= 20
    ensures |r| == |h|
  {
    SetWord(SetWord(SetWord(h, 16, hi), 18, lo), 10, 0)
  }

  /** The checksum the routine stores for that header. */
  function NewChecksum(h: Frame, hi: word, lo: word): word
    requires |h| >= 60
  {
    Complement(Fold(Sum(Cleared(h, hi, lo), HeaderLength(h))))
  }

  /** `modify_destination_ip` on the bytes that start with the header. */
  function Rewritten(h: Frame, hi: word, lo: word): (r: Frame)
    requires |h| >= 60
    ensures |r| == |h|
  {
    SetWord(Cleared(h, hi, lo), 10, NewChecksum(h, hi, lo))
  }

  // ---------------------------------------------------------------- properties

  /** The low half of the first header byte counts words of four bytes; the high half is the version. */
  lemma HeaderLengthInWords(h: Frame, version: nat, ihl: nat)
    requires |h| >= 1 && version < 16 && ihl < 16 && h[0] as int == 16 * version + ihl
    ensures HeaderLength(h) == 4 * ihl
  {
  }

  /** The comparison with 0x8100 is never true: a tagged frame is not taken for IPv4, whatever it carries. */
  lemma TaggedFramesAreSkipped(f: Frame)
    requires |f| >= 18
    ensures HeaderOffset(f) == 14
    ensures IsIp(f) <==> Be16(f, 12) == 0x0800
    ensures Be16(f, 12) == 0x8100 ==> !IsIp(f)
  {
  }

  /** Only the destination and checksum fields change, and the destination is the new one. */
  lemma OnlyTwoFieldsChange(h: Frame, hi: word, lo: word)
    requires |h| >= 60
    ensures var r := Rewritten(h, hi, lo);
            && Be16(r, 16) == hi && Be16(r, 18) == lo
            && Be16(r, 10) == NewChecksum(h, hi, lo)
            && HeaderLength(r) == HeaderLength(h)
            && (forall i :: 0 <= i < |h| && !(10 <= i < 12) && !(16 <= i < 20) ==> r[i] == h[i])
  {
  }

  /** The checksum rule of RFC 791: the header, checksum included, sums to all ones. */
  ghost predicate Verifies(h: Frame)
    requires |h| >= 60
  {
    Fold(Sum(h, HeaderLength(h))) == ONES
  }

  /** After the rewrite the header verifies, whenever it is long enough to contain its checksum field. */
  lemma RewriteVerifies(h: Frame, hi: word, lo: word)
    requires |h| >= 60 && HeaderLength(h) >= 12
    ensures Verifies(Rewritten(h, hi, lo))
  {
    var c := Cleared(h, hi, lo);
    var n := HeaderLength(h);
    var s := Sum(c, n);
    SumUpdate(c, n, 10, NewChecksum(h, hi, lo));
    FoldModulus(s);
    assert Be16(c, 10) == 0;
    var total := s + (ONES - Fold(s));
    assert total % ONES == 0 by {
      RemainderOfSum(s, Fold(s));
    }
    FoldValue(total);
    LastRemainder(total);
  }

  /** The 16-bit word of the bytes `2k` and `2k + 1`. */
  function WordAt(h: Frame, k: nat): int
    requires 2 * k + 2 <= |h|
  {
    256 * (h[2 * k] as int) + h[2 * k + 1] as int
  }

  /**
   The ordinary header: version 4 and five words of four bytes. After the rewrite its ten
   16-bit words add up to all ones with end-around carry, and the destination is the new one.
   */
  lemma OrdinaryHeaderVerifies(h: Frame, hi: word, lo: word)
    requires |h| >= 60 && h[0] == 0x45
    ensures var r := Rewritten(h, hi, lo);
            var total := WordAt(r, 0) + WordAt(r, 1) + WordAt(r, 2) + WordAt(r, 3) + WordAt(r, 4)
                         + WordAt(r, 5) + WordAt(r, 6) + WordAt(r, 7) + WordAt(r, 8) + WordAt(r, 9);
            && total > 0 && total % 0xFFFF == 0 && Fold(total) == 0xFFFF
            && WordAt(r, 8) == hi && WordAt(r, 9) == lo
  {
    hide Fold, Rewritten;
    RewriteVerifies(h, hi, lo);
    OnlyTwoFieldsChange(h, hi, lo);
    var r := Rewritten(h, hi, lo);
    HeaderLengthInWords(h, 4, 5);
    TenWords(r);
    FoldModulus(Sum(r, 20));
  }

  lemma TenWords(r: Frame)
    requires |r| >= 20
    ensures Sum(r, 20) ==
            WordAt(r, 0) + WordAt(r, 1) + WordAt(r, 2) + WordAt(r, 3) + WordAt(r, 4)
            + WordAt(r, 5) + WordAt(r, 6) + WordAt(r, 7) + WordAt(r, 8) + WordAt(r, 9)
  {
    assert Sum(r, 4) == WordAt(r, 0) + WordAt(r, 1);
    assert Sum(r, 8) == Sum(r, 4) + WordAt(r, 2) + WordAt(r, 3);
    assert Sum(r, 12) == Sum(r, 8) + WordAt(r, 4) + WordAt(r, 5);
    assert Sum(r, 16) == Sum(r, 12) + WordAt(r, 6) + WordAt(r, 7);
    assert Sum(r, 20) == Sum(r, 16) + WordAt(r, 8) + WordAt(r, 9);
  }

  lemma RemainderOfSum(s: nat, f: nat)
    requires f % ONES == s % ONES && f <= ONES
    ensures (s + (ONES - f)) % ONES == 0
  {
    var q := s / ONES - f / ONES;
    assert s - f == q * ONES;
    SameRemainder(0, q + 1);
  }

  lemma LastRemainder(t: nat)
    requires t > 0 && t % ONES == 0
    ensures (t - 1) % ONES == ONES - 1
  {
    SameRemainder(ONES - 1, t / ONES - 1);
  }

  /** A header too short to contain the field verifies only if its own bytes already did. */
  lemma ShortHeaderIsLeftAsItWas(h: Frame, hi: word, lo: word)
    requires |h| >= 60 && HeaderLength(h) < 12
    ensures Verifies(Rewritten(h, hi, lo)) <==> Verifies(h)
  {
    var n := HeaderLength(h);
    SumUpdate(h, n, 16, hi);
    SumUpdate(SetWord(h, 16, hi), n, 18, lo);
    SumUpdate(SetWord(SetWord(h, 16, hi), 18, lo), n, 10, 0);
    SumUpdate(Cleared(h, hi, lo), n, 10, NewChecksum(h, hi, lo));
  }

  /** Two rewrites in a row leave what the last one alone leaves. */
  lemma LastRewriteWins(h: Frame, hi: word, lo: word, hi2: word, lo2: word)
    requires |h| >= 60
    ensures Rewritten(Rewritten(h, hi, lo), hi2, lo2) == Rewritten(h, hi2, lo2)
  {
    assert Cleared(Rewritten(h, hi, lo), hi2, lo2) == Cleared(h, hi2, lo2);
  }

  /** Equation 3 in section 3 of RFC 1624: HC' = ~(~HC + ~m + m'). */
  function Incremental(hc: word, m: word, m': word): word {
    Complement(Fold(Complement(hc) + Complement(m) + m'))
  }

  /**
   On a header whose checksum the same routine produced, recomputing the checksum
   from scratch equals two incremental updates, one for each half of the destination.
   */
  lemma RecomputationIsIncremental(h: Frame, hi: word, lo: word)
    requires |h| >= 60 && HeaderLength(h) >= 20
    requires Be16(h, 10) == NewChecksum(h, Be16(h, 16), Be16(h, 18))
    ensures NewChecksum(h, hi, lo)
         == Incremental(Incremental(Be16(h, 10), Be16(h, 16), hi), Be16(h, 18), lo)
  {
    var n := HeaderLength(h);
    var m1, m2 := Be16(h, 16), Be16(h, 18);
    var s := Sum(Cleared(h, m1, m2), n);
    var s' := Sum(Cleared(h, hi, lo), n);
    ClearedSums(h, m1, m2, hi, lo);
    FirstWordCounts(Cleared(h, m1, m2), n);
    FirstWordCounts(Cleared(h, hi, lo), n);
    OneUpdate(s, m1, hi);
    var mid := s - m1 + hi;
    OneUpdate(mid, m2, lo);
  }

  /** One incremental update tracks the sum of the header, as long as the header is not all zero. */
  lemma OneUpdate(s: nat, m: word, m': word)
    requires s > 0 && s >= m && s - m + m' > 0
    ensures Incremental(Complement(Fold(s)), m, m') == Complement(Fold(s - m + m'))
  {
    var t := Fold(s) + Complement(m) + m';
    FoldModulus(s);
    var q := (s - Fold(s)) / ONES;
    assert s - Fold(s) == q * ONES by {
      var a, b := s / ONES, Fold(s) / ONES;
      assert s - Fold(s) == (a - b) * ONES;
    }
    assert t == (s - m + m') + (1 - q) * ONES;
    SameRemainder(s - m + m', 1 - q);
    FoldAgrees(t, s - m + m');
  }

  /** The two cleared headers differ by the two destination words. */
  lemma ClearedSums(h: Frame, m1: word, m2: word, hi: word, lo: word)
    requires |h| >= 60 && HeaderLength(h) >= 20
    ensures var n := HeaderLength(h);
            && Sum(Cleared(h, hi, lo), n) == Sum(Cleared(h, m1, m2), n) - m1 - m2 + hi + lo
            && Sum(Cleared(h, m1, m2), n) >= h[0] * 256 + m1 + m2
  {
    var n := HeaderLength(h);
    var c := Cleared(h, m1, m2);
    SumUpdate(c, n, 16, hi);
    SumUpdate(SetWord(c, 16, hi), n, 18, lo);
    assert SetWord(SetWord(c, 16, hi), 18, lo) == Cleared(h, hi, lo);
    SumUpdate(c, n, 16, 0);
    SumUpdate(SetWord(c, 16, 0), n, 18, 0);
    FirstWordCounts(SetWord(SetWord(c, 16, 0), 18, 0), n);
  }

  lemma {:induction false} FirstWordCounts(h: Frame, n: nat)
    requires 2 <= n <= |h| && n % 2 == 0
    ensures Sum(h, n) >= Be16(h, 0)
  {
    if n > 2 {
      FirstWordCounts(h, n - 2);
    }
  }

  // ---------------------------------------------------------------- the frame that is sent

  /** The node's buffer after `ip_modifier_node_process` has handled a frame of 46 bytes or more. */
  function After(b: Frame, hi: word, lo: word): (r: Frame)
    requires |b| == FRAME_BUFFER
    ensures |r| == FRAME_BUFFER
  {
    if IsIp(b) then b[..14] + Rewritten(b[14..], hi, lo) else b
  }

  /** The IPv4 header that the frame announces lies inside the frame. */
  predicate HeaderFits(f: Frame)
    requires |f| >= 46
  {
    14 + HeaderLength(f[14..]) <= |f|
  }

  /** A receiver accepts the header: it lies inside the frame and sums to all ones. */
  predicate Accepted(f: Frame)
    requires |f| >= 46
  {
    HeaderFits(f) && Fold(Sum(f[14..], HeaderLength(f[14..]))) == ONES
  }

  /** The buffers that can hold the popped frame `f`: older frames decide the bytes past it. */
  predicate Holds(b: Frame, f: Frame) {
    |b| == FRAME_BUFFER && |f| <= FRAME_BUFFER && b[..|f|] == f
  }

  lemma {:induction false} SumOfPrefix(g: Frame, h: Frame, n: nat)
    requires n <= |g| && n <= |h| && n % 2 == 0
    requires g[..n] == h[..n]
    ensures Sum(g, n) == Sum(h, n)
  {
    if n == 0 {
    } else {
      assert g[..n - 2] == g[..n][..n - 2] && h[..n - 2] == h[..n][..n - 2];
      assert g[n - 2] == g[..n][n - 2] && g[n - 1] == g[..n][n - 1];
      assert h[n - 2] == h[..n][n - 2] && h[n - 1] == h[..n][n - 1];
      SumOfPrefix(g, h, n - 2);
    }
  }

  lemma ClearedPrefix(g: Frame, h: Frame, hi: word, lo: word, n: nat)
    requires 20 <= n <= |g| && n <= |h| && g[..n] == h[..n]
    ensures Cleared(g, hi, lo)[..n] == Cleared(h, hi, lo)[..n]
  {
    forall i | 0 <= i < n
      ensures Cleared(g, hi, lo)[i] == Cleared(h, hi, lo)[i]
    {
      assert g[i] == g[..n][i] && h[i] == h[..n][i];
    }
  }

  /** A header inside the frame: what is sent depends on the popped frame only. */
  lemma SameFrameOut(b: Frame, c: Frame, f: Frame, hi: word, lo: word)
    requires |f| >= 46 && Holds(b, f) && Holds(c, f)
    requires IsIp(f) ==> HeaderFits(f)
    ensures After(b, hi, lo)[..|f|] == After(c, hi, lo)[..|f|]
  {
    SameKind(b, f);
    SameKind(c, f);
    if IsIp(f) {
      var g, h, m := b[14..], c[14..], |f| - 14;
      assert g[..m] == f[14..] == h[..m];
      assert HeaderLength(g) == HeaderLength(h) == HeaderLength(f[14..]);
      hide Rewritten, HeaderLength;
      RewrittenPrefix(g, h, hi, lo, m);
      AfterPrefix(b, f, hi, lo);
      AfterPrefix(c, f, hi, lo);
    }
  }

  lemma RewrittenPrefix(g: Frame, h: Frame, hi: word, lo: word, m: nat)
    requires |g| >= 60 && |h| >= 60 && 20 <= m <= |g| && m <= |h| && g[..m] == h[..m]
    requires HeaderLength(g) == HeaderLength(h) <= m
    ensures Rewritten(g, hi, lo)[..m] == Rewritten(h, hi, lo)[..m]
  {
    hide Sum, Fold, HeaderLength, Cleared, SetWord;
    var n := HeaderLength(g);
    ClearedPrefix(g, h, hi, lo, m);
    assert Cleared(g, hi, lo)[..n] == Cleared(g, hi, lo)[..m][..n];
    assert Cleared(h, hi, lo)[..n] == Cleared(h, hi, lo)[..m][..n];
    SumOfPrefix(Cleared(g, hi, lo), Cleared(h, hi, lo), n);
    OnePrefix(Cleared(g, hi, lo), Cleared(h, hi, lo), NewChecksum(g, hi, lo), m);
  }

  lemma OnePrefix(g: Frame, h: Frame, w: word, m: nat)
    requires 12 <= m <= |g| && m <= |h| && g[..m] == h[..m]
    ensures SetWord(g, 10, w)[..m] == SetWord(h, 10, w)[..m]
  {
    forall i | 0 <= i < m
      ensures SetWord(g, 10, w)[i] == SetWord(h, 10, w)[i]
    {
      assert g[i] == g[..m][i] && h[i] == h[..m][i];
    }
  }

  lemma AfterPrefix(b: Frame, f: Frame, hi: word, lo: word)
    requires |f| >= 46 && Holds(b, f) && IsIp(f)
    ensures After(b, hi, lo)[..|f|] == f[..14] + Rewritten(b[14..], hi, lo)[..|f| - 14]
  {
    SameKind(b, f);
    assert b[..14] == b[..|f|][..14];
  }

  /** The frame alone decides whether it is taken for IPv4 and how long its header is. */
  lemma SameKind(b: Frame, f: Frame)
    requires |f| >= 46 && Holds(b, f)
    ensures IsIp(b) == IsIp(f) && HeaderLength(b[14..]) == HeaderLength(f[14..])
  {
    assert b[12] == f[12] && b[13] == f[13] && b[14] == f[14] && b[16] == f[16] && b[17] == f[17] by {
      assert f == b[..|f|];
    }
  }

  /** The last header byte is left over from an older frame: changing it changes the checksum. */
  lemma StaleByteMatters(h: Frame, x: byte, hi: word, lo: word)
    requires |h| >= 60 && HeaderLength(h) > 32
    requires h[HeaderLength(h) - 1] != x
    ensures var g := h[HeaderLength(h) - 1 := x];
            NewChecksum(g, hi, lo) != NewChecksum(h, hi, lo)
  {
    var n := HeaderLength(h);
    var g := h[n - 1 := x];
    var w: word := h[n - 2] as int * 256 + x;
    assert g == SetWord(h, n - 2, w);
    var c := Cleared(h, hi, lo);
    assert Cleared(g, hi, lo) == SetWord(c, n - 2, w);
    SumUpdate(c, n, n - 2, w);
    assert c[n - 2] == h[n - 2] && c[n - 1] == h[n - 1];
    var s, t := Sum(c, n), Sum(SetWord(c, n - 2, w), n);
    assert t as int - s as int == x as int - h[n - 1] as int;
    FoldModulus(s);
    FoldModulus(t);
    if Fold(s) == Fold(t) {
      CloseResidues(s, t);
    }
  }

  lemma CloseResidues(s: nat, t: nat)
    requires s % ONES == t % ONES && -256 < t - s < 256
    ensures s == t
  {
    var k := t / ONES - s / ONES;
    assert t - s == k * ONES;
  }

  /**
   The exact condition under which older frames have no influence: the bytes sent for
   an IPv4 frame depend on that frame alone if and only if its header lies inside it.
   */
  lemma SentDependsOnFrameAlone(f: Frame, hi: word, lo: word)
    requires 46 <= |f| <= FRAME_BUFFER && IsIp(f)
    ensures (forall b, c :: Holds(b, f) && Holds(c, f) ==> After(b, hi, lo)[..|f|] == After(c, hi, lo)[..|f|])
            <==> HeaderFits(f)
  {
    if HeaderFits(f) {
      forall b, c | Holds(b, f) && Holds(c, f)
        ensures After(b, hi, lo)[..|f|] == After(c, hi, lo)[..|f|]
      {
        SameFrameOut(b, c, f, hi, lo);
      }
    } else {
      var b, c := StaleByteLeaks(f, hi, lo);
    }
  }

  /** Otherwise two buffers that hold the same frame send different checksums. */
  lemma StaleByteLeaks(f: Frame, hi: word, lo: word) returns (b: Frame, c: Frame)
    requires 46 <= |f| <= FRAME_BUFFER && IsIp(f) && !HeaderFits(f)
    ensures Holds(b, f) && Holds(c, f)
    ensures After(b, hi, lo)[..|f|] != After(c, hi, lo)[..|f|]
  {
    var n := HeaderLength(f[14..]);
    b := f + seq(FRAME_BUFFER - |f|, _ => 0);
    c := b[14 + n - 1 := 1];
    assert b[..|f|] == f && c[..|f|] == f;
    SameKind(b, f);
    SameKind(c, f);
    var g, h := c[14..], b[14..];
    assert |f| <= 14 + n - 1 < FRAME_BUFFER;
    assert b[14 + n - 1] == 0;
    assert h[n - 1] == 0 && g == h[n - 1 := 1];
    hide Rewritten, NewChecksum, Sum, Fold;
    StaleByteMatters(h, 1, hi, lo);
    AfterPrefix(b, f, hi, lo);
    AfterPrefix(c, f, hi, lo);
    ChecksumIsStored(h, |f| - 14, hi, lo);
    ChecksumIsStored(g, |f| - 14, hi, lo);
    assert After(b, hi, lo)[..|f|][14..] == Rewritten(h, hi, lo)[..|f| - 14];
    assert After(c, hi, lo)[..|f|][14..] == Rewritten(g, hi, lo)[..|f| - 14];
  }

  lemma ChecksumIsStored(h: Frame, m: nat, hi: word, lo: word)
    requires |h| >= 60 && 12 <= m <= |h|
    ensures Be16(Rewritten(h, hi, lo)[..m], 10) == NewChecksum(h, hi, lo)
  {
  }

  /** The header that is sent is the part of the rewritten buffer that lies in the frame. */
  lemma SentParts(b: Frame, f: Frame, hi: word, lo: word)
    requires |f| >= 46 && Holds(b, f) && IsIp(f)
    ensures var h, m := b[14..], |f| - 14;
            var sent, r := After(b, hi, lo)[..|f|], Rewritten(h, hi, lo);
            && sent[14..] == r[..m] && f[14..] == h[..m]
            && HeaderLength(sent[14..]) == HeaderLength(f[14..]) == HeaderLength(h) == HeaderLength(r)
  {
    hide Rewritten, Cleared, NewChecksum, Sum, Fold, After, IsIp;
    var h, m := b[14..], |f| - 14;
    SameKind(b, f);
    AfterPrefix(b, f, hi, lo);
    OnlyTwoFieldsChange(h, hi, lo);
    var sent, r := After(b, hi, lo)[..|f|], Rewritten(h, hi, lo);
    assert sent[14..] == r[..m] && h[..m] == f[14..];
    assert sent[14..][0] == r[0] == h[0] == f[14..][0];
  }

  /**
   The frame sent for an IPv4 frame passes a receiver's check exactly when its header
   lies inside the frame; when the header is too short for a checksum field, exactly
   when the popped frame passed already.
   */
  lemma SentHeaderIsAccepted(b: Frame, f: Frame, hi: word, lo: word)
    requires |f| >= 46 && Holds(b, f) && IsIp(f)
    ensures Accepted(After(b, hi, lo)[..|f|])
            <==> if HeaderLength(f[14..]) < 12 then Accepted(f) else HeaderFits(f)
  {
    hide Rewritten, Cleared, NewChecksum, Sum, Fold, After, IsIp, HeaderLength;
    var h, m, n := b[14..], |f| - 14, HeaderLength(f[14..]);
    var r := Rewritten(h, hi, lo);
    SentParts(b, f, hi, lo);
    if n <= m {
      SumOfSlice(r, m, n);
      SumOfSlice(h, m, n);
    }
    if n >= 12 {
      RewriteVerifies(h, hi, lo);
    } else {
      ShortHeaderIsLeftAsItWas(h, hi, lo);
    }
  }

  lemma SumOfSlice(h: Frame, m: nat, n: nat)
    requires n <= m <= |h| && n % 2 == 0
    ensures Sum(h[..m], n) == Sum(h, n)
  {
    assert h[..m][..n] == h[..n];
    SumOfPrefix(h[..m], h, n);
  }

  /** A header length of zero is never accepted. */
  lemma EmptyHeaderNeverVerifies(h: Frame, hi: word, lo: word)
    requires |h| >= 60 && h[0] % 16 == 0
    ensures !Verifies(Rewritten(h, hi, lo))
  {
    ShortHeaderIsLeftAsItWas(h, hi, lo);
  }

  /** An IPv4 frame of 46 zero bytes, except for its EtherType and a header length of 60. */
  function OverlongHeader(): (f: Frame)
    ensures |f| == 46 && IsIp(f) && HeaderLength(f[14..]) == 60
  {
    seq(46, i => if i == 12 then 8 else if i == 14 then 0x4F else 0)
  }

  /** For that frame the bytes sent depend on what an older frame left behind it. */
  lemma OverlongHeaderLeaks(hi: word, lo: word)
    ensures exists b, c :: Holds(b, OverlongHeader()) && Holds(c, OverlongHeader())
                           && After(b, hi, lo)[..46] != After(c, hi, lo)[..46]
  {
    var b, c := StaleByteLeaks(OverlongHeader(), hi, lo);
  }

  // ---------------------------------------------------------------- the code

  /** `b[at] = w >> 8; b[at + 1] = w & 0xFF`, as the header at `offset` sees it. */
  method StoreWord(b: array<byte>, offset: nat, at: nat, w: word)
    requires offset + at + 2 <= b.Length
    modifies b
    ensures b[..offset] == old(b[..offset])
    ensures b[offset..] == SetWord(old(b[offset..]), at, w)
  {
    b[offset + at] := w / 256;
    b[offset + at + 1] := w % 256;
  }

  /** The accumulation loop, in 32-bit arithmetic: it never wraps. */
  method SumWords(b: array<byte>, offset: nat, ihl: nat) returns (checksum: nat)
    requires offset + ihl <= b.Length && ihl <= 60 && ihl % 4 == 0
    ensures checksum == Sum(b[offset..], ihl) < 0x1_0000_0000
  {
    ghost var h := b[offset..];
    checksum := 0;
    var i := 0;
    while i < ihl
      invariant 0 <= i <= ihl && i % 2 == 0
      invariant checksum == Sum(h, i)
    {
      var w := b[offset + i] as int * 256 + b[offset + i + 1] as int;
      assert w == Be16(h, i);
      checksum := (checksum + w) % 0x1_0000_0000;
      i := i + 2;
    }
  }

  /** `modify_destination_ip`, on the node's frame buffer; `newIp` is in network byte order. */
  method ModifyDestinationIp(buffer: array<byte>, newIp: seq<byte>)
    requires buffer.Length == FRAME_BUFFER && |newIp| == 4
    modifies buffer
    ensures buffer[..14] == old(buffer[..14])
    ensures buffer[14..] == Rewritten(old(buffer[14..]), Be16(newIp, 0), Be16(newIp, 2))
  {
    var typeField := ToShort(Be16(buffer[..], 12));
    var offset := 14;
    if typeField == 0x8100 {
      offset := 18;
    }
    assert offset == 14;
    StoreWord(buffer, offset, 16, Be16(newIp, 0));
    StoreWord(buffer, offset, 18, Be16(newIp, 2));
    var ihl := HeaderLength(buffer[offset..]);
    StoreWord(buffer, offset, 10, 0);
    var checksum := SumWords(buffer, offset, ihl);
    checksum := FoldLoop(checksum);
    var stored: int := 0xFFFF_FFFF - checksum as int;
    assert stored % WORD == Complement(checksum);
    StoreWord(buffer, offset, 10, stored % WORD);
  }

  /** The folding loop terminates with the folded sum, and every pass shrinks it. */
  method FoldLoop(checksum: nat) returns (w: word)
    requires checksum < 0x1_0000_0000
    ensures w == Fold(checksum)
  {
    var s := checksum;
    while s / WORD != 0
      invariant 0 <= s < 0x1_0000_0000
      invariant Fold(s) == Fold(checksum)
      decreases s
    {
      s := s % WORD + s / WORD;
    }
    w := s;
  }

  /**
   The loop body of `ip_modifier_node_process` for a popped frame `f`, in a buffer whose
   other bytes are left over from older frames. `sent` is what goes on, if anything.
   */
  method ProcessOne(buffer: array<byte>, size: nat, newIp: seq<byte>) returns (sent: Option<Frame>)
    requires buffer.Length == FRAME_BUFFER && 1 <= size <= FRAME_BUFFER && |newIp| == 4
    modifies buffer
    ensures sent.Some? <==> size >= 46
    ensures buffer[..] == if size >= 46 then After(old(buffer[..]), Be16(newIp, 0), Be16(newIp, 2)) else old(buffer[..])
    ensures sent.Some? ==> sent.value == buffer[..size]
  {
    if size < 46 {
      return None;
    }
    ghost var b := buffer[..];
    TaggedFramesAreSkipped(b);
    if IsIp(buffer[..]) {
      ModifyDestinationIp(buffer, newIp);
      assert buffer[..] == buffer[..14] + buffer[14..];
    }
    sent := Some(buffer[..size]);
  }
}
