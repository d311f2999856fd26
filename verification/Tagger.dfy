/**
 nodes/src/tagger_node.c: which frames get an 802.1Q tag (IEEE 802.1Q clause 9.6
 for the tag control information), and how the tagged frame is assembled in a
 reused output buffer.
 */
module Tagger {
  import opened Bytes
  import opened RuleTable

  const MAX_CAPTURE: nat := 1518
  const ETH_HLEN: nat := 14
  const ETH_DATA_LEN: int := 1500
  const IP_HEADER_MIN_LEN: nat := 20
  const VLAN_HLEN: nat := 4
  const ETH_P_IP: int := 0x0800
  const ETH_P_IPV6: int := 0x86DD
  const ETH_P_8021Q: int := 0x8100

  // ---------------------------------------------------------------- what the node promises

  /** The frame with a tag for `vid` between the addresses and the EtherType. */
  function TagImage(f: Frame, vid: int): (t: Frame)
    requires |f| >= 12 && 0 <= vid <= MAX_VLAN_ID
    ensures |t| == |f| + VLAN_HLEN
  {
    f[..12] + Put16(ETH_P_8021Q) + Put16(vid) + f[12..]
  }

  /** The frame without its tag. */
  function Strip(t: Frame): Frame
    requires |t| >= 16
  {
    t[..12] + t[16..]
  }

  function VlanId(t: Frame): int
    requires |t| >= 16
  {
    Be16(t, 14) % 0x1000
  }

  /** `is_vlan_packet` of the packet counter. */
  predicate IsVlan(f: Frame) {
    |f| >= 16 && Be16(f, 12) == ETH_P_8021Q
  }

  /** The frames that carry a tag away: long enough, IPv4, and with a tag for their nonzero destination. */
  predicate Taggable(f: Frame, rules: seq<Rule>) {
    && |f| >= ETH_HLEN + IP_HEADER_MIN_LEN
    && Be16(f, 12) == ETH_P_IP
    && Be32(f, 30) != 0
    && Lookup(rules, Be32(f, 30)) != 0
  }

  /** What the tagger sends on for `f`, if anything. */
  function TagOf(f: Frame, rules: seq<Rule>): Option<Frame>
    requires ValidRules(rules)
  {
    if Taggable(f, rules) then
      TaggedWhenCovered(rules, Be32(f, 30));
      Some(TagImage(f, Lookup(rules, Be32(f, 30))))
    else None
  }

  // ---------------------------------------------------------------- what that means

  /** On the wire the tag is 81 00 and the id in network byte order, between the addresses and the EtherType. */
  lemma TagBytes(f: Frame, vid: int)
    requires |f| >= 12 && 0 <= vid <= MAX_VLAN_ID
    ensures var t := TagImage(f, vid);
            && |t| == |f| + 4 && t[..12] == f[..12] && t[16..] == f[12..]
            && t[12] == 0x81 && t[13] == 0x00 && t[14] == vid / 256 && t[15] == vid % 256
  {
    var t := TagImage(f, vid);
    assert t[12..14] == Put16(ETH_P_8021Q) && t[14..16] == Put16(vid);
    assert t[12] == t[12..14][0] && t[13] == t[12..14][1];
    assert t[14] == t[14..16][0] && t[15] == t[14..16][1];
  }

  /** A frame counts as tagged by the bytes 81 00 after the addresses. */
  lemma VlanBytes(f: Frame)
    ensures IsVlan(f) <==> |f| >= 16 && f[12] == 0x81 && f[13] == 0x00
  {
  }

  /** Stripping the tag restores the frame and the VLAN id, and priority and drop bits are zero. */
  lemma StripRestores(f: Frame, vid: int)
    requires |f| >= 12 && 0 <= vid <= MAX_VLAN_ID
    ensures var t := TagImage(f, vid);
            Strip(t) == f && VlanId(t) == vid && Be16(t, 14) < 0x1000 && IsVlan(t) && t[12] == 0x81 && t[13] == 0x00
  {
    var t := TagImage(f, vid);
    assert t[..12] == f[..12] && t[16..] == f[12..];
    assert t[12..14] == Put16(ETH_P_8021Q) && t[14..16] == Put16(vid);
    assert t[12] == t[12..14][0] && t[13] == t[12..14][1];
    assert t[14] == t[14..16][0] && t[15] == t[14..16][1];
  }

  /** A frame that already carries a tag is never tagged again, whatever the rules. */
  lemma NeverTwice(f: Frame, vid: int, rules: seq<Rule>)
    requires |f| >= 12 && 0 <= vid <= MAX_VLAN_ID && ValidRules(rules)
    ensures TagOf(TagImage(f, vid), rules) == None
  {
    StripRestores(f, vid);
  }

  /** Two frames with one tagged image are the same frame under the same VLAN id. */
  lemma TaggingIsInjective(f: Frame, g: Frame, u: int, v: int)
    requires |f| >= 12 && |g| >= 12 && 0 <= u <= MAX_VLAN_ID && 0 <= v <= MAX_VLAN_ID
    requires TagImage(f, u) == TagImage(g, v)
    ensures f == g && u == v
  {
    StripRestores(f, u);
    StripRestores(g, v);
  }

  /**
   Exactly the taggable frames are forwarded; the image is the frame plus the id
   of the one rule that covers its destination, in the order-free sense of the table.
   */
  lemma TaggingIsExact(f: Frame, rules: seq<Rule>, k: nat)
    requires ValidRules(rules) && k < |rules|
    requires |f| >= 34 && Be16(f, 12) == ETH_P_IP && Be32(f, 30) != 0
    requires Covers(rules[k], Be32(f, 30))
    ensures TagOf(f, rules).Some? <==> rules[k].tag != 0
    ensures TagOf(f, rules).Some? ==>
              && Strip(TagOf(f, rules).value) == f
              && VlanId(TagOf(f, rules).value) == rules[k].tag
              && IsVlan(TagOf(f, rules).value)
  {
    LookupIsTheCover(rules, Be32(f, 30), k);
    if rules[k].tag != 0 {
      StripRestores(f, rules[k].tag);
    }
  }

  /** Exactly these frames are forwarded: IPv4, 34 bytes or more, with a nonzero destination under a nonzero tag. */
  lemma ForwardedExactly(f: Frame, rules: seq<Rule>)
    requires ValidRules(rules)
    ensures TagOf(f, rules).Some? <==>
            && |f| >= 34 && Be16(f, 12) == 0x0800 && Be32(f, 30) != 0
            && exists k :: 0 <= k < |rules| && Covers(rules[k], Be32(f, 30)) && rules[k].tag != 0
  {
    if |f| >= 34 {
      TaggedWhenCovered(rules, Be32(f, 30));
    }
  }

  /** The destination address, from the four bytes of the frame. */
  function Destination(f: Frame): int
    requires |f| >= 34
  {
    0x100_0000 * (f[30] as int) + 0x1_0000 * (f[31] as int) + 0x100 * (f[32] as int) + f[33] as int
  }

  /** For a destination under rule `k`, the frame that goes on, byte by byte. */
  lemma TaggedBytes(f: Frame, rules: seq<Rule>, k: nat)
    requires ValidRules(rules) && k < |rules| && rules[k].tag != 0
    requires |f| >= 34 && f[12] == 8 && f[13] == 0
    requires Destination(f) != 0 && rules[k].left <= Destination(f) <= rules[k].right
    ensures 0 <= rules[k].tag <= 4095
    ensures TagOf(f, rules) == Some(f[..12] + [0x81, 0x00, rules[k].tag / 256, rules[k].tag % 256] + f[12..])
  {
    LookupIsTheCover(rules, Be32(f, 30), k);
    var vid := rules[k].tag;
    var t := TagImage(f, vid);
    TagBytes(f, vid);
    assert t == t[..12] + [t[12], t[13], t[14], t[15]] + t[16..];
  }

  /** A frame of `n` zero bytes, except for its EtherType and the destination 10.0.0.1. */
  function Sample(n: nat): (f: Frame)
    requires n >= 34
    ensures |f| == n && Be16(f, 12) == ETH_P_IP && Be32(f, 30) == 0x0A00_0001
  {
    seq(n, i => if i == 12 then 8 else if i == 30 then 10 else if i == 33 then 1 else 0)
  }

  /** Tag 0 is valid in a rule, but an address under it is not tagged. */
  lemma TagZeroNeverTags(n: nat)
    requires n >= 34
    ensures var rules := [Rule(0x0A00_0000, 0x0AFF_FFFF, 0)];
            ValidRules(rules) && Covers(rules[0], 0x0A00_0001) && TagOf(Sample(n), rules) == None
  {
    assert Lookup([Rule(0x0A00_0000, 0x0AFF_FFFF, 0)], 0x0A00_0001) == 0;
  }

  // ---------------------------------------------------------------- the code, on buffers

  /** `d` after `memcpy(d + at, src, |src|)`. */
  function Patch(d: Frame, at: nat, src: Frame): (r: Frame)
    requires at + |src| <= |d|
    ensures |r| == |d|
  {
    d[..at] + src + d[at + |src|..]
  }

  /** Two adjacent copies are one copy. */
  lemma PatchTwice(d: Frame, at: nat, s: Frame, t: Frame)
    requires at + |s| + |t| <= |d|
    ensures Patch(Patch(d, at, s), at + |s|, t) == Patch(d, at, s + t)
  {
  }

  lemma PatchFront(d: Frame, s: Frame)
    requires |s| <= |d|
    ensures Patch(d, 0, s)[..|s|] == s && Patch(d, 0, s)[|s|..] == d[|s|..]
  {
  }

  method Copy(dst: array<byte>, at: nat, src: Frame)
    requires at + |src| <= dst.Length
    modifies dst
    ensures dst[..] == Patch(old(dst[..]), at, src)
  {
    for i := 0 to |src|
      invariant forall k :: 0 <= k < dst.Length ==>
        dst[k] == if at <= k < at + i then src[k - at] else old(dst[k])
    {
      dst[at + i] := src[i];
    }
  }

  /** `tagger_node_get_ip_offset`: the offset of the IPv4 header, or none. */
  method GetIpOffset(buffer: array<byte>) returns (offset: Option<nat>)
    requires buffer.Length >= 14
    ensures offset == if Be16(buffer[..], 12) == ETH_P_IP then Some(ETH_HLEN) else None
  {
    var etherType := buffer[12] as int * 256 + buffer[13] as int;
    if etherType <= ETH_DATA_LEN {
      return None;
    }
    if etherType == ETH_P_IPV6 || etherType == ETH_P_8021Q {
      return None;
    } else if etherType == ETH_P_IP {
      return Some(ETH_HLEN);
    } else {
      return None;
    }
  }

  /** `tagger_node_get_ip`: the destination in host order, 0 when the frame is not IPv4. */
  method GetIp(buffer: array<byte>) returns (addr: Addr)
    requires buffer.Length >= 34
    ensures addr == if Be16(buffer[..], 12) == ETH_P_IP then Be32(buffer[..], 30) else 0
  {
    var offset := GetIpOffset(buffer);
    if offset.None? {
      return 0;
    }
    var d := offset.value + 16;
    addr := (buffer[d] as int * 256 + buffer[d + 1] as int) * 0x1_0000
            + (buffer[d + 2] as int * 256 + buffer[d + 3] as int);
  }

  /** `tagger_node_edit_packet`: the output buffer past the tagged frame keeps its old bytes. */
  method EditPacket(input: array<byte>, output: array<byte>, vlanId: nat, size: nat) returns (n: nat)
    requires input != output
    requires 12 <= size <= input.Length && size + VLAN_HLEN <= output.Length
    requires vlanId < 0x1_0000
    modifies output
    ensures n == size + VLAN_HLEN
    ensures output[..n] == TagImage(input[..size], vlanId % 0x1000)
    ensures output[12] == 0x81 && output[13] == 0x00
    ensures output[14] == vlanId % 0x1000 / 256 && output[15] == vlanId % 256
    ensures output[n..] == old(output[n..])
  {
    hide Patch;
    ghost var d, f := output[..], input[..size];
    ghost var head, tpid, tci := f[..12], Put16(ETH_P_8021Q), Put16(vlanId % 0x1000);
    assert input[..12] == head && input[12..size] == f[12..];
    Copy(output, 0, input[..12]);
    Copy(output, 12, Put16(ETH_P_8021Q));
    PatchTwice(d, 0, head, tpid);
    Copy(output, 14, Put16(vlanId % 0x1000));
    PatchTwice(d, 0, head + tpid, tci);
    Copy(output, 16, input[12..size]);
    PatchTwice(d, 0, head + tpid + tci, f[12..]);
    n := size + VLAN_HLEN;
    PatchFront(d, TagImage(f, vlanId % 0x1000));
    TagBytes(f, vlanId % 0x1000);
    assert forall k :: 0 <= k < n ==> output[k] == output[..n][k];
  }

  /**
   One iteration of `tagger_node_process` after a pop of `size` bytes. The result
   depends on the popped frame only, not on what earlier frames left in the buffers.
   */
  method ProcessOne(buffer: array<byte>, output: array<byte>, size: nat, rules: array<Rule>, count: nat)
    returns (sent: Option<nat>)
    requires buffer != output && buffer.Length == output.Length == FRAME_BUFFER
    requires 1 <= size <= FRAME_BUFFER
    requires count <= rules.Length && ValidRules(rules[..count])
    requires TagOf(buffer[..size], rules[..count]).Some? ==> size <= MAX_CAPTURE
    modifies output
    ensures sent.Some? <==> TagOf(buffer[..size], rules[..count]).Some?
    ensures sent.Some? ==> sent.value <= output.Length
    ensures sent.Some? ==> output[..sent.value] == TagOf(buffer[..size], rules[..count]).value
  {
    ghost var f := buffer[..size];
    ghost var rs := rules[..count];
    if size < ETH_HLEN + IP_HEADER_MIN_LEN {
      return None;
    }
    var addr := GetIp(buffer);
    assert Be16(f, 12) == Be16(buffer[..], 12) && Be32(f, 30) == Be32(buffer[..], 30);
    if addr == 0 {
      return None;
    }
    var tag := GetTag(rules, count, addr);
    if tag == 0 {
      return None;
    }
    TaggedWhenCovered(rs, Be32(f, 30));
    var n := EditPacket(buffer, output, tag, size);
    sent := Some(n);
  }

  /** The images of the popped frames, in order, without the frames that get no tag. */
  function TagAll(fs: seq<Frame>, rules: seq<Rule>): seq<Frame>
    requires ValidRules(rules)
  {
    if fs == [] then []
    else
      var t := TagOf(fs[|fs| - 1], rules);
      TagAll(fs[..|fs| - 1], rules) + if t.Some? then [t.value] else []
  }

  /** The loop of `tagger_node_process` over the frames it pops, with its two buffers reused throughout. */
  method Process(popped: seq<Frame>, rules: array<Rule>, count: nat) returns (sent: seq<Frame>)
    requires count <= rules.Length && ValidRules(rules[..count])
    requires forall i :: 0 <= i < |popped| ==>
      && 1 <= |popped[i]| <= FRAME_BUFFER
      && (TagOf(popped[i], rules[..count]).Some? ==> |popped[i]| <= MAX_CAPTURE)
    ensures sent == TagAll(popped, rules[..count])
  {
    var buffer := new byte[FRAME_BUFFER](_ => 0);
    var output := new byte[FRAME_BUFFER](_ => 0);
    sent := [];
    for i := 0 to |popped|
      invariant sent == TagAll(popped[..i], rules[..count])
    {
      var f := popped[i];
      Copy(buffer, 0, f);
      assert buffer[..|f|] == f by {
        assert buffer[..] == f + buffer[|f|..];
      }
      var n := ProcessOne(buffer, output, |f|, rules, count);
      if n.Some? {
        sent := sent + [output[..n.value]];
      }
      assert popped[..i + 1][..i] == popped[..i] && popped[..i + 1][i] == f;
    }
    assert popped[..|popped|] == popped;
  }
}
