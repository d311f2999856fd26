/**
 Tagging rules: the validation that closes config_parser/config_parser.c and the
 first-match scan of nodes/src/tagger_node.c, on addresses in host byte order.
 */
module RuleTable {
  import opened Bytes

  const ADDRESSES: int := 0x1_0000_0000
  const MAX_RULES: nat := 128
  const MIN_VLAN_ID: int := 0
  const MAX_VLAN_ID: int := 4095

  type Addr = a: int | 0 <= a < 0x1_0000_0000

  datatype Rule = Rule(left: Addr, right: Addr, tag: int)

  predicate Covers(r: Rule, a: Addr) {
    r.left <= a <= r.right
  }

  predicate Apart(r: Rule, s: Rule) {
    r.right < s.left || s.right < r.left
  }

  ghost predicate Ordered(rs: seq<Rule>) {
    forall i :: 0 <= i < |rs| ==> rs[i].left <= rs[i].right
  }

  ghost predicate Disjoint(rs: seq<Rule>) {
    forall i, j :: 0 <= i < j < |rs| ==> Apart(rs[i], rs[j])
  }

  ghost predicate Tagged(rs: seq<Rule>) {
    forall i :: 0 <= i < |rs| ==> MIN_VLAN_ID <= rs[i].tag <= MAX_VLAN_ID
  }

  /** What `validate_rules` accepts. */
  ghost predicate ValidRules(rs: seq<Rule>) {
    Ordered(rs) && Disjoint(rs) && Tagged(rs)
  }

  /** The result code, by the first check that fails. */
  ghost function Verdict(rs: seq<Rule>): int {
    if !Ordered(rs) then -11
    else if !Disjoint(rs) then -12
    else if !Tagged(rs) then -13
    else 0
  }

  ghost predicate SomeReversed(rs: seq<Rule>) {
    exists i :: 0 <= i < |rs| && rs[i].left > rs[i].right
  }

  /** An address lies in two of the rules. */
  ghost predicate SomeShared(rs: seq<Rule>) {
    exists i, j, a: Addr :: 0 <= i < j < |rs| && Covers(rs[i], a) && Covers(rs[j], a)
  }

  ghost predicate SomeBadTag(rs: seq<Rule>) {
    exists i :: 0 <= i < |rs| && !(0 <= rs[i].tag <= 4095)
  }

  /** What each code says about the rules; reversed ranges are reported before shared addresses, and bad tags last. */
  lemma VerdictMeans(rs: seq<Rule>)
    ensures Verdict(rs) ==
            if SomeReversed(rs) then -11 else if SomeShared(rs) then -12 else if SomeBadTag(rs) then -13 else 0
    ensures ValidRules(rs) <==> !SomeReversed(rs) && !SomeShared(rs) && !SomeBadTag(rs)
  {
    if Ordered(rs) {
      if !Disjoint(rs) {
        var i, j :| 0 <= i < j < |rs| && !Apart(rs[i], rs[j]);
        var a: Addr := if rs[i].left < rs[j].left then rs[j].left else rs[i].left;
        assert Covers(rs[i], a) && Covers(rs[j], a);
        assert SomeShared(rs);
      }
    }
  }

  /** `validate_rules`, over the first `size` entries of the table. */
  method ValidateRules(rules: array<Rule>, size: nat) returns (code: int)
    requires size <= rules.Length
    ensures code == Verdict(rules[..size])
    ensures code == 0 <==> ValidRules(rules[..size])
  {
    ghost var rs := rules[..size];
    for i := 0 to size
      invariant Ordered(rs[..i])
    {
      if rules[i].left > rules[i].right {
        assert !(rs[i].left <= rs[i].right);
        return -11;
      }
    }
    assert rs[..size] == rs;
    for i := 0 to size
      invariant forall m, n :: 0 <= m < i && m < n < size ==> Apart(rs[m], rs[n])
    {
      for j := i + 1 to size
        invariant forall n :: i < n < j ==> Apart(rs[i], rs[n])
      {
        if !(rules[i].right < rules[j].left || rules[j].right < rules[i].left) {
          assert !Apart(rs[i], rs[j]);
          return -12;
        }
      }
    }
    for i := 0 to size
      invariant Tagged(rs[..i])
    {
      if rules[i].tag < MIN_VLAN_ID || rules[i].tag > MAX_VLAN_ID {
        assert !(MIN_VLAN_ID <= rs[i].tag <= MAX_VLAN_ID);
        return -13;
      }
    }
    code := 0;
  }

  // ---------------------------------------------------------------- the scan

  /** The tag of the first rule that covers `a`, or 0. */
  function Lookup(rs: seq<Rule>, a: Addr): int {
    if rs == [] then 0
    else if Covers(rs[0], a) then rs[0].tag
    else Lookup(rs[1..], a)
  }

  /** `tagger_node_get_tag`. */
  method GetTag(rules: array<Rule>, size: nat, a: Addr) returns (tag: int)
    requires size <= rules.Length
    ensures tag == Lookup(rules[..size], a)
  {
    ghost var rs := rules[..size];
    for i := 0 to size
      invariant Lookup(rs, a) == Lookup(rs[i..], a)
    {
      assert rs[i..][0] == rules[i] && rs[i..][1..] == rs[i + 1..];
      if rules[i].left <= a && rules[i].right >= a {
        return rules[i].tag;
      }
    }
    tag := 0;
  }

  /** Among disjoint rules every rule that covers an address answers for it. */
  lemma {:induction false} LookupIsTheCover(rs: seq<Rule>, a: Addr, k: nat)
    requires Disjoint(rs) && k < |rs| && Covers(rs[k], a)
    ensures Lookup(rs, a) == rs[k].tag
    ensures forall m :: 0 <= m < |rs| && Covers(rs[m], a) ==> m == k
  {
    if k == 0 {
    } else {
      LookupIsTheCover(rs[1..], a, k - 1);
    }
  }

  lemma {:induction false} LookupOutside(rs: seq<Rule>, a: Addr)
    requires forall m :: 0 <= m < |rs| ==> !Covers(rs[m], a)
    ensures Lookup(rs, a) == 0
  {
    if rs == [] {
    } else {
      LookupOutside(rs[1..], a);
    }
  }

  /** For validated rules the order of the table does not matter, for any address. */
  lemma LookupIsOrderFree(rs: seq<Rule>, ss: seq<Rule>, a: Addr)
    requires ValidRules(rs) && multiset(rs) == multiset(ss)
    ensures Lookup(ss, a) == Lookup(rs, a)
  {
    if k :| 0 <= k < |rs| && Covers(rs[k], a) {
      LookupIsTheCover(rs, a, k);
      assert rs[k] in multiset(ss);
      assert rs[k] in ss;
      SameTag(rs, ss, a, k);
    } else {
      forall m | 0 <= m < |ss|
        ensures !Covers(ss[m], a)
      {
        assert ss[m] in multiset(rs);
        assert ss[m] in rs;
      }
      LookupOutside(rs, a);
      LookupOutside(ss, a);
    }
  }

  /** If some rule covers `a`, and all of them carry one tag, the scan finds that tag. */
  lemma {:induction false} LookupUniform(rs: seq<Rule>, a: Addr, tag: int)
    requires exists m :: 0 <= m < |rs| && Covers(rs[m], a)
    requires forall m :: 0 <= m < |rs| && Covers(rs[m], a) ==> rs[m].tag == tag
    ensures Lookup(rs, a) == tag
  {
    if !Covers(rs[0], a) {
      var m :| 0 <= m < |rs| && Covers(rs[m], a);
      assert rs[1..][m - 1] == rs[m];
      LookupUniform(rs[1..], a, tag);
    }
  }

  lemma SameTag(rs: seq<Rule>, ss: seq<Rule>, a: Addr, k: nat)
    requires Disjoint(rs) && multiset(rs) == multiset(ss)
    requires k < |rs| && Covers(rs[k], a)
    ensures Lookup(ss, a) == rs[k].tag
  {
    assert rs[k] in multiset(ss);
    forall m | 0 <= m < |ss| && Covers(ss[m], a)
      ensures ss[m].tag == rs[k].tag
    {
      assert ss[m] in multiset(rs);
      var i :| 0 <= i < |rs| && rs[i] == ss[m];
      LookupIsTheCover(rs, a, k);
    }
    LookupUniform(ss, a, rs[k].tag);
  }

  /** Validity itself does not depend on the order of the table. */
  lemma ValidityIsOrderFree(rs: seq<Rule>, ss: seq<Rule>)
    requires ValidRules(rs) && multiset(rs) == multiset(ss)
    ensures ValidRules(ss)
  {
    forall i | 0 <= i < |ss|
      ensures ss[i] in rs
    {
      assert ss[i] in multiset(rs);
    }
    forall i, j | 0 <= i < j < |ss|
      ensures Apart(ss[i], ss[j])
    {
      if ss[i] == ss[j] {
        Twice(ss, i, j);
        OnlyOnce(rs, ss[i]);
        assert false;
      } else {
        var m :| 0 <= m < |rs| && rs[m] == ss[i];
        var n :| 0 <= n < |rs| && rs[n] == ss[j];
        if m < n {
          assert Apart(rs[m], rs[n]);
        } else {
          assert Apart(rs[n], rs[m]);
        }
      }
    }
  }

  lemma Twice(rs: seq<Rule>, i: nat, j: nat)
    requires i < j < |rs| && rs[i] == rs[j]
    ensures multiset(rs)[rs[i]] >= 2
  {
    assert rs == rs[..i] + [rs[i]] + rs[i + 1..j] + [rs[j]] + rs[j + 1..];
  }

  /** An ordered rule is not apart from itself, so a disjoint table holds it once. */
  lemma {:induction false} OnlyOnce(rs: seq<Rule>, r: Rule)
    requires Ordered(rs) && Disjoint(rs)
    ensures multiset(rs)[r] <= 1
  {
    if rs == [] {
    } else {
      OnlyOnce(rs[1..], r);
      assert rs == [rs[0]] + rs[1..];
      forall m | 0 <= m < |rs[1..]|
        ensures rs[1..][m] != rs[0]
      {
        assert Apart(rs[0], rs[m + 1]);
      }
    }
  }

  // ---------------------------------------------------------------- interval measure

  function Width(r: Rule): int { r.right - r.left + 1 }

  function Sum(rs: seq<Rule>): int {
    if rs == [] then 0 else Width(rs[0]) + Sum(rs[1..])
  }

  /** The integers from `l` to `r`. */
  ghost function Interval(l: int, r: int): (s: set<int>)
    ensures forall a :: a in s <==> l <= a <= r
    decreases r - l
  {
    if l > r then {} else Interval(l, r - 1) + {r}
  }

  ghost function Covered(rs: seq<Rule>): set<int> {
    if rs == [] then {} else Interval(rs[0].left, rs[0].right) + Covered(rs[1..])
  }

  lemma {:induction false} IntervalSize(l: int, r: int)
    requires l <= r + 1
    ensures |Interval(l, r)| == r - l + 1
    decreases r - l + 1
  {
    if l <= r {
      IntervalSize(l, r - 1);
    }
  }

  /** `Covered` holds the addresses that some rule covers, and no others. */
  lemma {:induction false} CoveredMeans(rs: seq<Rule>, a: Addr)
    ensures a in Covered(rs) <==> exists m :: 0 <= m < |rs| && Covers(rs[m], a)
  {
    if rs == [] {
    } else {
      CoveredMeans(rs[1..], a);
      if m :| 0 <= m < |rs| && Covers(rs[m], a) {
        if m > 0 {
          assert rs[1..][m - 1] == rs[m];
        }
      }
      if a in Covered(rs[1..]) {
        var m :| 0 <= m < |rs[1..]| && Covers(rs[1..][m], a);
        assert rs[m + 1] == rs[1..][m];
      }
    }
  }

  lemma {:induction false} CoveredAreAddresses(rs: seq<Rule>)
    ensures Covered(rs) <= Interval(0, ADDRESSES - 1)
  {
    if rs == [] {
    } else {
      CoveredAreAddresses(rs[1..]);
    }
  }

  /** The widths of validated rules add up to the number of addresses covered, hence to 2^32 at most. */
  lemma {:induction false} WidthsMeasureCoverage(rs: seq<Rule>)
    requires Ordered(rs) && Disjoint(rs)
    ensures |Covered(rs)| == Sum(rs) <= ADDRESSES
  {
    if rs == [] {
    } else {
      WidthsMeasureCoverage(rs[1..]);
      IntervalSize(rs[0].left, rs[0].right);
      forall a | a in Interval(rs[0].left, rs[0].right)
        ensures a !in Covered(rs[1..])
      {
        CoveredMeans(rs[1..], a);
        forall m | 0 <= m < |rs[1..]|
          ensures !Covers(rs[1..][m], a)
        {
          assert Apart(rs[0], rs[m + 1]);
        }
      }
      assert Interval(rs[0].left, rs[0].right) !! Covered(rs[1..]);
    }
    CoveredAreAddresses(rs);
    IntervalSize(0, ADDRESSES - 1);
    SubsetSize(Covered(rs), Interval(0, ADDRESSES - 1));
  }

  /** An address gets a nonzero tag exactly when a rule with a nonzero tag covers it. */
  lemma TaggedWhenCovered(rs: seq<Rule>, a: Addr)
    requires ValidRules(rs)
    ensures Lookup(rs, a) != 0 <==> exists m :: 0 <= m < |rs| && Covers(rs[m], a) && rs[m].tag != 0
    ensures 0 <= Lookup(rs, a) <= MAX_VLAN_ID
  {
    if m :| 0 <= m < |rs| && Covers(rs[m], a) {
      LookupIsTheCover(rs, a, m);
    } else {
      LookupOutside(rs, a);
    }
  }
}
