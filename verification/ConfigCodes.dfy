/**
 What config_parser/config_parser.c makes of every trimmed line: which result each line
 gets, whatever its fields contain, and which numerals are tags.
 */
module ConfigCodes {
  import opened Bytes
  import opened Decimal
  import opened RuleTable
  import opened ConfigText
  import opened ConfigRoundTrip

  // ---------------------------------------------------------------- lines without fields

  lemma {:induction false} CountIsMultiplicity(s: string, c: char)
    ensures Count(s, c) == multiset(s)[c]
  {
    if s != "" {
      CountIsMultiplicity(s[1..], c);
      assert s == [s[0]] + s[1..];
    }
  }

  /** Nothing, a comment or a blank line: the loader goes on. */
  predicate Skipped(s: string) {
    s == "" || s[0] == '#' || s[0] == '\n'
  }

  /**
   Every other line needs one dash or two, or it fails with -5, and room for a rule among
   128, or it fails with -6.
   */
  lemma LinesWithoutRules(s: string, count: nat, aton: string -> Option<Addr>)
    ensures Parse(s, count, aton) == Skip <==> Skipped(s)
    ensures !Skipped(s) ==> (Parse(s, count, aton) == Fail(-5) <==> !(1 <= multiset(s)['-'] <= 2))
    ensures !Skipped(s) && 1 <= multiset(s)['-'] <= 2 ==> (Parse(s, count, aton) == Fail(-6) <==> count >= 128)
  {
    hide Token, TagValue, Count;
    CountIsMultiplicity(s, '-');
  }

  // ---------------------------------------------------------------- fields

  /** Leading dashes separate nothing. */
  lemma DashFirst(rest: string)
    ensures Token("-" + rest) == Token(rest)
  {
    assert ("-" + rest)[1..] == rest;
  }

  lemma LastToken(t: string)
    requires HasNo(t, '-')
    ensures Token(t) == if t == "" then None else Some((t, ""))
  {
    if t != "" {
      TokenOfPrefix(t, "");
    }
  }

  lemma NextToken(l: string, rest: string)
    requires HasNo(l, '-')
    ensures Token(l + "-" + rest) == if l == "" then Token(rest) else Some((l, rest))
  {
    if l == "" {
      DashFirst(rest);
      assert l + "-" + rest == "-" + rest;
    } else {
      TokenOfPrefix(l, rest);
    }
  }

  /**
   A line with one dash is a rule for one address: an address and a tag. A missing field
   counts as missing at the end, since adjacent dashes separate nothing.
   */
  lemma OneDash(l: string, t: string, count: nat, aton: string -> Option<Addr>)
    requires HasNo(l, '-') && HasNo(t, '-') && !Skipped(l + "-" + t) && count < 128
    ensures Parse(l + "-" + t, count, aton) ==
            if l == "" && t == "" then Fail(-7)
            else if l == "" || t == "" then if aton(l + t).None? then Fail(-8) else Fail(-7)
            else if aton(l).None? then Fail(-8)
            else if TagValue(t).None? then Fail(-9)
            else Good(Rule(aton(l).value, aton(l).value, TagValue(t).value))
  {
    hide Token, TagValue, Count;
    var s := l + "-" + t;
    DashesOf(l, t);
    CountNone(t, '-');
    NextToken(l, t);
    LastToken(t);
    LastToken("");
    assert l == "" ==> l + t == t;
    assert t == "" ==> l + t == l;
  }

  /** A line with two dashes is a rule for a range: two addresses and a tag, with the same treatment of missing fields. */
  lemma TwoDashes(l: string, m: string, t: string, count: nat, aton: string -> Option<Addr>)
    requires HasNo(l, '-') && HasNo(m, '-') && HasNo(t, '-') && !Skipped(l + "-" + (m + "-" + t)) && count < 128
    ensures var x, y := if l == "" then m else l, if t == "" then m else t;
            var filled := (if l == "" then 0 else 1) + (if m == "" then 0 else 1) + (if t == "" then 0 else 1);
            Parse(l + "-" + (m + "-" + t), count, aton) ==
            if filled == 0 then Fail(-7)
            else if filled == 1 then if aton(l + (m + t)).None? then Fail(-8) else Fail(-7)
            else if filled == 2 then if aton(x).None? || aton(y).None? then Fail(-8) else Fail(-7)
            else if aton(l).None? || aton(m).None? then Fail(-8)
            else if TagValue(t).None? then Fail(-9)
            else Good(Rule(aton(l).value, aton(m).value, TagValue(t).value))
  {
    hide Token, TagValue, Count;
    DashesOf(l, m + "-" + t);
    DashesOf(m, t);
    CountNone(t, '-');
    NextToken(l, m + "-" + t);
    NextToken(m, t);
    LastToken(t);
    LastToken(m);
    LastToken("");
    assert l == "" ==> l + (m + t) == m + t;
    assert m == "" ==> m + t == t;
    assert t == "" ==> m + t == m;
    assert m + t == "" ==> l + (m + t) == l;
  }

  /** The first line that fails decides: the file fails with its code, whatever follows. */
  lemma FirstFailureDecides(es: seq<Entry>, rs: seq<Rule>, e: Entry, later: string, code: int,
                            aton: string -> Option<Addr>)
    requires forall i :: 0 <= i < |es| ==> Proper(es[i])
    requires LaysOut(es, rs) && ReadsQuads(aton) && |rs| <= 128
    requires forall i :: 0 <= i < |rs| ==> 0 <= rs[i].tag <= 4095
    requires Proper(e) && e.Content? && Parse(e.rule, |rs|, aton) == Fail(code)
    ensures LoadText(Text(es) + (Render(e) + "\n" + later), aton) == Failed(code)
  {
    hide Parse, PrintRule, LoadFrom, Chunks, LaysOut, ReadsQuads, Render, Text;
    RoundTripFrom(es, rs, [], aton);
    assert [] + rs == rs;
    LoadSplits(es, Render(e) + "\n" + later, [], aton);
    LoadFirst(e, later, rs, aton);
  }

  // ---------------------------------------------------------------- tags

  /** What `strtol` skips: space, and the control characters from tab to carriage return. */
  predicate Spaces(ws: string) {
    forall i :: 0 <= i < |ws| ==> ws[i] == ' ' || 9 <= ws[i] as int <= 13
  }

  predicate Numeral(d: string) {
    d != "" && forall i :: 0 <= i < |d| ==> '0' <= d[i] <= '9'
  }

  lemma {:induction false} SpacesAreSkipped(ws: string, s: string)
    requires Spaces(ws) && s != "" && s[0] != ' ' && !(9 <= s[0] as int <= 13)
    ensures SkipSpace(ws + s) == s
  {
    if ws == "" {
      assert ws + s == s;
    } else {
      SpacesAreSkipped(ws[1..], s);
      assert (ws + s)[1..] == ws[1..] + s;
    }
  }

  /** White space, a sign and digits are a tag exactly when the number fits an `int` of 32 bits. */
  lemma NumeralsAreTags(ws: string, sign: string, d: digits)
    requires Spaces(ws) && (sign == "" || sign == "+" || sign == "-") && Numeral(d)
    ensures var v: int := if sign == "-" then -(Value(d) as int) else Value(d);
            TagValue(ws + sign + d) == if -0x8000_0000 <= v <= 0x7FFF_FFFF then Some(v) else None
  {
    hide Value;
    assert ws + sign + d == ws + (sign + d);
    SpacesAreSkipped(ws, sign + d);
    if sign == "" {
      assert sign + d == d;
    } else {
      assert (sign + d)[1..] == d && (sign + d)[0] == sign[0];
    }
  }

  lemma {:induction false} SkippedSpaces(s: string) returns (ws: string)
    ensures s == ws + SkipSpace(s) && Spaces(ws)
  {
    if s != "" && IsSpace(s[0]) {
      ws := SkippedSpaces(s[1..]);
      ws := [s[0]] + ws;
    } else {
      ws := "";
    }
  }

  /** Nothing else is a tag. */
  lemma OnlyNumeralsAreTags(s: string) returns (ws: string, sign: string, d: string)
    requires TagValue(s).Some?
    ensures s == ws + sign + d && Spaces(ws) && (sign == "" || sign == "+" || sign == "-") && Numeral(d)
  {
    hide Value;
    ws := SkippedSpaces(s);
    var t := SkipSpace(s);
    if t[0] == '-' || t[0] == '+' {
      sign, d := [t[0]], t[1..];
      assert t == sign + d;
    } else {
      sign, d := "", t;
    }
    assert s == ws + (sign + d);
  }

  /** The digits weigh tens. */
  lemma NumeralsCountInTens(d: digits, c: char)
    requires '0' <= c <= '9'
    ensures Value(d + [c]) == 10 * Value(d) + (c as int - '0' as int) && Value([]) == 0
  {
    assert (d + [c])[..|d|] == d;
  }
}
