/**
 What config_parser/config_parser.c promises about rule files: a printed rule set
 loads back, in any layout.
 */
module ConfigRoundTrip {
  import opened Bytes
  import opened Decimal
  import opened RuleTable
  import opened ConfigText

  // ---------------------------------------------------------------- printing

  /** One rule as a line of the file; a rule for one address may use the short form. */
  function PrintRule(r: Rule, short: bool): string
    requires r.tag >= 0
  {
    if short && r.left == r.right then Dotted(r.left) + "-" + Print(r.tag)
    else Dotted(r.left) + "-" + (Dotted(r.right) + "-" + Print(r.tag))
  }

  // ---------------------------------------------------------------- small facts about strings

  /** Characters of printed rules: no space, tab, comment sign, newline or NUL. */
  predicate Plain(s: string) {
    forall i :: 0 <= i < |s| ==> s[i] != ' ' && s[i] != '\t' && s[i] != '#' && s[i] != '\n' && s[i] != '\0'
  }

  /** Text that ends a rule: it begins with a space, a tab, a comment sign or a newline. */
  predicate Trails(tail: string) {
    tail != "" && (tail[0] == ' ' || tail[0] == '\t' || tail[0] == '#' || tail[0] == '\n')
  }

  predicate QuadChars(s: string) {
    forall i :: 0 <= i < |s| ==> IsDigit(s[i]) || s[i] == '.'
  }

  lemma {:induction false} BeforeFirst(s: string, c: char, rest: string)
    requires HasNo(s, c)
    ensures Before(s + [c] + rest, c) == s
    ensures Before(s, c) == s
  {
    if s == "" {
      assert s + [c] + rest == [c] + rest;
    } else {
      BeforeFirst(s[1..], c, rest);
      assert (s + [c] + rest)[1..] == s[1..] + [c] + rest;
    }
  }

  lemma {:induction false} CountAppend(s: string, t: string, c: char)
    ensures Count(s + t, c) == Count(s, c) + Count(t, c)
  {
    if s == "" {
      assert s + t == t;
    } else {
      CountAppend(s[1..], t, c);
      assert (s + t)[1..] == s[1..] + t;
    }
  }

  lemma {:induction false} CountNone(s: string, c: char)
    requires HasNo(s, c)
    ensures Count(s, c) == 0
  {
    if s == "" {
    } else {
      CountNone(s[1..], c);
    }
  }

  /** A token before a dash is found whole. */
  lemma TokenOfPrefix(s: string, rest: string)
    requires s != "" && HasNo(s, '-')
    ensures Token(s + "-" + rest) == Some((s, rest))
    ensures Token(s) == Some((s, ""))
  {
    var t := s + "-" + rest;
    BeforeFirst(s, '-', rest);
    assert t[0] == s[0];
    assert SkipDashes(t) == t && SkipDashes(s) == s;
    assert t[|s| + 1..] == rest;
  }

  // ---------------------------------------------------------------- numbers and addresses

  lemma FieldOfPrint(n: nat)
    requires n < 256
    ensures Field(Print(n)) == Some(n)
    ensures HasNo(Print(n), '.') && |Print(n)| <= 3
  {
    ValueOfPrint(n);
    assert Pow10(3) == 1000;
    PrintLength(n, 3);
  }

  lemma FieldStep(n: nat, rest: string, k: nat, a: nat)
    requires n < 256 && k > 1
    ensures ParseFields(Print(n) + "." + rest, k, a) == ParseFields(rest, k - 1, a * 256 + n)
  {
    FieldOfPrint(n);
    BeforeFirst(Print(n), '.', rest);
    var s := Print(n) + "." + rest;
    assert s[|Print(n)| + 1..] == rest;
  }

  lemma LastField(n: nat, a: nat)
    requires n < 256
    ensures ParseFields(Print(n), 1, a) == Some(a * 256 + n)
  {
    FieldOfPrint(n);
    BeforeFirst(Print(n), '.', "");
  }

  lemma QuadReadsBack(b3: nat, b2: nat, b1: nat, b0: nat)
    requires b3 < 256 && b2 < 256 && b1 < 256 && b0 < 256
    ensures ParseDotted(Quad(b3, b2, b1, b0)) == Some(((b3 * 256 + b2) * 256 + b1) * 256 + b0)
  {
    hide Print, ParseFields;
    var t1 := Print(b1) + "." + Print(b0);
    var t2 := Print(b2) + "." + t1;
    FieldStep(b3, t2, 4, 0);
    FieldStep(b2, t1, 3, b3);
    FieldStep(b1, Print(b0), 2, b3 * 256 + b2);
    LastField(b0, (b3 * 256 + b2) * 256 + b1);
  }

  lemma QuadShape(b3: nat, b2: nat, b1: nat, b0: nat)
    requires b3 < 256 && b2 < 256 && b1 < 256 && b0 < 256
    ensures QuadChars(Quad(b3, b2, b1, b0)) && 0 < |Quad(b3, b2, b1, b0)| <= 15
  {
    hide Print;
    FieldOfPrint(b3);
    FieldOfPrint(b2);
    FieldOfPrint(b1);
    FieldOfPrint(b0);
  }

  /** A printed address reads back. */
  lemma DottedReadsBack(a: Addr)
    ensures ParseDotted(Dotted(a)) == Some(a)
    ensures QuadChars(Dotted(a)) && 0 < |Dotted(a)| <= 15
  {
    hide Quad, ParseDotted;
    var b3, b2, b1, b0 := a / 0x100_0000, a / 0x1_0000 % 256, a / 256 % 256, a % 256;
    assert a == ((b3 * 256 + b2) * 256 + b1) * 256 + b0;
    QuadReadsBack(b3, b2, b1, b0);
    QuadShape(b3, b2, b1, b0);
  }

  /** The reading of dotted quads that the theorems ask of `inet_aton` exists. */
  lemma QuadsCanBeRead()
    ensures ReadsQuads(s => QuadReader(s))
  {
    hide Dotted, ParseDotted;
    forall a: Addr
      ensures QuadReader(Dotted(a)) == Some(a)
    {
      DottedReadsBack(a);
    }
  }

  function QuadReader(s: string): Option<Addr> {
    var a := ParseDotted(s);
    if a.Some? && a.value < ADDRESSES then Some(a.value) else None
  }

  /** The text of an address is its four bytes, from the highest to the lowest. */
  lemma BytesOfAddress(b3: nat, b2: nat, b1: nat, b0: nat)
    requires b3 < 256 && b2 < 256 && b1 < 256 && b0 < 256
    ensures Dotted(0x100_0000 * b3 + 0x1_0000 * b2 + 0x100 * b1 + b0) == Quad(b3, b2, b1, b0)
  {
    hide Quad;
    BytesOfNumber(b3, b2, b1, b0);
  }

  lemma BytesOfNumber(b3: nat, b2: nat, b1: nat, b0: nat)
    requires b3 < 256 && b2 < 256 && b1 < 256 && b0 < 256
    ensures var a := 0x100_0000 * b3 + 0x1_0000 * b2 + 0x100 * b1 + b0;
            a / 0x100_0000 == b3 && a / 0x1_0000 % 256 == b2 && a / 256 % 256 == b1 && a % 256 == b0
  {
    var a := 0x100_0000 * b3 + 0x1_0000 * b2 + 0x100 * b1 + b0;
    assert a / 0x1_0000 == 256 * b3 + b2;
    assert a / 256 == 256 * (256 * b3 + b2) + b1;
  }

  lemma QuadExample()
    ensures Quad(10, 0, 255, 1) == "10.0.255.1"
  {
    PrintedBytes();
    hide Print;
    var t1 := "255" + "." + "1";
    assert t1 == "255.1";
    var t2 := "0" + "." + t1;
    assert t2 == "0.255.1";
    assert "10" + "." + t2 == "10.0.255.1";
  }

  lemma PrintedBytes()
    ensures Print(0) == "0" && Print(1) == "1" && Print(10) == "10" && Print(255) == "255"
  {
    assert Print(2) == "2" && Print(25) == "25";
  }

  /** A printed tag reads back. */
  lemma TagReadsBack(tag: nat)
    requires tag <= 4095
    ensures TagValue(Print(tag)) == Some(tag)
    ensures HasNo(Print(tag), '-') && 0 < |Print(tag)| <= 4
  {
    ValueOfPrint(tag);
    Print4(tag);
  }

  // ---------------------------------------------------------------- one printed rule

  ghost predicate Printable(r: Rule) {
    0 <= r.tag <= 4095
  }

  /** A printed rule is plain text of at most 36 characters, which is what the 37 scanned characters allow. */
  lemma PrintedShape(r: Rule, short: bool)
    requires Printable(r)
    ensures var s := PrintRule(r, short); Plain(s) && 0 < |s| <= 36
  {
    hide Dotted, Print, ParseDotted, TagValue;
    DottedReadsBack(r.left);
    DottedReadsBack(r.right);
    TagReadsBack(r.tag);
    assert Plain(Dotted(r.left)) && Plain(Dotted(r.right)) && Plain(Print(r.tag));
  }

  lemma DashesOf(s: string, rest: string)
    requires HasNo(s, '-')
    ensures Count(s + "-" + rest, '-') == 1 + Count(rest, '-')
  {
    CountNone(s, '-');
    CountAppend(s, "-", '-');
    CountAppend(s + "-", rest, '-');
    assert Count("-", '-') == 1;
  }

  lemma ParsesShort(l: string, t: string, a: Addr, tag: int, count: nat, aton: string -> Option<Addr>)
    requires l != "" && QuadChars(l) && aton(l) == Some(a)
    requires t != "" && HasNo(t, '-') && TagValue(t) == Some(tag)
    requires count < 128
    ensures Parse(l + "-" + t, count, aton) == Good(Rule(a, a, tag))
  {
    hide TagValue, Token, Count;
    DashesOf(l, t);
    CountNone(t, '-');
    TokenOfPrefix(l, t);
    TokenOfPrefix(t, "");
    assert (l + "-" + t)[0] == l[0];
  }

  lemma ParsesLong(l: string, m: string, t: string, a: Addr, b: Addr, count: nat, aton: string -> Option<Addr>)
    requires l != "" && QuadChars(l) && aton(l) == Some(a)
    requires m != "" && QuadChars(m) && aton(m) == Some(b)
    requires t != "" && HasNo(t, '-')
    requires count < 128
    ensures Parse(l + "-" + (m + "-" + t), count, aton)
         == if TagValue(t).Some? then Good(Rule(a, b, TagValue(t).value)) else Fail(-9)
  {
    hide TagValue, Token, Count;
    DashesOf(l, m + "-" + t);
    DashesOf(m, t);
    CountNone(t, '-');
    TokenOfPrefix(l, m + "-" + t);
    TokenOfPrefix(m, t);
    TokenOfPrefix(t, "");
    assert (l + "-" + (m + "-" + t))[0] == l[0];
  }

  /** The loader reads a printed rule as that rule. */
  lemma PrintedParses(r: Rule, short: bool, count: nat, aton: string -> Option<Addr>)
    requires Printable(r) && count < 128 && ReadsQuads(aton)
    ensures Parse(PrintRule(r, short), count, aton) == Good(r)
  {
    hide Parse, Dotted, TagValue, ParseDotted;
    DottedReadsBack(r.left);
    DottedReadsBack(r.right);
    TagReadsBack(r.tag);
    if short && r.left == r.right {
      ParsesShort(Dotted(r.left), Print(r.tag), r.left, r.tag, count, aton);
    } else {
      ParsesLong(Dotted(r.left), Dotted(r.right), Print(r.tag), r.left, r.right, count, aton);
    }
  }

  // ---------------------------------------------------------------- layout of one line

  predicate Indent(s: string) {
    forall i :: 0 <= i < |s| ==> s[i] == ' ' || s[i] == '\t'
  }

  lemma {:induction false} DedentSkips(ws: string, s: string)
    requires Indent(ws) && (s != "" ==> !IsIndent(s[0]))
    ensures Dedent(ws + s) == s
  {
    if ws == "" {
      assert ws + s == s;
    } else {
      DedentSkips(ws[1..], s);
      assert (ws + s)[1..] == ws[1..] + s;
    }
  }

  /** The cut finds a stop character that starts within the scanned part, and only then. */
  lemma {:induction false} CutAt(s: string, tail: string, room: nat)
    requires Plain(s) && Trails(tail)
    ensures |s| < room ==> Cut(s + tail, room) == s
    ensures |s| >= room ==> Cut(s + tail, room) == s + tail
  {
    if s == "" {
      assert s + tail == tail;
    } else if room > 0 {
      CutAt(s[1..], tail, room - 1);
      assert (s + tail)[1..] == s[1..] + tail;
    }
  }

  /**
   Indentation and anything after a space, tab, comment sign or newline are trimmed
   away exactly when the content is at most 36 characters long.
   */
  lemma TrimIsExact(ws: string, s: string, tail: string)
    requires Indent(ws) && Plain(s) && s != "" && Trails(tail)
    ensures Edit(ws + s + tail) == s <==> |s| <= 36
  {
    assert ws + s + tail == ws + (s + tail);
    assert (s + tail)[0] == s[0];
    DedentSkips(ws, s + tail);
    CutAt(s, tail, MAX_RULE_CONTENT_LENGTH);
  }

  lemma {:induction false} CutIndent(ws: string, room: nat)
    requires Indent(ws) && room > 0
    ensures Cut(ws, room) == ""
  {
  }

  lemma {:induction false} CStringKeeps(s: string)
    requires HasNo(s, '\0')
    ensures CString(s) == s
  {
    if s == "" {
    } else {
      CStringKeeps(s[1..]);
    }
  }

  // ---------------------------------------------------------------- files

  /** A line of a rule file as its author lays it out. */
  datatype Entry =
    | Blank(ws: string)
    | Comment(ws: string, text: string)
    | Content(ws: string, rule: string, tail: string)

  function Render(e: Entry): string {
    match e
    case Blank(ws) => ws
    case Comment(ws, text) => ws + "#" + text
    case Content(ws, rule, tail) => ws + rule + tail
  }

  /** One line of at most 98 characters, whatever it contains. */
  ghost predicate OneLine(e: Entry) {
    && Indent(e.ws)
    && |Render(e)| <= 98
    && HasNo(Render(e), '\n') && HasNo(Render(e), '\0')
    && (e.Content? ==> Plain(e.rule) && 0 < |e.rule| && (e.tail == "" || Trails(e.tail)))
  }

  /** Its content is short enough to be trimmed. */
  predicate Short(e: Entry) {
    e.Content? ==> |e.rule| <= 36
  }

  ghost predicate Proper(e: Entry) {
    OneLine(e) && Short(e)
  }

  /** What is left of a content line that ends in `end`: a long content keeps all that follows it. */
  function Seen(e: Entry, end: string): string
    requires e.Content?
  {
    if Short(e) then e.rule else e.rule + e.tail + end
  }

  function Text(es: seq<Entry>): string {
    if es == [] then "" else Render(es[0]) + "\n" + Text(es[1..])
  }

  /** The same file without comments, blank lines, indentation and trailing text. */
  function Bare(es: seq<Entry>): seq<Entry> {
    if es == [] then []
    else if es[0].Content? then [Content("", es[0].rule, "")] + Bare(es[1..])
    else Bare(es[1..])
  }

  lemma {:induction false} CutNothing(s: string, tail: string, room: nat)
    requires Plain(s)
    ensures |s| >= room ==> Cut(s + tail, room) == s + tail
    ensures Cut(s, room) == s
  {
    if s != "" && room > 0 {
      CutNothing(s[1..], tail, room - 1);
      assert (s + tail)[1..] == s[1..] + tail;
    }
  }

  /** Trimming content followed by nothing or by a stop character. */
  lemma EditContent(ws: string, s: string, tail: string)
    requires Indent(ws) && Plain(s) && s != "" && (tail == "" || Trails(tail))
    ensures Edit(ws + s + tail) == if |s| <= 36 then s else s + tail
  {
    hide Cut;
    assert ws + s + tail == ws + (s + tail);
    DedentSkips(ws, s + tail);
    CutNothing(s, tail, MAX_RULE_CONTENT_LENGTH);
    if tail == "" {
      assert s + tail == s;
    } else {
      CutAt(s, tail, MAX_RULE_CONTENT_LENGTH);
    }
  }

  lemma CutNewline()
    ensures Cut("\n", MAX_RULE_CONTENT_LENGTH) == ""
  {
  }

  /** What the loader sees of one line, with or without its newline. */
  lemma EntryTrims(e: Entry, end: string)
    requires OneLine(e) && (end == "" || end == "\n")
    ensures var s := Edit(CString(Render(e) + end));
            if e.Content? then s == Seen(e, end) else s == "" || s[0] == '#'
  {
    hide CString, Cut;
    var s := Render(e) + end;
    CStringKeeps(s);
    match e
    case Blank(ws) =>
      assert s == ws + end;
      DedentSkips(ws, end);
      CutNewline();
      if end == "" {
        assert s == ws;
        CutIndent(ws, MAX_RULE_CONTENT_LENGTH);
      }
    case Comment(ws, text) =>
      assert s == ws + ("#" + text + end);
      DedentSkips(ws, "#" + text + end);
    case Content(ws, rule, tail) =>
      assert s == ws + rule + (tail + end);
      EditContent(ws, rule, tail + end);
      assert rule + (tail + end) == rule + tail + end;
  }

  lemma BareOneLine(e: Entry)
    requires OneLine(e) && e.Content?
    ensures OneLine(Content("", e.rule, ""))
  {
    assert Render(Content("", e.rule, "")) == e.rule;
    assert e.rule == Render(e)[|e.ws|..|e.ws| + |e.rule|];
  }

  /** The chunk of the first line, and the chunks of the rest. */
  lemma LoadFirst(e: Entry, rest: string, acc: seq<Rule>, aton: string -> Option<Addr>)
    requires OneLine(e)
    ensures var t := Render(e) + "\n" + rest;
            LoadFrom(Chunks(t), acc, aton) ==
            if !e.Content? then LoadFrom(Chunks(rest), acc, aton)
            else Resume(Parse(Seen(e, "\n"), |acc|, aton), Chunks(rest), acc, aton)
  {
    ChunkOfLine(Render(e), rest);
    EntryTrims(e, "\n");
    var chunks := Chunks(Render(e) + "\n" + rest);
    assert chunks[0] == Render(e) + "\n" && chunks[1..] == Chunks(rest);
  }

  // ---------------------------------------------------------------- a newline is never part of a tag

  predicate Ends(s: string) {
    s != "" && s[|s| - 1] == '\n'
  }

  lemma {:induction false} SkipDashesKeeps(s: string)
    requires Ends(s)
    ensures Ends(SkipDashes(s)) && Count(SkipDashes(s), '-') <= Count(s, '-')
  {
    if s[0] == '-' {
      SkipDashesKeeps(s[1..]);
    }
  }

  lemma {:induction false} BeforeSplits(t: string, c: char)
    ensures var n := |Before(t, c)|;
            if n < |t| then t[n] == c && Count(t[n + 1..], c) < Count(t, c) else n == |t| && Before(t, c) == t
  {
    if t != "" && t[0] != c {
      BeforeSplits(t[1..], c);
      var n := |Before(t[1..], c)|;
      if n < |t[1..]| {
        assert t[1..][n + 1..] == t[n + 2..];
      }
    }
  }

  /** The newline goes to the last token, or stays with what is left for the next one. */
  lemma TokenKeepsEnd(s: string)
    requires Ends(s)
    ensures Token(s).Some?
    ensures var (w, rest) := Token(s).value;
            if rest == "" then Ends(w) else Ends(rest) && Count(rest, '-') < Count(s, '-')
  {
    SkipDashesKeeps(s);
    BeforeSplits(SkipDashes(s), '-');
  }

  lemma {:induction false} SkipSpaceKeeps(s: string)
    requires Ends(s)
    ensures SkipSpace(s) == "" || Ends(SkipSpace(s))
  {
    if IsSpace(s[0]) && |s| > 1 {
      SkipSpaceKeeps(s[1..]);
    }
  }

  lemma NewlineIsNoTag(s: string)
    requires Ends(s)
    ensures TagValue(s) == None
  {
    SkipSpaceKeeps(s);
    var t := SkipSpace(s);
    if t != "" {
      assert !IsDigit(t[|t| - 1]);
      assert |t| > 1 ==> t[1..][|t| - 2] == t[|t| - 1];
    }
  }

  /** The rest of a line with its newline has no tag, unless a dash cuts the newline off, and then no token is left. */
  lemma NewlineFailsTag(s: string, left: Addr, right: Addr)
    requires s == "" || (Ends(s) && Count(s, '-') == 0)
    ensures ParseTag(s, left, right).Fail? && ParseTag(s, left, right) != Fail(-5)
  {
    hide TagValue;
    if s != "" {
      TokenKeepsEnd(s);
      NewlineIsNoTag(Token(s).value.0);
    }
  }

  /** A line that keeps its newline when it is trimmed is no rule. */
  lemma NewlineNeverLoads(s: string, count: nat, aton: string -> Option<Addr>)
    requires Ends(s) && s[0] != '#' && s[0] != '\n'
    ensures Parse(s, count, aton).Fail?
    ensures Parse(s, count, aton) == Fail(-5) <==> !(1 <= Count(s, '-') <= 2)
  {
    hide ParseTag, Token;
    NoTokens();
    if 1 <= Count(s, '-') <= 2 {
      TokenKeepsEnd(s);
      var (w, rest) := Token(s).value;
      if aton(w).Some? {
        var left := aton(w).value;
        if Count(s, '-') == 1 {
          NewlineFailsTag(rest, left, left);
        } else if rest != "" {
          TokenKeepsEnd(rest);
          var (v, rest') := Token(rest).value;
          if aton(v).Some? {
            NewlineFailsTag(rest', left, aton(v).value);
          }
        }
      }
    }
  }

  lemma NoTokens()
    ensures Token("") == None
  {
  }

  lemma LongNeverLoads(e: Entry, count: nat, aton: string -> Option<Addr>)
    requires OneLine(e) && !Short(e)
    ensures Parse(Seen(e, "\n"), count, aton).Fail?
  {
    hide Parse;
    assert !IsStop(e.rule[0]);
    NewlineNeverLoads(Seen(e, "\n"), count, aton);
  }

  // ---------------------------------------------------------------- layout

  lemma {:induction false} LayoutFrom(es: seq<Entry>, acc: seq<Rule>, aton: string -> Option<Addr>)
    requires forall i :: 0 <= i < |es| ==> OneLine(es[i])
    ensures var a, b := LoadFrom(Chunks(Text(es)), acc, aton), LoadFrom(Chunks(Text(Bare(es))), acc, aton);
            a == b || (a.Failed? && b.Failed? && exists i :: 0 <= i < |es| && !Short(es[i]))
    decreases |es|
  {
    hide Parse, Chunks;
    if es == [] {
    } else {
      var e, rest := es[0], es[1..];
      LoadFirst(e, Text(rest), acc, aton);
      assert forall i :: 0 <= i < |rest| ==> es[i + 1] == rest[i];
      if e.Content? {
        BareOneLine(e);
        var b := Content("", e.rule, "");
        LoadFirst(b, Text(Bare(rest)), acc, aton);
        assert Bare(es)[0] == b && Bare(es)[1..] == Bare(rest);
        if Short(e) {
          var line := Parse(e.rule, |acc|, aton);
          LayoutFrom(rest, if line.Good? then acc + [line.rule] else acc, aton);
        } else {
          LongNeverLoads(e, |acc|, aton);
          LongNeverLoads(b, |acc|, aton);
        }
      } else {
        LayoutFrom(rest, acc, aton);
      }
    }
  }

  /** A laid-out file of whole lines is read and trimmed inside the buffer. */
  lemma {:induction false} LayoutIsSafe(es: seq<Entry>)
    requires forall i :: 0 <= i < |es| ==> OneLine(es[i])
    ensures forall c :: c in Chunks(Text(es)) ==> ChunkSafe(c)
    decreases |es|
  {
    hide Chunks, ChunkSafe, Render;
    if es == [] {
      NothingToRead();
    } else {
      ChunkOfLine(Render(es[0]), Text(es[1..]));
      FinishedLineIsSafe(Render(es[0]) + "\n");
      LayoutIsSafe(es[1..]);
    }
  }

  lemma NothingToRead()
    ensures Chunks("") == []
  {
  }

  /**
   Layout independence: whatever the lines contain, comment lines, blank lines,
   indentation and trailing text do not change which rules are loaded, nor whether
   any are.
   */
  lemma LayoutLoadsTheSameRules(es: seq<Entry>, aton: string -> Option<Addr>)
    requires forall i :: 0 <= i < |es| ==> OneLine(es[i])
    ensures forall rs :: LoadText(Text(es), aton) == Rules(rs) <==> LoadText(Text(Bare(es)), aton) == Rules(rs)
  {
    LayoutFrom(es, [], aton);
  }

  /**
   When every content has at most 36 characters, the layout does not change the error
   code either.
   */
  lemma LayoutDoesNotMatter(es: seq<Entry>, aton: string -> Option<Addr>)
    requires forall i :: 0 <= i < |es| ==> Proper(es[i])
    ensures LoadText(Text(es), aton) == LoadText(Text(Bare(es)), aton)
  {
    LayoutFrom(es, [], aton);
  }

  /**
   The exact condition under which trailing text never changes what a line means, error
   code included: the content has at most 36 characters, or so many dashes that it is
   refused anyway.
   */
  lemma TrailingTextIsIrrelevant(ws: string, s: string, count: nat, aton: string -> Option<Addr>)
    requires Indent(ws) && Plain(s) && s != ""
    ensures (forall tail :: tail == "" || Trails(tail) ==>
               Parse(Edit(ws + s + (tail + "\n")), count, aton) == Parse(Edit(ws + s + "\n"), count, aton))
            <==> |s| <= 36 || Count(s, '-') > 2
  {
    hide Edit, Parse;
    EditContent(ws, s, "\n");
    if |s| <= 36 || Count(s, '-') > 2 {
      forall tail | tail == "" || Trails(tail)
        ensures Parse(Edit(ws + s + (tail + "\n")), count, aton) == Parse(Edit(ws + s + "\n"), count, aton)
      {
        EditContent(ws, s, tail + "\n");
        if |s| >= 37 {
          DashesDecide(s, tail, count, aton);
          DashesDecide(s, "", count, aton);
          assert s + ("" + "\n") == s + "\n";
        }
      }
    } else {
      var tail := if Count(s, '-') == 0 then " -" else " --";
      EditContent(ws, s, tail + "\n");
      DashesDecide(s, tail, count, aton);
      DashesDecide(s, "", count, aton);
      assert s + ("" + "\n") == s + "\n";
      CountTails();
    }
  }

  lemma CountTails()
    ensures Count("", '-') == 0 && Count(" -", '-') == 1 && Count(" --", '-') == 2
  {
    assert " -"[1..] == "-" && " --"[1..] == "--" && "--"[1..] == "-" && "-"[1..] == "";
  }

  /** Whether a line that kept its newline fails with -5 depends on its dashes alone. */
  lemma DashesDecide(s: string, tail: string, count: nat, aton: string -> Option<Addr>)
    requires Plain(s) && s != ""
    ensures Parse(s + (tail + "\n"), count, aton) == Fail(-5) <==> !(1 <= Count(s, '-') + Count(tail, '-') <= 2)
  {
    hide Parse;
    assert !IsStop(s[0]);
    NewlineNeverLoads(s + (tail + "\n"), count, aton);
    CountAppend(s, tail + "\n", '-');
    CountAppend(tail, "\n", '-');
    CountNone("\n", '-');
  }

  // ---------------------------------------------------------------- the last line

  lemma LastChunk(s: string)
    requires HasNo(s, '\n') && s != "" && |s| <= 98
    ensures Chunks(s) == [s]
  {
    TakeWithMoreRoom(s, 99);
    TakeAll(s, "", |s|);
    assert s + "" == s && s[..|s|] == s && s[|s|..] == "";
  }

  /** A last line without a newline. */
  lemma LoadLast(e: Entry, acc: seq<Rule>, aton: string -> Option<Addr>)
    requires OneLine(e)
    ensures LoadFrom(Chunks(Render(e)), acc, aton) ==
            if e.Content? then Resume(Parse(Seen(e, ""), |acc|, aton), [], acc, aton) else Rules(acc)
  {
    hide Edit, CString, Chunks, Token, ParseTag;
    TextEnds(acc, aton);
    NoChunks(acc, aton);
    if Render(e) != "" {
      LastChunk(Render(e));
      EntryTrims(e, "");
      assert Render(e) + "" == Render(e);
      var chunks := Chunks(Render(e));
      NothingToRead();
      assert chunks[0] == Render(e) && chunks[1..] == Chunks("");
    }
  }

  /** Loading goes on from what the finished lines left. */
  function Continue(p: Parsed, chunks: seq<string>, aton: string -> Option<Addr>): Parsed {
    match p
    case Failed(code) => p
    case Rules(rs) => LoadFrom(chunks, rs, aton)
  }

  lemma {:induction false} LoadSplits(es: seq<Entry>, rest: string, acc: seq<Rule>, aton: string -> Option<Addr>)
    requires forall i :: 0 <= i < |es| ==> OneLine(es[i])
    ensures LoadFrom(Chunks(Text(es) + rest), acc, aton)
         == Continue(LoadFrom(Chunks(Text(es)), acc, aton), Chunks(rest), aton)
    decreases |es|
  {
    hide Parse, Chunks, LoadFrom, Render, Seen;
    if es == [] {
      TextEnds(acc, aton);
      assert Text(es) + rest == rest;
    } else {
      var e, later := es[0], es[1..];
      assert Text(es) + rest == Render(e) + "\n" + (Text(later) + rest);
      LoadFirst(e, Text(later) + rest, acc, aton);
      LoadFirst(e, Text(later), acc, aton);
      LoadSplits(later, rest, acc, aton);
      if e.Content? {
        var line := Parse(Seen(e, "\n"), |acc|, aton);
        if line.Good? {
          LoadSplits(later, rest, acc + [line.rule], aton);
        }
      }
    }
  }

  lemma {:induction false} TextSnoc(es: seq<Entry>, e: Entry)
    ensures Text(es + [e]) == Text(es) + (Render(e) + "\n")
  {
    hide Render;
    if es == [] {
      assert es + [e] == [e] && [e][1..] == [];
      assert Text([e]) == Render(e) + "\n" + Text([]);
    } else {
      assert (es + [e])[0] == es[0] && (es + [e])[1..] == es[1..] + [e];
      TextSnoc(es[1..], e);
    }
  }

  /** The last line is a rule only because its newline is missing. */
  predicate LoadsUnfinished(es: seq<Entry>, e: Entry, aton: string -> Option<Addr>) {
    var before := LoadText(Text(es), aton);
    && !Short(e) && before.Rules?
    && Parse(e.rule + e.tail, |before.rs|, aton).Good?
  }

  /**
   The missing newline of the last line, if trimming that line stays inside the buffer:
   it never matters when the content has at most 36 characters, and it decides which
   rules are loaded exactly when a longer last line is a rule by itself.
   */
  lemma FinalNewline(es: seq<Entry>, e: Entry, aton: string -> Option<Addr>)
    requires OneLine(e) && ChunkSafe(Render(e)) && forall i :: 0 <= i < |es| ==> OneLine(es[i])
    ensures Short(e) ==> LoadText(Text(es) + Render(e), aton) == LoadText(Text(es + [e]), aton)
    ensures (forall rs :: LoadText(Text(es) + Render(e), aton) == Rules(rs) <==> LoadText(Text(es + [e]), aton) == Rules(rs))
            <==> !LoadsUnfinished(es, e, aton)
  {
    hide Parse, Chunks, LoadFrom, Render, Text, Resume, Seen;
    TextSnoc(es, e);
    LoadSplits(es, Render(e), [], aton);
    LoadSplits(es, Render(e) + "\n", [], aton);
    var before := LoadText(Text(es), aton);
    if before.Rules? {
      LastLine(e, before.rs, aton);
    }
  }

  /** The last line after the rules `acc`, without its newline and with it. */
  lemma LastLine(e: Entry, acc: seq<Rule>, aton: string -> Option<Addr>)
    requires OneLine(e)
    ensures var a, b := LoadFrom(Chunks(Render(e)), acc, aton), LoadFrom(Chunks(Render(e) + "\n"), acc, aton);
            && (Short(e) ==> a == b)
            && (!Short(e) ==> b.Failed? && (a.Rules? <==> Parse(e.rule + e.tail, |acc|, aton).Good?))
  {
    hide Parse, Chunks, LoadFrom, Render;
    LoadLast(e, acc, aton);
    LoadFirst(e, "", acc, aton);
    assert Render(e) + "\n" + "" == Render(e) + "\n";
    NoChunks(acc, aton);
    if !Short(e) {
      LongNeverLoads(e, |acc|, aton);
      assert e.rule + e.tail + "" == e.rule + e.tail;
      var line := Parse(e.rule + e.tail, |acc|, aton);
      if line.Good? {
        NoChunks(acc + [line.rule], aton);
      } else if line.Skip? {
        SkipStarts(e.rule + e.tail, |acc|, aton);
      }
    }
  }

  lemma SkipStarts(s: string, count: nat, aton: string -> Option<Addr>)
    requires Parse(s, count, aton).Skip?
    ensures s == "" || IsStop(s[0])
  {
    hide Token, TagValue, Count;
  }

  lemma NoChunks(acc: seq<Rule>, aton: string -> Option<Addr>)
    ensures Chunks("") == []
    ensures LoadFrom([], acc, aton) == Rules(acc)
  {
  }

  /** `es` lays out exactly the printed rules `rs`, each in the long or the short form. */
  ghost predicate LaysOut(es: seq<Entry>, rs: seq<Rule>)
    decreases |es|
  {
    if es == [] then rs == []
    else if es[0].Content? then
      && rs != []
      && (es[0].rule == PrintedAs(rs[0], true) || es[0].rule == PrintedAs(rs[0], false))
      && LaysOut(es[1..], rs[1..])
    else LaysOut(es[1..], rs)
  }

  ghost function PrintedAs(r: Rule, short: bool): string {
    if r.tag >= 0 then PrintRule(r, short) else ""
  }

  lemma TextEnds(acc: seq<Rule>, aton: string -> Option<Addr>)
    ensures LoadFrom(Chunks(""), acc, aton) == Rules(acc)
  {
  }

  lemma {:induction false} RoundTripFrom(es: seq<Entry>, rs: seq<Rule>, acc: seq<Rule>, aton: string -> Option<Addr>)
    requires forall i :: 0 <= i < |es| ==> Proper(es[i])
    requires LaysOut(es, rs) && ReadsQuads(aton)
    requires forall i :: 0 <= i < |rs| ==> Printable(rs[i])
    requires |acc| + |rs| <= 128
    ensures LoadFrom(Chunks(Text(es)), acc, aton) == Rules(acc + rs)
    decreases |es|
  {
    hide Parse, PrintRule, LoadFrom, Chunks, OneLine, ReadsQuads, Render;
    if es == [] {
      TextEnds(acc, aton);
      assert acc + rs == acc;
    } else {
      LoadFirst(es[0], Text(es[1..]), acc, aton);
      if es[0].Content? {
        PrintedParses(rs[0], true, |acc|, aton);
        PrintedParses(rs[0], false, |acc|, aton);
        RoundTripFrom(es[1..], rs[1..], acc + [rs[0]], aton);
        assert acc + [rs[0]] + rs[1..] == acc + rs;
      } else {
        RoundTripFrom(es[1..], rs, acc, aton);
      }
    }
  }

  /**
   Round trip: every valid rule set of at most 128 rules, printed in either form and
   laid out in any way, loads back with its count as the result code.
   */
  lemma PrintedRulesLoadBack(es: seq<Entry>, rs: seq<Rule>, aton: string -> Option<Addr>)
    requires forall i :: 0 <= i < |es| ==> Proper(es[i])
    requires ValidRules(rs) && |rs| <= 128
    requires LaysOut(es, rs) && ReadsQuads(aton)
    ensures LoadText(Text(es), aton) == Rules(rs)
    ensures LoadCode(File(Text(es), false, false), aton) == |rs|
    ensures StaysInside(Chunks(Text(es)), [], aton)
  {
    hide Chunks, Text, ChunkSafe, LoadFrom, StaysInside, LaysOut, OneLine, Short, ReadsQuads, Verdict;
    RoundTripFrom(es, rs, [], aton);
    LayoutIsSafe(es);
    SafeChunksStayInside(Chunks(Text(es)), [], aton);
    assert [] + rs == rs;
    ValidMeansZero(rs);
  }

  lemma ValidMeansZero(rs: seq<Rule>)
    requires ValidRules(rs)
    ensures Verdict(rs) == 0
  {
  }

  /** Such a layout exists for every rule set: one undecorated line for each rule. */
  lemma {:induction false} EveryRuleSetPrints(rs: seq<Rule>, short: bool) returns (es: seq<Entry>)
    requires forall i :: 0 <= i < |rs| ==> Printable(rs[i])
    ensures LaysOut(es, rs) && forall i :: 0 <= i < |es| ==> Proper(es[i])
  {
    hide PrintRule, ParseDotted;
    if rs == [] {
      es := [];
    } else {
      PrintedShape(rs[0], short);
      var rest := EveryRuleSetPrints(rs[1..], short);
      var e := Content("", PrintRule(rs[0], short), "");
      assert Render(e) == PrintRule(rs[0], short);
      es := [e] + rest;
    }
  }

  /** The scan limit is tight: the longest printed rule has 36 characters. */
  lemma LongestRule()
    ensures |PrintRule(Rule(0xFFFF_FFFF, 0xFFFF_FFFF, 4095), false)| == 36
  {
    hide Print, Quad;
    assert Dotted(0xFFFF_FFFF) == Quad(255, 255, 255, 255);
    LongestParts();
  }

  lemma LongestParts()
    ensures |Quad(255, 255, 255, 255)| == 15 && |Print(4095)| == 4
  {
    assert Print(25) == Print(2) + [DigitChar(5)];
    assert Print(255) == Print(25) + [DigitChar(5)];
    assert Print(40) == Print(4) + [DigitChar(0)];
    assert Print(409) == Print(40) + [DigitChar(9)];
    assert Print(4095) == Print(409) + [DigitChar(5)];
  }

  // ---------------------------------------------------------------- where the promise ends

  /** Unterminated content behind `n` indentation characters is trimmed inside the buffer exactly for `n` up to 63. */
  lemma UnfinishedLineIsSafe(ws: string, s: string)
    requires Indent(ws) && Plain(s) && s != ""
    ensures ChunkSafe(ws + s) <==> |ws| <= 63
  {
    hide StartOf;
    var c := ws + s;
    forall i | 0 <= i < |c|
      ensures c[i] != '\0'
    {
    }
    CStringKeeps(c);
    DedentSkips(ws, s);
    StartIs(c, |ws|);
    forall i | |ws| <= i < |c|
      ensures !IsStop(c[i])
    {
      assert c[i] == s[i - |ws|];
    }
  }

  lemma StartIs(c: string, n: nat)
    requires n < |c| && Dedent(c) == c[n..]
    ensures StartOf(c) == n
  {
  }

  /** A rule behind 64 spaces at the end of the file: the scan leaves the buffer. */
  lemma DeepIndentLeavesTheBuffer(aton: string -> Option<Addr>)
    ensures var line := seq(64, _ => ' ') + "1.2.3.4-5";
            && |line| <= 98 && HasNo(line, '\n')
            && !EditorStaysInside(Padded(line)) && !StaysInside(Chunks(line), [], aton)
  {
    var ws, s := seq(64, _ => ' '), "1.2.3.4-5";
    UnfinishedLineIsSafe(ws, s);
    ChunkSafeMeans(ws + s);
    LastChunk(ws + s);
    assert Chunks(ws + s)[0] == ws + s;
  }

  /** A content of 37 characters, one more than the longest printed rule. */
  const LEADING_ZERO: string := ALL_ONES + "-" + (ALL_ONES + "-" + "04095")

  const ALL_ONES: string := "255.255.255.255"

  lemma AllOnes()
    ensures QuadChars(ALL_ONES) && Dotted(0xFFFF_FFFF) == ALL_ONES
  {
    hide Print, QuadChars;
    QuadShape(255, 255, 255, 255);
    PrintedBytes();
    assert Quad(255, 255, 255, 255) == ALL_ONES;
    assert Dotted(0xFFFF_FFFF) == Quad(255, 255, 255, 255) by {
      hide Quad;
    }
  }

  lemma LeadingZeroTag()
    ensures TagValue("04095") == Some(4095)
  {
    assert Value("0") == 0;
    assert "04"[..1] == "0" && "040"[..2] == "04" && "0409"[..3] == "040" && "04095"[..4] == "0409";
    assert Value("04") == 4 && Value("040") == 40 && Value("0409") == 409 && Value("04095") == 4095;
  }

  lemma LeadingZeroShape()
    ensures Plain(LEADING_ZERO) && |LEADING_ZERO| == 37 && Count(LEADING_ZERO, '-') == 2
  {
    hide Count, Dotted;
    AllOnes();
    PlainJoin(ALL_ONES, "04095");
    PlainJoin(ALL_ONES, ALL_ONES + "-" + "04095");
    DashesOf(ALL_ONES, ALL_ONES + "-" + "04095");
    DashesOf(ALL_ONES, "04095");
    CountNone("04095", '-');
  }

  lemma PlainJoin(s: string, t: string)
    requires QuadChars(s) && Plain(t)
    ensures Plain(s + "-" + t)
  {
  }

  /**
   That content is a rule without its newline, has an invalid tag with it, and the
   wrong number of dashes when a comment with a dash follows.
   */
  lemma OneCharacterTooMany(aton: string -> Option<Addr>)
    requires ReadsQuads(aton)
    ensures LoadText(LEADING_ZERO, aton) == Rules([Rule(0xFFFF_FFFF, 0xFFFF_FFFF, 4095)])
    ensures LoadText(LEADING_ZERO + "\n", aton) == Failed(-9)
    ensures LoadText(LEADING_ZERO + " #-" + "\n", aton) == Failed(-5)
  {
    hide Parse, Chunks, LoadFrom, Count, TagValue, Dotted, Plain;
    AllOnes();
    LeadingZeroTag();
    LeadingZeroShape();
    NewlineIsNoTag("04095\n");
    ParsesLong(ALL_ONES, ALL_ONES, "04095", 0xFFFF_FFFF, 0xFFFF_FFFF, 0, aton);
    ParsesLong(ALL_ONES, ALL_ONES, "04095\n", 0xFFFF_FFFF, 0xFFFF_FFFF, 0, aton);
    var s := LEADING_ZERO;
    assert ALL_ONES + "-" + (ALL_ONES + "-" + "04095\n") == s + "\n";
    LoadsAlone(Content("", s, ""), aton);
    LoadsAlone(Content("", s, " #-"), aton);
    DashesDecide(s, " #-", 0, aton);
    CountComment();
    assert "" + s + "" == s && s + "" + "" == s && s + "" + "\n" == s + "\n";
    assert "" + s + " #-" == s + " #-" && s + " #-" + "\n" == s + (" #-" + "\n");
  }

  lemma CountComment()
    ensures Count(" #-", '-') == 1
  {
    assert " #-"[1..] == "#-" && "#-"[1..] == "-" && "-"[1..] == "";
  }

  /** A file of one long content line, without its newline and with it. */
  lemma LoadsAlone(e: Entry, aton: string -> Option<Addr>)
    requires OneLine(e) && !Short(e)
    ensures LoadText(Render(e), aton) == Resume(Parse(e.rule + e.tail + "", 0, aton), [], [], aton)
    ensures LoadText(Render(e) + "\n", aton) == Resume(Parse(e.rule + e.tail + "\n", 0, aton), [], [], aton)
    ensures forall line: Line :: Resume(line, [], [], aton)
              == match line case Skip => Rules([]) case Fail(code) => Failed(code) case Good(r) => Rules([r])
  {
    hide Parse, Chunks, LoadFrom, Render;
    LoadLast(e, [], aton);
    LoadFirst(e, "", [], aton);
    assert Render(e) + "\n" + "" == Render(e) + "\n";
    NoChunks([], aton);
    forall line: Line | line.Good?
      ensures Resume(line, [], [], aton) == Rules([line.rule])
    {
      NoChunks([line.rule], aton);
      assert [] + [line.rule] == [line.rule];
    }
  }

  /** A comment line of `n` characters, without its newline. */
  ghost predicate IsComment(c: string, n: nat) {
    |c| == n && HasNo(c, '\n') && exists k: nat :: StartsComment(c, k)
  }

  /** `c` is `k` spaces and tabs, then a comment sign. */
  predicate StartsComment(c: string, k: nat) {
    k < |c| && Indent(c[..k]) && c[k] == '#'
  }

  /** A chunk that begins like a comment is skipped, whatever follows the sign. */
  lemma {:induction false} CommentSkips(c: string, k: nat)
    requires StartsComment(c, k)
    ensures Edit(CString(c)) != "" && Edit(CString(c))[0] == '#'
    decreases k
  {
    if k == 0 {
      assert c[0] == '#';
    } else {
      assert IsIndent(c[..k][0]);
      assert c[1..][..k - 1] == c[..k][1..];
      CommentSkips(c[1..], k - 1);
    }
  }

  /**
   The first 99 characters of a longer line, when they begin like a comment, are dropped
   by themselves: the rest of the line is loaded as if it stood at the start of one.
   */
  lemma CommentHeadIsDropped(head: string, tail: string, acc: seq<Rule>, aton: string -> Option<Addr>)
    requires IsComment(head, 99)
    ensures LoadFrom(Chunks(head + tail), acc, aton) == LoadFrom(Chunks(tail), acc, aton)
  {
    hide Chunks, Edit, CString, LoadFrom;
    var k: nat :| StartsComment(head, k);
    TakeFull(head, tail);
    CommentSkips(head, k);
    SkipFirst(head, Chunks(tail), acc, aton);
  }

  /** The newline that is left of a comment of 99 characters is a blank line. */
  lemma NewlineIsSkipped(rest: string, acc: seq<Rule>, aton: string -> Option<Addr>)
    ensures LoadFrom(Chunks("\n" + rest), acc, aton) == LoadFrom(Chunks(rest), acc, aton)
  {
    var e := Blank("");
    assert Render(e) + "\n" + rest == "\n" + rest;
    LoadFirst(e, rest, acc, aton);
  }

  /** A comment of at most 99 characters changes nothing. */
  lemma ShortCommentIsSkipped(c: string, rest: string, acc: seq<Rule>, aton: string -> Option<Addr>)
    requires IsComment(c, |c|) && |c| <= 99
    ensures LoadFrom(Chunks(c + "\n" + rest), acc, aton) == LoadFrom(Chunks(rest), acc, aton)
  {
    hide Chunks, Edit, CString, LoadFrom;
    if |c| == 99 {
      assert c + "\n" + rest == c + ("\n" + rest);
      CommentHeadIsDropped(c, "\n" + rest, acc, aton);
      NewlineIsSkipped(rest, acc, aton);
    } else {
      var k: nat :| StartsComment(c, k);
      ChunkOfLine(c, rest);
      assert (c + "\n")[..k] == c[..k];
      CommentSkips(c + "\n", k);
      SkipFirst(c + "\n", Chunks(rest), acc, aton);
    }
  }

  /** Nothing but the letter `x`. */
  function Letters(n: nat): (s: string)
    ensures |s| == n && forall i :: 0 <= i < n ==> s[i] == 'x'
  {
    seq(n, _ => 'x')
  }

  /** A line of letters without a dash is refused, in one chunk or in several. */
  lemma LettersAreRefused(n: nat, aton: string -> Option<Addr>)
    requires n > 0
    ensures LoadFrom(Chunks(Letters(n) + "\n"), [], aton) == Failed(-5)
  {
    hide Chunks, Take;
    var m := if n < 99 then n else 99;
    var t := Letters(n) + "\n";
    var first := if n < 99 then t else Letters(m);
    if n < 99 {
      ChunkOfLine(Letters(n), "");
      assert t + "" == t;
    } else {
      assert t == Letters(m) + t[m..];
      TakeFull(Letters(m), t[m..]);
    }
    assert Chunks(t)[0] == first;
    var end := if n < 99 then "\n" else "";
    assert first == "" + Letters(m) + end;
    CStringKeeps(first);
    EditContent("", Letters(m), end);
    LettersHaveNoDash(m, end);
  }

  lemma LettersHaveNoDash(m: nat, end: string)
    requires m > 0 && HasNo(end, '-')
    ensures forall count, aton :: Parse(Letters(m), count, aton) == Fail(-5) == Parse(Letters(m) + end, count, aton)
  {
    CountNone(Letters(m), '-');
    CountNone(Letters(m) + end, '-');
  }

  /**
   The exact length up to which a comment is one comment: comment lines of `n` characters
   never change anything, whatever precedes and follows them, if and only if `n` is at
   most 99.
   */
  lemma CommentsAreHarmless(n: nat, aton: string -> Option<Addr>)
    ensures (forall c, rest, acc :: IsComment(c, n) ==>
               LoadFrom(Chunks(c + "\n" + rest), acc, aton) == LoadFrom(Chunks(rest), acc, aton))
            <==> n <= 99
  {
    hide LoadFrom, Chunks, Letters;
    if n <= 99 {
      forall c, rest, acc | IsComment(c, n)
        ensures LoadFrom(Chunks(c + "\n" + rest), acc, aton) == LoadFrom(Chunks(rest), acc, aton)
      {
        ShortCommentIsSkipped(c, rest, acc, aton);
      }
    } else {
      var head := "#" + Letters(98);
      var c := head + Letters(n - (99));
      assert StartsComment(head, 0) && StartsComment(c, 0);
      assert c + "\n" + "" == head + (Letters(n - (99)) + "\n");
      CommentHeadIsDropped(head, Letters(n - (99)) + "\n", [], aton);
      LettersAreRefused(n - (99), aton);
      TextEnds([], aton);
      assert IsComment(c, n);
    }
  }

  /** For example a rule behind 99 comment characters is loaded. */
  lemma LongCommentLeaks(text: string, r: Rule, aton: string -> Option<Addr>)
    requires |text| == 98 && HasNo(text, '\n')
    requires Printable(r) && ReadsQuads(aton)
    ensures LoadText("#" + text + PrintRule(r, false) + "\n", aton) == Rules([r])
  {
    hide PrintRule, Chunks, LoadFrom;
    var s := PrintRule(r, false);
    var head := "#" + text;
    assert StartsComment(head, 0);
    assert head + s + "\n" == head + (s + "\n");
    CommentHeadIsDropped(head, s + "\n", [], aton);
    OneRuleLoads(r, aton);
  }

  lemma OneRuleLoads(r: Rule, aton: string -> Option<Addr>)
    requires Printable(r) && ReadsQuads(aton)
    ensures LoadFrom(Chunks(PrintRule(r, false) + "\n"), [], aton) == Rules([r])
  {
    hide Parse, PrintRule, Chunks, LoadFrom, OneLine;
    var s := PrintRule(r, false);
    var e := Content("", s, "");
    RuleIsOneLine(r);
    assert Render(e) + "\n" + "" == s + "\n";
    LoadFirst(e, "", [], aton);
    PrintedParses(r, false, 0, aton);
    assert [] + [r] == [r];
    TextEnds([r], aton);
  }

  lemma RuleIsOneLine(r: Rule)
    requires Printable(r)
    ensures var e := Content("", PrintRule(r, false), ""); OneLine(e) && Short(e)
  {
    hide PrintRule;
    PrintedShape(r, false);
    assert Render(Content("", PrintRule(r, false), "")) == PrintRule(r, false);
  }

  lemma SkipFirst(line: string, chunks: seq<string>, acc: seq<Rule>, aton: string -> Option<Addr>)
    requires var s := Edit(CString(line)); s == "" || s[0] == '#'
    ensures LoadFrom([line] + chunks, acc, aton) == LoadFrom(chunks, acc, aton)
  {
    assert ([line] + chunks)[1..] == chunks;
  }

  lemma TakeFull(head: string, rest: string)
    requires |head| == 99 && HasNo(head, '\n')
    ensures Chunks(head + rest) == [head] + Chunks(rest)
  {
    TakeAll(head, rest, 99);
    var t := head + rest;
    assert t[..|head|] == head && t[|head|..] == rest;
  }

  lemma {:induction false} TakeAll(s: string, rest: string, room: nat)
    requires |s| == room && HasNo(s, '\n')
    ensures Take(s + rest, room) == room
  {
    if s == "" {
    } else {
      TakeAll(s[1..], rest, room - 1);
      assert (s + rest)[1..] == s[1..] + rest;
    }
  }
}
