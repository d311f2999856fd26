/**
 config_parser/config_parser.c: how a rule file is cut into chunks by `fgets`, how
 a line is trimmed and split, and what the loader makes of it.

 `inet_aton` is a parameter: any function that reads the usual dotted quads will do. NUL
 characters in the file end the line they are in.
 */
module ConfigText {
  import opened Bytes
  import opened Decimal
  import opened RuleTable

  const MAX_LINE_LENGTH: nat := 100
  const MAX_RULE_CONTENT_LENGTH: nat := 37
  const INT_MAX: int := 0x7FFF_FFFF

  // ---------------------------------------------------------------- fgets

  /** How many characters `fgets` takes from `t` when there is room for `room`. */
  function Take(t: string, room: nat): (n: nat)
    ensures n <= |t| && n <= room
    ensures t != "" && room > 0 ==> n > 0
  {
    if t == "" || room == 0 then 0
    else if t[0] == '\n' then 1
    else 1 + Take(t[1..], room - 1)
  }

  /** The pieces that successive reads into a buffer of 100 characters return. */
  function Chunks(t: string): seq<string>
    decreases |t|
  {
    if t == "" then []
    else
      var n := Take(t, MAX_LINE_LENGTH - 1);
      [t[..n]] + Chunks(t[n..])
  }

  /** The lines of `t`, each with its newline. */
  function Lines(t: string): seq<string>
    decreases |t|
  {
    if t == "" then []
    else
      var n := Take(t, |t|);
      [t[..n]] + Lines(t[n..])
  }

  lemma {:induction false} TakeWithLessRoom(t: string, room: nat)
    requires room <= |t|
    ensures Take(t, room) == if Take(t, |t|) <= room then Take(t, |t|) else room
  {
    if t != "" && room > 0 && t[0] != '\n' {
      TakeWithLessRoom(t[1..], room - 1);
    }
  }

  /** Reading in chunks is splitting into lines exactly when no line, newline included, exceeds 99 characters. */
  lemma {:induction false} ChunksAreLines(t: string)
    ensures Chunks(t) == Lines(t) <==> forall i :: 0 <= i < |Lines(t)| ==> |Lines(t)[i]| <= 99
    decreases |t|
  {
    hide Take;
    if t == "" {
    } else {
      var n, m := Take(t, MAX_LINE_LENGTH - 1), Take(t, |t|);
      if MAX_LINE_LENGTH - 1 <= |t| {
        TakeWithLessRoom(t, MAX_LINE_LENGTH - 1);
      } else {
        TakeWithMoreRoom(t, MAX_LINE_LENGTH - 1);
      }
      var ls := Lines(t[m..]);
      ChunksAreLines(t[m..]);
      assert Lines(t)[0] == t[..m] && Lines(t)[1..] == ls;
      assert forall i :: 0 <= i < |ls| ==> Lines(t)[i + 1] == ls[i];
      assert Chunks(t)[0] == t[..n];
      if n == m {
        assert Chunks(t)[1..] == Chunks(t[m..]);
      } else {
        assert |Chunks(t)[0]| != |Lines(t)[0]|;
      }
    }
  }

  lemma {:induction false} TakeWithMoreRoom(t: string, room: nat)
    requires |t| <= room
    ensures Take(t, room) == Take(t, |t|)
  {
    if t != "" && t[0] != '\n' {
      TakeWithMoreRoom(t[1..], room - 1);
    }
  }

  predicate HasNo(s: string, c: char) {
    forall i :: 0 <= i < |s| ==> s[i] != c
  }

  /** A line of at most 98 characters is one chunk. */
  lemma {:induction false} ChunkOfLine(s: string, rest: string)
    requires HasNo(s, '\n') && |s| <= 98
    ensures Chunks(s + "\n" + rest) == [s + "\n"] + Chunks(rest)
  {
    var t := s + "\n" + rest;
    TakeLine(s, rest, MAX_LINE_LENGTH - 1);
    assert t[..|s| + 1] == s + "\n" && t[|s| + 1..] == rest;
  }

  lemma {:induction false} TakeLine(s: string, rest: string, room: nat)
    requires HasNo(s, '\n') && |s| < room
    ensures Take(s + "\n" + rest, room) == |s| + 1
  {
    if s == "" {
    } else {
      TakeLine(s[1..], rest, room - 1);
      assert (s + "\n" + rest)[1..] == s[1..] + "\n" + rest;
    }
  }

  // ---------------------------------------------------------------- strings and trimming

  /** The characters before the first NUL. */
  function CString(s: string): (r: string)
    ensures HasNo(r, '\0') && |r| <= |s|
  {
    if s == "" || s[0] == '\0' then "" else [s[0]] + CString(s[1..])
  }

  predicate IsIndent(c: char) {
    c == ' ' || c == '\t'
  }

  predicate IsStop(c: char) {
    c == ' ' || c == '\t' || c == '#' || c == '\n'
  }

  /** The rest of `s` after its leading spaces and tabs. */
  function Dedent(s: string): string {
    if s != "" && IsIndent(s[0]) then Dedent(s[1..]) else s
  }

  /** `s` up to the first stop character, if there is one among the first `room` characters. */
  function Cut(s: string, room: nat): (r: string)
    ensures r <= s
  {
    if s == "" || room == 0 then s
    else if IsStop(s[0]) then ""
    else [s[0]] + Cut(s[1..], room - 1)
  }

  /** `line_editor`; a line of nothing but indentation is not moved forward. */
  function Edit(s: string): string {
    var body := if Dedent(s) == "" then s else Dedent(s);
    if body != "" && body[0] == '#' then body else Cut(body, MAX_RULE_CONTENT_LENGTH)
  }

  // ---------------------------------------------------------------- the bytes that trimming touches

  /** Where `line_editor` takes the content of `s` to begin. */
  function StartOf(s: string): (n: nat)
    ensures n <= |s| && s[n..] == if Dedent(s) == "" then s else Dedent(s)
    ensures n == |s| ==> s == ""
  {
    DedentIsSuffix(s);
    if Dedent(s) == "" then 0 else |s| - |Dedent(s)|
  }

  lemma {:induction false} DedentIsSuffix(s: string)
    ensures |Dedent(s)| <= |s| && s[|s| - |Dedent(s)|..] == Dedent(s)
  {
    if s != "" && IsIndent(s[0]) {
      DedentIsSuffix(s[1..]);
    }
  }

  /**
   The loop that cuts a line, as C runs it on the buffer `t` from place `j` on: it looks
   at 37 characters unless it meets a stop character, whatever else it meets. `None`
   means that it looks past the end of the buffer.
   */
  function Scan(t: string, j: nat): Option<string>
    decreases MAX_RULE_CONTENT_LENGTH - j
  {
    if j >= MAX_RULE_CONTENT_LENGTH then Some(t)
    else if j >= |t| then None
    else if IsStop(t[j]) then Some(t[j := '\0'])
    else Scan(t, j + 1)
  }

  lemma {:induction false} ScanFrom(t: string, j: nat)
    requires j <= |t| && j <= MAX_RULE_CONTENT_LENGTH
    requires forall i :: 0 <= i < j ==> !IsStop(t[i])
    ensures Scan(t, j).Some? <==> |t| >= MAX_RULE_CONTENT_LENGTH || exists i :: 0 <= i < |t| && IsStop(t[i])
    decreases MAX_RULE_CONTENT_LENGTH - j
  {
    if j < MAX_RULE_CONTENT_LENGTH && j < |t| && !IsStop(t[j]) {
      ScanFrom(t, j + 1);
    }
  }

  /** `line_editor` on a buffer of 100 characters stays inside it. */
  predicate EditorStaysInside(b: string)
    requires |b| == 100
  {
    var start := StartOf(CString(b));
    b[start..] != [] && (b[start] == '#' || Scan(b[start..], 0).Some?)
  }

  /** It does so exactly for a comment, an early start, or a stop character behind the start. */
  lemma EditorIsSafe(b: string)
    requires |b| == 100 && '\0' in b
    ensures var start := StartOf(CString(b));
            && start < 100
            && (EditorStaysInside(b) <==>
                  || b[start] == '#'
                  || start <= 63
                  || exists i :: start <= i < 100 && (b[i] == ' ' || b[i] == '\t' || b[i] == '#' || b[i] == '\n'))
  {
    hide StartOf, CString, Scan;
    var start := StartOf(CString(b));
    CStringStops(b);
    ScanFrom(b[start..], 0);
    if i :| start <= i < |b| && IsStop(b[i]) {
      assert IsStop(b[start..][i - start]);
    }
  }

  lemma {:induction false} CStringStops(s: string)
    requires '\0' in s
    ensures |CString(s)| < |s|
  {
    if s[0] != '\0' {
      assert '\0' in s[1..];
      CStringStops(s[1..]);
    }
  }

  /** The buffer that holds the chunk `c` after `fgets`. */
  function Padded(c: string): (b: string)
    requires |c| < MAX_LINE_LENGTH
    ensures |b| == MAX_LINE_LENGTH && '\0' in b && b[..|c|] == c
  {
    var b := c + seq(MAX_LINE_LENGTH - |c|, _ => '\0');
    assert b[|c|] == '\0';
    b
  }

  /** Trimming the chunk `c` stays inside the buffer. */
  predicate ChunkSafe(c: string) {
    var start := StartOf(CString(c));
    start + MAX_RULE_CONTENT_LENGTH <= MAX_LINE_LENGTH || exists i :: start <= i < |c| && IsStop(c[i])
  }

  lemma ChunkSafeMeans(c: string)
    requires |c| < MAX_LINE_LENGTH
    ensures CString(Padded(c)) == CString(c)
    ensures EditorStaysInside(Padded(c)) <==> ChunkSafe(c)
  {
    hide Scan, CString, Dedent, EditorStaysInside;
    var b := Padded(c);
    PaddingEnds(c, b[|c|..]);
    assert b == c + b[|c|..];
    EditorIsSafe(b);
    var start := StartOf(CString(c));
    assert forall i :: start <= i < |c| ==> b[i] == c[i];
    assert forall i :: |c| <= i < |b| ==> !IsStop(b[i]);
    if b[start] == '#' {
      NoSignInPadding(c, start);
    }
  }

  /** A comment sign at the start is in the chunk, and stops the scan. */
  lemma NoSignInPadding(c: string, start: nat)
    requires |c| < MAX_LINE_LENGTH && start < MAX_LINE_LENGTH && Padded(c)[start] == '#'
    ensures start < |c| && IsStop(c[start])
  {
  }

  lemma {:induction false} PaddingEnds(s: string, pad: string)
    requires pad != "" && pad[0] == '\0'
    ensures CString(s + pad) == CString(s)
  {
    if s == "" {
      assert s + pad == pad;
    } else if s[0] != '\0' {
      PaddingEnds(s[1..], pad);
      assert (s + pad)[1..] == s[1..] + pad;
    }
  }

  /** A line with its newline is always safe. */
  lemma FinishedLineIsSafe(c: string)
    requires c != "" && c[|c| - 1] == '\n'
    ensures ChunkSafe(c)
  {
    assert StartOf(CString(c)) <= |c| - 1 && IsStop(c[|c| - 1]);
  }

  lemma {:induction false} TakeEnds(t: string)
    requires '\n' in t
    ensures Take(t, |t|) > 0 && t[Take(t, |t|) - 1] == '\n'
  {
    if t[0] != '\n' {
      assert '\n' in t[1..];
      TakeEnds(t[1..]);
    }
  }

  lemma {:induction false} FinishedLines(t: string)
    requires t != "" ==> t[|t| - 1] == '\n'
    ensures forall c :: c in Lines(t) ==> c != "" && c[|c| - 1] == '\n'
    decreases |t|
  {
    if t == "" {
    } else {
      TakeEnds(t);
      var rest := t[Take(t, |t|)..];
      FinishedLines(rest);
    }
  }

  /** A file whose lines have at most 98 characters and all end in a newline never leaves the buffer. */
  lemma FinishedFileIsSafe(t: string)
    requires t != "" ==> t[|t| - 1] == '\n'
    requires forall i :: 0 <= i < |Lines(t)| ==> |Lines(t)[i]| <= 99
    ensures forall c :: c in Chunks(t) ==> ChunkSafe(c)
  {
    ChunksAreLines(t);
    FinishedLines(t);
    forall c | c in Chunks(t)
      ensures ChunkSafe(c)
    {
      FinishedLineIsSafe(c);
    }
  }

  // ---------------------------------------------------------------- numbers and addresses

  predicate IsSpace(c: char) {
    c == ' ' || 9 <= c as int <= 13
  }

  function SkipSpace(s: string): string {
    if s != "" && IsSpace(s[0]) then SkipSpace(s[1..]) else s
  }

  predicate AllDigits(s: string) {
    forall i :: 0 <= i < |s| ==> IsDigit(s[i])
  }

  /** `tag_converting`: an optional sign and digits, all of the token, within an `int`. */
  function TagValue(s: string): Option<int> {
    var t := SkipSpace(s);
    var minus := t != "" && t[0] == '-';
    var d := if minus || (t != "" && t[0] == '+') then t[1..] else t;
    if d == "" || !AllDigits(d) then None
    else
      var v := if minus then -(Value(d) as int) else Value(d);
      if -INT_MAX - 1 <= v <= INT_MAX then Some(v) else None
  }

  /** Four numbers below 256 as a dotted quad. */
  function Quad(b3: nat, b2: nat, b1: nat, b0: nat): string {
    Print(b3) + "." + (Print(b2) + "." + (Print(b1) + "." + Print(b0)))
  }

  /** The usual text of an address. */
  function Dotted(a: Addr): string {
    Quad(a / 0x100_0000, a / 0x1_0000 % 256, a / 256 % 256, a % 256)
  }

  /** The characters of `s` before the first `c`. */
  function Before(s: string, c: char): (r: string)
    ensures r <= s && HasNo(r, c)
  {
    if s == "" || s[0] == c then "" else [s[0]] + Before(s[1..], c)
  }

  /** One decimal field below 256; a leading zero would make it octal for `inet_aton`. */
  function Field(s: string): Option<nat> {
    if s == "" || |s| > 3 || !AllDigits(s) || (|s| > 1 && s[0] == '0') || Value(s) > 255 then None
    else Some(Value(s))
  }

  /** `n` dotted fields, folded onto `a`. */
  function ParseFields(s: string, n: nat, a: nat): Option<nat> {
    var f := Before(s, '.');
    if n == 0 || Field(f).None? then None
    else if n == 1 then if |f| == |s| then Some(a * 256 + Field(f).value) else None
    else if |f| == |s| then None
    else ParseFields(s[|f| + 1..], n - 1, a * 256 + Field(f).value)
  }

  function ParseDotted(s: string): Option<nat> {
    ParseFields(s, 4, 0)
  }

  /** `inet_aton`, by what this program relies on. */
  ghost predicate ReadsQuads(aton: string -> Option<Addr>) {
    forall a: Addr :: aton(Dotted(a)) == Some(a)
  }

  // ---------------------------------------------------------------- one line

  function Count(s: string, c: char): nat {
    if s == "" then 0 else (if s[0] == c then 1 else 0) + Count(s[1..], c)
  }

  function SkipDashes(s: string): string {
    if s != "" && s[0] == '-' then SkipDashes(s[1..]) else s
  }

  /** `strtok_r(s, "-")`: the next token, and where the search goes on. */
  function Token(s: string): Option<(string, string)> {
    var t := SkipDashes(s);
    if t == "" then None
    else
      var w := Before(t, '-');
      Some((w, if |w| < |t| then t[|w| + 1..] else ""))
  }

  datatype Line = Skip | Fail(code: int) | Good(rule: Rule)

  /** What the loader does with a trimmed line after `count` rules. */
  function Parse(s: string, count: nat, aton: string -> Option<Addr>): Line {
    if s == "" || s[0] == '#' || s[0] == '\n' then Skip
    else if !(1 <= Count(s, '-') <= 2) then Fail(-5)
    else if count >= MAX_RULES then Fail(-6)
    else if Token(s).None? then Fail(-7)
    else
      var (w, rest) := Token(s).value;
      if aton(w).None? then Fail(-8)
      else if Count(s, '-') == 1 then ParseTag(rest, aton(w).value, aton(w).value)
      else if Token(rest).None? then Fail(-7)
      else
        var (v, rest') := Token(rest).value;
        if aton(v).None? then Fail(-8) else ParseTag(rest', aton(w).value, aton(v).value)
  }

  function ParseTag(s: string, left: Addr, right: Addr): Line {
    if Token(s).None? then Fail(-7)
    else
      var tag := TagValue(Token(s).value.0);
      if tag.None? then Fail(-9) else Good(Rule(left, right, tag.value))
  }

  // ---------------------------------------------------------------- the file

  datatype Parsed = Failed(code: int) | Rules(rs: seq<Rule>)

  function LoadFrom(chunks: seq<string>, acc: seq<Rule>, aton: string -> Option<Addr>): Parsed
    decreases |chunks|, 0
  {
    if chunks == [] then Rules(acc)
    else Resume(Parse(Edit(CString(chunks[0])), |acc|, aton), chunks[1..], acc, aton)
  }

  /** How loading goes on after one line. */
  function Resume(line: Line, chunks: seq<string>, acc: seq<Rule>, aton: string -> Option<Addr>): Parsed
    decreases |chunks|, 1
  {
    match line
    case Skip => LoadFrom(chunks, acc, aton)
    case Fail(code) => Failed(code)
    case Good(rule) => LoadFrom(chunks, acc + [rule], aton)
  }

  /** The rules in a file, before validation. */
  function LoadText(t: string, aton: string -> Option<Addr>): Parsed {
    LoadFrom(Chunks(t), [], aton)
  }

  /** Every line that the loader reaches is trimmed inside its buffer. */
  ghost predicate StaysInside(chunks: seq<string>, acc: seq<Rule>, aton: string -> Option<Addr>)
    decreases |chunks|
  {
    chunks != [] ==>
      && ChunkSafe(chunks[0])
      && match Parse(Edit(CString(chunks[0])), |acc|, aton)
         case Skip => StaysInside(chunks[1..], acc, aton)
         case Fail(_) => true
         case Good(rule) => StaysInside(chunks[1..], acc + [rule], aton)
  }

  lemma {:induction false} SafeChunksStayInside(chunks: seq<string>, acc: seq<Rule>, aton: string -> Option<Addr>)
    requires forall c :: c in chunks ==> ChunkSafe(c)
    ensures StaysInside(chunks, acc, aton)
    decreases |chunks|
  {
    if chunks == [] {
    } else {
      var line := Parse(Edit(CString(chunks[0])), |acc|, aton);
      SafeChunksStayInside(chunks[1..], if line.Good? then acc + [line.rule] else acc, aton);
    }
  }

  /** The file argument: null, or a file that may be missing, fail while being read, or fail to close. */
  datatype File = NoPath | Missing | File(text: string, readFails: bool, closeFails: bool)

  /** The result code of `tag_rules_load`. */
  ghost function LoadCode(file: File, aton: string -> Option<Addr>): int {
    if file.NoPath? then -1
    else if file.Missing? then -2
    else
      match LoadText(file.text, aton)
      case Failed(code) => code
      case Rules(rs) =>
        if file.readFails then -3
        else if file.closeFails then -10
        else if Verdict(rs) != 0 then Verdict(rs)
        else |rs|
  }
}
