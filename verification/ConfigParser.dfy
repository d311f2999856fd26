/**
 The code of config_parser/config_parser.c: the in-place line editor and the loader,
 proved against the text functions of `ConfigText`.
 */
module ConfigParser {
  import opened Bytes
  import opened RuleTable
  import opened ConfigText

  // ---------------------------------------------------------------- C strings in a buffer

  /** The C string ends at the first NUL. */
  lemma {:induction false} EndsAtNul(s: string, k: nat)
    requires k < |s| && HasNo(s[..k], '\0') && s[k] == '\0'
    ensures CString(s) == s[..k]
  {
    if k == 0 {
    } else {
      assert s[..k][0] == s[0];
      assert s[1..][..k - 1] == s[..k][1..];
      EndsAtNul(s[1..], k - 1);
      assert s[..k] == [s[0]] + s[1..][..k - 1];
    }
  }

  /** A NUL-terminated buffer holds its C string and then a NUL. */
  lemma {:induction false} NulEnds(s: string)
    requires '\0' in s
    ensures |CString(s)| < |s| && s[|CString(s)|] == '\0'
    ensures s[..|CString(s)|] == CString(s)
  {
    if s[0] != '\0' {
      assert '\0' in s[1..];
      NulEnds(s[1..]);
    }
  }

  /** The C string that starts `i` characters into the first. */
  lemma Suffix(s: string, i: nat)
    requires '\0' in s && i <= |CString(s)|
    ensures CString(s[i..]) == CString(s)[i..]
  {
    NulEnds(s);
    var k := |CString(s)|;
    assert s[i..][..k - i] == CString(s)[i..];
    EndsAtNul(s[i..], k - i);
  }

  lemma StopsAtEnd(s: string, n: nat)
    requires '\0' in s && n <= |CString(s)| && n < |s| && s[n] == '\0'
    ensures n == |CString(s)|
  {
    NulEnds(s);
    EndsAtNul(s, n) by {
      forall i | 0 <= i < n
        ensures s[i] != '\0'
      {
        assert s[i] == CString(s)[i];
      }
    }
  }

  /** `strlen`. */
  method StrLen(b: array<char>) returns (n: nat)
    requires '\0' in b[..]
    ensures n == |CString(b[..])| < b.Length
  {
    NulEnds(b[..]);
    n := 0;
    while b[n] != '\0'
      invariant n <= |CString(b[..])|
      decreases b.Length - n
    {
      assert b[..][n] == b[n];
      n := n + 1;
    }
    StopsAtEnd(b[..], n);
  }

  /** `char_count`. */
  method CharCount(s: string, symbol: char) returns (count: nat)
    ensures count == Count(s, symbol)
  {
    count := 0;
    for i := 0 to |s|
      invariant count + Count(s[i..], symbol) == Count(s, symbol)
    {
      if s[i] == symbol {
        count := count + 1;
      }
    }
  }

  // ---------------------------------------------------------------- line_editor

  /** Skipping an indent character does not change the dedented rest. */
  lemma DedentStep(s: string, i: nat)
    requires i < |s| && Dedent(s) == Dedent(s[i..])
    ensures IsIndent(s[i]) ==> Dedent(s) == Dedent(s[i + 1..])
    ensures !IsIndent(s[i]) ==> Dedent(s) == s[i..]
  {
    assert s[i..][0] == s[i] && s[i..][1..] == s[i + 1..];
  }

  /** Without a stop character in front, the cut happens further on. */
  lemma {:induction false} CutFurther(s: string, j: nat, room: nat)
    requires j <= |s| && j <= room
    requires forall i :: 0 <= i < j ==> !IsStop(s[i])
    ensures Cut(s, room) == s[..j] + Cut(s[j..], room - j)
  {
    hide Cut;
    if j > 0 {
      CutFurther(s, j - 1, room);
      CutPast(s, j - 1, room - (j - 1));
      assert s[..j] == s[..j - 1] + [s[j - 1]];
    } else {
      assert s[..0] == "" && s[0..] == s;
    }
  }

  lemma CutPast(s: string, i: nat, room: nat)
    requires i < |s| && room > 0 && !IsStop(s[i])
    ensures Cut(s[i..], room) == [s[i]] + Cut(s[i + 1..], room - 1)
  {
    assert s[i..][1..] == s[i + 1..];
  }

  /**
   `line_editor`: the line is trimmed by moving its start and by one NUL written in
   place. The scan for a stop character may run past the end of the string; what it
   overwrites there does not matter, as long as it stays inside the buffer.
   */
  method LineEditor(b: array<char>) returns (start: nat)
    requires b.Length == MAX_LINE_LENGTH && '\0' in b[..]
    requires EditorStaysInside(b[..])
    modifies b
    ensures start < b.Length && '\0' in b[start..]
    ensures CString(b[start..]) == Edit(CString(old(b[..])))
  {
    hide Scan, Dedent, Cut, CString;
    ghost var s := CString(b[..]);
    start := FindStart(b);
    NulEnds(b[..]);
    Suffix(b[..], start);
    assert b[..][start..] == b[start..];
    assert '\0' in b[start..] by {
      assert b[start..][|s| - start] == '\0';
    }
    if b[start] == '#' {
      HashStarts(b[start..]);
      return;
    }
    HashStarts(b[start..]);
    CutInPlace(b, start);
  }

  lemma HashStarts(t: string)
    requires t != ""
    ensures t[0] == '#' <==> CString(t) != "" && CString(t)[0] == '#'
  {
  }

  /** The first loop: the first character that is no space or tab, or the whole line. */
  method FindStart(b: array<char>) returns (start: nat)
    requires '\0' in b[..]
    ensures start == StartOf(CString(b[..]))
  {
    ghost var s := CString(b[..]);
    NulEnds(b[..]);
    var n := StrLen(b);
    for i := 0 to n
      invariant Dedent(s) == Dedent(s[i..])
    {
      assert b[i] == b[..][..|s|][i];
      DedentStep(s, i);
      if b[i] != ' ' && b[i] != '\t' {
        assert |Dedent(s)| == |s| - i;
        return i;
      }
    }
    assert Dedent(s[n..]) == "";
    start := 0;
  }

  /** The second loop. */
  method CutInPlace(b: array<char>, start: nat)
    requires start < b.Length && '\0' in b[start..]
    requires Scan(b[start..], 0).Some?
    modifies b
    ensures '\0' in b[start..]
    ensures Scan(old(b[start..]), 0) == Some(b[start..])
    ensures CString(b[start..]) == Cut(CString(old(b[start..])), MAX_RULE_CONTENT_LENGTH)
  {
    ghost var t := b[start..];
    ghost var s := CString(t);
    NulEnds(t);
    var j := 0;
    while j < MAX_RULE_CONTENT_LENGTH
      invariant 0 <= j <= MAX_RULE_CONTENT_LENGTH && start + j <= b.Length
      invariant b[start..] == t && Scan(t, j) == Scan(t, 0)
      invariant forall i :: 0 <= i < j && i < |s| ==> !IsStop(s[i])
    {
      if b[start + j] == ' ' || b[start + j] == '\t' || b[start + j] == '#' || b[start + j] == '\n' {
        b[start + j] := '\0';
        StopFound(t, s, j);
        assert b[start..] == t[j := '\0'];
        return;
      }
      assert j < |s| ==> s[j] == t[j] == b[start + j];
      j := j + 1;
    }
    NoStopFound(t, s, j);
  }

  lemma StopFound(t: string, s: string, j: nat)
    requires '\0' in t && s == CString(t)
    requires j < |t| && j < MAX_RULE_CONTENT_LENGTH && IsStop(t[j])
    requires forall i :: 0 <= i < j && i < |s| ==> !IsStop(s[i])
    ensures '\0' in t[j := '\0']
    ensures CString(t[j := '\0']) == Cut(s, MAX_RULE_CONTENT_LENGTH)
  {
    NulEnds(t);
    var t' := t[j := '\0'];
    assert t'[j] == '\0';
    if j < |s| {
      assert t'[..j] == s[..j];
      EndsAtNul(t', j);
      CutFurther(s, j, MAX_RULE_CONTENT_LENGTH);
      assert s[j] == t[j];
    } else {
      assert t'[..|s|] == s;
      EndsAtNul(t', |s|);
      CutFurther(s, |s|, MAX_RULE_CONTENT_LENGTH);
    }
  }

  lemma NoStopFound(t: string, s: string, j: nat)
    requires '\0' in t && s == CString(t)
    requires j == MAX_RULE_CONTENT_LENGTH <= |t|
    requires forall i :: 0 <= i < j && i < |s| ==> !IsStop(s[i])
    ensures s == Cut(s, MAX_RULE_CONTENT_LENGTH)
  {
    NulEnds(t);
    var k := if |s| < j then |s| else j;
    CutFurther(s, k, MAX_RULE_CONTENT_LENGTH);
    assert s == s[..k] + s[k..];
  }

  // ---------------------------------------------------------------- reading lines

  /** `fgets(b, 100, f)` at position `pos` of the file, into a buffer of zeros. */
  method Fgets(text: string, pos: nat) returns (b: array<char>, pos': nat)
    requires pos < |text|
    ensures fresh(b) && b.Length == MAX_LINE_LENGTH && '\0' in b[..]
    ensures var n := Take(text[pos..], MAX_LINE_LENGTH - 1);
            && pos' == pos + n > pos && pos' <= |text|
            && pos' - pos < MAX_LINE_LENGTH && b[..] == Padded(text[pos..pos'])
  {
    b := new char[MAX_LINE_LENGTH](_ => '\0');
    var n := Take(text[pos..], MAX_LINE_LENGTH - 1);
    var chunk := text[pos..pos + n];
    for i := 0 to n
      invariant forall k :: 0 <= k < b.Length ==> b[k] == if k < i then chunk[k] else '\0'
    {
      b[i] := chunk[i];
    }
    pos' := pos + n;
    assert b[n] == '\0';
    assert b[..] == Padded(chunk);
  }

  /** One read takes the first chunk of what is left. */
  lemma FirstChunk(text: string, pos: nat, pos': nat, acc: seq<Rule>, aton: string -> Option<Addr>)
    requires pos < |text| && pos' == pos + Take(text[pos..], MAX_LINE_LENGTH - 1) <= |text|
    ensures LoadFrom(Chunks(text[pos..]), acc, aton)
         == Resume(Parse(Edit(CString(text[pos..pos'])), |acc|, aton), Chunks(text[pos'..]), acc, aton)
    ensures var line := Parse(Edit(CString(text[pos..pos'])), |acc|, aton);
            StaysInside(Chunks(text[pos..]), acc, aton) <==>
              && ChunkSafe(text[pos..pos'])
              && (line.Skip? ==> StaysInside(Chunks(text[pos'..]), acc, aton))
              && (line.Good? ==> StaysInside(Chunks(text[pos'..]), acc + [line.rule], aton))
  {
    hide Parse, Edit, CString, ChunkSafe;
    var t := text[pos..];
    assert t[..pos' - pos] == text[pos..pos'] && t[pos' - pos..] == text[pos'..];
    assert Chunks(t)[0] == text[pos..pos'] && Chunks(t)[1..] == Chunks(text[pos'..]);
  }

  lemma NothingLeft(acc: seq<Rule>, aton: string -> Option<Addr>)
    ensures LoadFrom(Chunks(""), acc, aton) == Rules(acc)
  {
  }

  // ---------------------------------------------------------------- tag_rules_load

  /** `tag_rules_t`. */
  class TagRules {
    const rules: array<Rule>
    var size: nat

    constructor ()
      ensures rules.Length == 128 && size == 0 && fresh(rules)
    {
      rules := new Rule[MAX_RULES](_ => Rule(0, 0, 0));
      size := 0;
    }

    /** The rules that the table holds. */
    ghost function Contents(): seq<Rule>
      requires size <= rules.Length
      reads this, rules
    {
      rules[..size]
    }

    /**
     `tag_rules_load`. A nonnegative result is the number of rules now in the
     table, in file order, and the table is valid. After an error while reading the
     table is empty; a missing file leaves it alone.
     */
    method Load(file: File, aton: string -> Option<Addr>) returns (code: int)
      requires rules.Length == MAX_RULES && size <= rules.Length
      requires file.File? ==> StaysInside(Chunks(file.text), [], aton)
      modifies this, rules
      ensures code == LoadCode(file, aton)
      ensures code == -1 <==> file.NoPath?
      ensures code == -2 <==> file.Missing?
      ensures file.File? && LoadText(file.text, aton).Failed? ==> code == LoadText(file.text, aton).code
      ensures code == -3 <==> file.File? && LoadText(file.text, aton).Rules? && file.readFails
      ensures code == -10 <==> file.File? && LoadText(file.text, aton).Rules? && !file.readFails && file.closeFails
      ensures size <= rules.Length
      ensures code >= 0 ==> file.File? && LoadText(file.text, aton) == Rules(Contents())
      ensures code >= 0 ==> size == code && ValidRules(Contents())
      ensures file.File? && -10 <= code < 0 ==> size == 0
      ensures !file.File? ==> size == old(size) && rules[..] == old(rules[..])
    {
      if file.NoPath? {
        return -1;
      }
      if file.Missing? {
        return -2;
      }
      for i := 0 to MAX_RULES {
        rules[i] := Rule(0, 0, 0);
      }
      size := 0;
      var count, failure := ReadRules(file.text, aton);
      if failure != 0 {
        return failure;
      }
      if file.readFails {
        return -3;
      }
      if file.closeFails {
        return -10;
      }
      size := count;
      if count > 0 {
        var verdict := ValidateRules(rules, size);
        if verdict != 0 {
          return verdict;
        }
      }
      code := count;
    }

    /** The reading loop; it ends because every read consumes part of the file. */
    method ReadRules(text: string, aton: string -> Option<Addr>) returns (count: nat, failure: int)
      requires rules.Length == MAX_RULES
      requires StaysInside(Chunks(text), [], aton)
      modifies rules
      ensures count <= 128 && (failure == 0 || -9 <= failure <= -5)
      ensures LoadText(text, aton) == if failure != 0 then Failed(failure) else Rules(rules[..count])
    {
      hide Chunks, Parse, Edit, CString, LoadFrom, StaysInside, ChunkSafe, EditorStaysInside;
      count := 0;
      var pos := 0;
      assert text[0..] == text && rules[..0] == [];
      while pos < |text|
        invariant 0 <= pos <= |text| && count <= MAX_RULES
        invariant LoadFrom(Chunks(text[pos..]), rules[..count], aton) == LoadText(text, aton)
        invariant StaysInside(Chunks(text[pos..]), rules[..count], aton)
        decreases |text| - pos
      {
        var b, pos' := Fgets(text, pos);
        FirstChunk(text, pos, pos', rules[..count], aton);
        ChunkSafeMeans(text[pos..pos']);
        var start := LineEditor(b);
        var s := CString(b[start..]);
        ghost var acc := rules[..count];
        var line := ReadRule(s, count, aton);
        assert rules[..count] == acc;
        match line {
          case Skip =>
          case Fail(code) => return count, code;
          case Good(rule) =>
            assert rules[..count + 1] == acc + [rule];
            count := count + 1;
        }
        pos := pos';
      }
      NothingLeft(rules[..count], aton);
      assert text[pos..] == "";
      failure := 0;
    }

    /** One trimmed line: the fields of entry `count` are filled in as the tokens are read. */
    method ReadRule(s: string, count: nat, aton: string -> Option<Addr>) returns (line: Line)
      requires rules.Length == MAX_RULES && count <= MAX_RULES
      modifies rules
      ensures line == Parse(s, count, aton)
      ensures rules[..count] == old(rules[..count])
      ensures line.Good? ==> count < 128 && rules[count] == line.rule
      ensures line.Fail? ==> -9 <= line.code <= -5
    {
      if s == "" || s[0] == '#' || s[0] == '\n' {
        return Skip;
      }
      var dashes := CharCount(s, '-');
      if dashes < 1 || dashes > 2 {
        return Fail(-5);
      }
      if count >= MAX_RULES {
        return Fail(-6);
      }
      var token := Token(s);
      if token.None? {
        return Fail(-7);
      }
      var left := aton(token.value.0);
      if left.None? {
        return Fail(-8);
      }
      rules[count] := rules[count].(left := left.value);
      if dashes == 1 {
        rules[count] := rules[count].(right := rules[count].left);
      } else {
        token := Token(token.value.1);
        if token.None? {
          return Fail(-7);
        }
        var right := aton(token.value.0);
        if right.None? {
          return Fail(-8);
        }
        rules[count] := rules[count].(right := right.value);
      }
      token := Token(token.value.1);
      if token.None? {
        return Fail(-7);
      }
      var tag := TagValue(token.value.0);
      if tag.None? {
        return Fail(-9);
      }
      rules[count] := rules[count].(tag := tag.value);
      line := Good(rules[count]);
    }
  }
}
