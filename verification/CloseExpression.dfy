/** cpplint's bracket search: forward with `CloseExpression`, backward with `ReverseCloseExpression`,
    both guessing which angle brackets are template brackets, and `_GetTextInside`. */
module CloseExpression {
  import opened Ascii
  import opened Brackets
  import opened Options

  // ---------- The regular expressions the scanners use ----------

  predicate IsWord(c: char) { IsAlnum(c) || c == '_' }

  function TrimEnd(s: string): string {
    if s != "" && IsSpace(s[|s| - 1]) then TrimEnd(s[..|s| - 1]) else s
  }

  /** `Search(r'\boperator\s*$', s)`. */
  predicate EndsInOperator(s: string) {
    var t := TrimEnd(s);
    |t| >= 8 && t[|t| - 8..] == "operator" && (|t| == 8 || !IsWord(t[|t| - 9]))
  }

  /** `Match(r'\s>=\s', line[i - 1:])`. */
  predicate IsSpacedGreaterEqual(line: string, i: nat)
    requires 0 < i < |line|
  {
    i + 2 < |line| && IsSpace(line[i - 1]) && line[i] == '>' && line[i + 1] == '=' && IsSpace(line[i + 2])
  }

  /** `Match(r'<[<=]', line[pos:])`. */
  predicate IsShiftOrLessEqual(line: string, pos: nat)
    requires pos < |line|
  {
    line[pos] == '<' && pos + 1 < |line| && (line[pos + 1] == '<' || line[pos + 1] == '=')
  }

  lemma {:induction false} TrimEndTrims(s: string, blanks: string)
    requires (s == "" || !IsSpace(s[|s| - 1])) && forall i | 0 <= i < |blanks| :: IsSpace(blanks[i])
    ensures TrimEnd(s + blanks) == s
    decreases |blanks|
  {
    if blanks == "" {
      assert s + blanks == s;
    } else {
      var k := |blanks| - 1;
      assert s + blanks == s + blanks[..k] + [blanks[k]];
      assert (s + blanks)[..|s + blanks| - 1] == s + blanks[..k];
      TrimEndTrims(s, blanks[..k]);
    }
  }

  lemma {:induction false} DivideEnd(s: string) returns (t: string, blanks: string)
    ensures s == t + blanks && t == TrimEnd(s) && (forall i | 0 <= i < |blanks| :: IsSpace(blanks[i]))
    ensures t == "" || !IsSpace(t[|t| - 1])
  {
    if s != "" && IsSpace(s[|s| - 1]) {
      var b;
      t, b := DivideEnd(s[..|s| - 1]);
      blanks := b + [s[|s| - 1]];
    } else {
      t, blanks := s, "";
    }
  }

  ghost predicate IsOperatorEnd(s: string, before: string, blanks: string) {
    && s == before + ("operator" + blanks)
    && (before == "" || !IsWord(before[|before| - 1])) && forall i | 0 <= i < |blanks| :: IsSpace(blanks[i])
  }

  /** The word `operator`, not the end of a longer word, and white space. */
  lemma OperatorEndSpelled(s: string)
    ensures EndsInOperator(s) <==> exists before, blanks :: IsOperatorEnd(s, before, blanks)
  {
    hide TrimEnd;
    if EndsInOperator(s) {
      var t, blanks := DivideEnd(s);
      var before := t[..|t| - 8];
      assert t == before + "operator";
      assert s == before + ("operator" + blanks);
      assert IsOperatorEnd(s, before, blanks);
    }
    forall before, blanks | IsOperatorEnd(s, before, blanks) ensures EndsInOperator(s) {
      var t := before + "operator";
      assert t[|t| - 1] == 'r' && t[|t| - 8..] == "operator";
      assert s == t + blanks;
      TrimEndTrims(t, blanks);
    }
  }

  // ---------- Specification of the scanners ----------

  /** What a scanner does on one character, or found on one line. */
  datatype Scan = Found(pos: nat) | Stuck | Going(stack: seq<char>)

  function DropTop(stack: seq<char>, c: char): (s: seq<char>)
    ensures |s| <= |stack| && (s != [] ==> Top(s) != c)
  {
    if stack != [] && Top(stack) == c then DropTop(Pop(stack), c) else stack
  }

  function ForwardStep(line: string, i: nat, stack: seq<char>): Scan
    requires i < |line|
  {
    var c := line[i];
    if IsOpen(c) then Going(stack + [c])
    else if c == '<' then
      if i > 0 && line[i - 1] == '<' then
        if stack == [] || Top(stack) != '<' then Going(stack)
        else if |stack| == 1 then Stuck
        else Going(Pop(stack))
      else if i > 0 && EndsInOperator(line[..i]) then Going(stack)
      else Going(stack + ['<'])
    else if IsClose(c) then
      var s := DropTop(stack, '<');
      if s == [] || Flip(c) != Top(s) then Stuck
      else if |s| == 1 then Found(i + 1)
      else Going(Pop(s))
    else if c == '>' then
      if i > 0 && (line[i - 1] == '-' || EndsInOperator(line[..i - 1])) then Going(stack)
      else if stack == [] || Top(stack) != '<' then Going(stack)
      else if |stack| == 1 then Found(i + 1)
      else Going(Pop(stack))
    else if c == ';' then
      var s := DropTop(stack, '<');
      if s == [] then Stuck else Going(s)
    else Going(stack)
  }

  function ScanForward(line: string, i: nat, stack: seq<char>): Scan
    requires i <= |line|
    decreases |line| - i
  {
    if i == |line| then Going(stack)
    else match ForwardStep(line, i, stack)
      case Going(s) => ScanForward(line, i + 1, s)
      case r => r
  }

  /** How many characters a backward step moves over: two where the pair is one operator. */
  function BackwardMove(line: string, i: nat): (k: nat)
    requires i < |line|
    ensures 1 <= k <= 2 && k <= i + 1
  {
    if line[i] == '>' && i > 0
       && (line[i - 1] == '-' || IsSpacedGreaterEqual(line, i) || EndsInOperator(line[..i])) then 2
    else if line[i] == '<' && i > 0 && line[i - 1] == '<' then 2
    else 1
  }

  function BackwardStep(line: string, i: nat, stack: seq<char>): Scan
    requires i < |line|
  {
    var c := line[i];
    if IsClose(c) then Going(stack + [c])
    else if c == '>' then Going(if BackwardMove(line, i) == 2 then stack else stack + ['>'])
    else if c == '<' then
      if BackwardMove(line, i) == 2 || stack == [] || Top(stack) != '>' then Going(stack)
      else if |stack| == 1 then Found(i)
      else Going(Pop(stack))
    else if IsOpen(c) then
      var s := DropTop(stack, '>');
      if s == [] || Flip(c) != Top(s) then Stuck
      else if |s| == 1 then Found(i)
      else Going(Pop(s))
    else if c == ';' then
      var s := DropTop(stack, '>');
      if s == [] then Stuck else Going(s)
    else Going(stack)
  }

  /** Scans `line[..n]` from its end. */
  function ScanBackward(line: string, n: nat, stack: seq<char>): Scan
    requires n <= |line|
    decreases n
  {
    if n == 0 then Going(stack)
    else match BackwardStep(line, n - 1, stack)
      case Going(s) => ScanBackward(line, n - BackwardMove(line, n - 1), s)
      case r => r
  }

  /** `(line, linenum, pos)` as cpplint returns it. */
  datatype Place = Place(line: string, linenum: nat, pos: int)

  function CloseFrom(lines: seq<string>, l: nat, i: nat, stack: seq<char>): Place
    requires l < |lines| && i <= |lines[l]|
    decreases |lines| - l
  {
    match ScanForward(lines[l], i, stack)
    case Found(p) => Place(lines[l], l, p)
    case Stuck => Place(lines[l], |lines|, -1)
    case Going(s) =>
      if s != [] && l < |lines| - 1 then CloseFrom(lines, l + 1, 0, s) else Place(lines[l], |lines|, -1)
  }

  function Close(lines: seq<string>, l: nat, pos: nat): Place
    requires l < |lines| && pos < |lines[l]|
  {
    if !(IsOpen(lines[l][pos]) || lines[l][pos] == '<') || IsShiftOrLessEqual(lines[l], pos) then
      Place(lines[l], |lines|, -1)
    else CloseFrom(lines, l, pos, [])
  }

  function OpenFrom(lines: seq<string>, l: nat, n: nat, stack: seq<char>): Place
    requires l < |lines| && n <= |lines[l]|
    decreases l
  {
    match ScanBackward(lines[l], n, stack)
    case Found(p) => Place(lines[l], l, p)
    case Stuck => Place(lines[l], 0, -1)
    case Going(s) =>
      if s != [] && l > 0 then OpenFrom(lines, l - 1, |lines[l - 1]|, s) else Place(lines[l], 0, -1)
  }

  function ReverseClose(lines: seq<string>, l: nat, pos: nat): Place
    requires l < |lines| && pos < |lines[l]|
  {
    if !(IsClose(lines[l][pos]) || lines[l][pos] == '>') then Place(lines[l], 0, -1)
    else OpenFrom(lines, l, pos + 1, [])
  }

  // ---------- The scanners ----------

  /** `(endpos, None)`, `(-1, None)` or `(-1, stack)`. */
  method FindEndOfExpressionInLine(line: string, startpos: nat, stack0: seq<char>)
    returns (endpos: int, stack: Option<seq<char>>)
    requires startpos <= |line|
    ensures match ScanForward(line, startpos, stack0)
            case Found(p) => endpos == p && stack == None
            case Stuck => endpos == -1 && stack == None
            case Going(s) => endpos == -1 && stack == Some(s)
  {
    var s := stack0;
    var i := startpos;
    while i < |line|
      invariant startpos <= i <= |line|
      invariant ScanForward(line, startpos, stack0) == ScanForward(line, i, s)
    {
      var c := line[i];
      if IsOpen(c) {
        s := s + [c];
      } else if c == '<' {
        if i > 0 && line[i - 1] == '<' {
          if s != [] && s[|s| - 1] == '<' {
            s := s[..|s| - 1];
            if s == [] { return -1, None; }
          }
        } else if i > 0 && EndsInOperator(line[..i]) {
        } else {
          s := s + ['<'];
        }
      } else if IsClose(c) {
        s := PopAll(s, '<');
        if s == [] { return -1, None; }
        if Flip(c) == s[|s| - 1] {
          s := s[..|s| - 1];
          if s == [] { return i + 1, None; }
        } else {
          return -1, None;
        }
      } else if c == '>' {
        if i > 0 && (line[i - 1] == '-' || EndsInOperator(line[..i - 1])) {
        } else if s != [] {
          if s[|s| - 1] == '<' {
            s := s[..|s| - 1];
            if s == [] { return i + 1, None; }
          }
        }
      } else if c == ';' {
        s := PopAll(s, '<');
        if s == [] { return -1, None; }
      }
      i := i + 1;
    }
    return -1, Some(s);
  }

  method PopAll(stack: seq<char>, c: char) returns (s: seq<char>)
    ensures s == DropTop(stack, c)
  {
    s := stack;
    while s != [] && s[|s| - 1] == c
      invariant DropTop(s, c) == DropTop(stack, c)
    {
      s := s[..|s| - 1];
    }
  }

  method CloseExpression(lines: seq<string>, linenum0: nat, pos: nat) returns (r: Place)
    requires linenum0 < |lines| && pos < |lines[linenum0]|
    ensures r == Close(lines, linenum0, pos)
  {
    var linenum := linenum0;
    var line := lines[linenum];
    if !(IsOpen(line[pos]) || line[pos] == '<') || IsShiftOrLessEqual(line, pos) {
      return Place(line, |lines|, -1);
    }
    var endpos, stack := FindEndOfExpressionInLine(line, pos, []);
    if endpos > -1 { return Place(line, linenum, endpos); }
    while stack.Some? && stack.value != [] && linenum < |lines| - 1
      decreases |lines| - linenum
      invariant linenum < |lines| && line == lines[linenum]
      invariant Close(lines, linenum0, pos) ==
                if stack.Some? && stack.value != [] && linenum < |lines| - 1
                then CloseFrom(lines, linenum + 1, 0, stack.value) else Place(line, |lines|, -1)
    {
      linenum := linenum + 1;
      line := lines[linenum];
      endpos, stack := FindEndOfExpressionInLine(line, 0, stack.value);
      if endpos > -1 { return Place(line, linenum, endpos); }
    }
    return Place(line, |lines|, -1);
  }

  method FindStartOfExpressionInLine(line: string, endpos: int, stack0: seq<char>)
    returns (startpos: int, stack: Option<seq<char>>)
    requires -1 <= endpos < |line|
    ensures match ScanBackward(line, endpos + 1, stack0)
            case Found(p) => startpos == p && stack == None
            case Stuck => startpos == -1 && stack == None
            case Going(s) => startpos == -1 && stack == Some(s)
  {
    var s := stack0;
    var i := endpos;
    while i >= 0
      invariant -1 <= i <= endpos
      invariant ScanBackward(line, endpos + 1, stack0) == ScanBackward(line, i + 1, s)
    {
      var c := line[i];
      if IsClose(c) {
        s := s + [c];
      } else if c == '>' {
        if i > 0 && (line[i - 1] == '-' || IsSpacedGreaterEqual(line, i) || EndsInOperator(line[..i])) {
          i := i - 1;
        } else {
          s := s + ['>'];
        }
      } else if c == '<' {
        if i > 0 && line[i - 1] == '<' {
          i := i - 1;
        } else if s != [] && s[|s| - 1] == '>' {
          s := s[..|s| - 1];
          if s == [] { return i, None; }
        }
      } else if IsOpen(c) {
        s := PopAll(s, '>');
        if s == [] { return -1, None; }
        if Flip(c) == s[|s| - 1] {
          s := s[..|s| - 1];
          if s == [] { return i, None; }
        } else {
          return -1, None;
        }
      } else if c == ';' {
        s := PopAll(s, '>');
        if s == [] { return -1, None; }
      }
      i := i - 1;
    }
    return -1, Some(s);
  }

  method ReverseCloseExpression(lines: seq<string>, linenum0: nat, pos: nat) returns (r: Place)
    requires linenum0 < |lines| && pos < |lines[linenum0]|
    ensures r == ReverseClose(lines, linenum0, pos)
  {
    var linenum := linenum0;
    var line := lines[linenum];
    if !(IsClose(line[pos]) || line[pos] == '>') { return Place(line, 0, -1); }
    var startpos, stack := FindStartOfExpressionInLine(line, pos, []);
    if startpos > -1 { return Place(line, linenum, startpos); }
    while stack.Some? && stack.value != [] && linenum > 0
      decreases linenum
      invariant linenum < |lines| && line == lines[linenum]
      invariant ReverseClose(lines, linenum0, pos) ==
                if stack.Some? && stack.value != [] && linenum > 0
                then OpenFrom(lines, linenum - 1, |lines[linenum - 1]|, stack.value) else Place(line, 0, -1)
    {
      linenum := linenum - 1;
      line := lines[linenum];
      startpos, stack := FindStartOfExpressionInLine(line, |line| - 1, stack.value);
      if startpos > -1 { return Place(line, linenum, startpos); }
    }
    return Place(line, 0, -1);
  }

  /** One character of the plain matcher, at a position of a text. */
  lemma MatchAt(text: string, position: nat, stack: seq<char>)
    requires position < |text| && stack != [] && Openers(stack)
    ensures var c := text[position];
            Match(text[position..], stack) ==
            if c == Flip(Top(stack)) then if |stack| == 1 then Some(0) else Shift(Match(text[position + 1..], Pop(stack)), 1)
            else if IsClose(c) then None
            else Shift(Match(text[position + 1..], if IsOpen(c) then stack + [c] else stack), 1)
  {
    assert text[position..][0] == text[position] && text[position..][1..] == text[position + 1..];
    assert IsOpen(Top(stack));
  }

  /** The text between the opener just before `start` and its closer. */
  method GetTextInside(text: string, start: nat) returns (r: Option<string>)
    requires 0 < start <= |text| && IsOpen(text[start - 1])
    ensures r.Some? ==> start + |r.value| < |text| && r.value == text[start..start + |r.value|]
                        && IsPair(text, start - 1, start + |r.value|)
    ensures r.None? ==> NeverClosed(text, start - 1)
  {
    hide IsPair, NeverClosed, Match, Flip;
    AtStart(text, start);
    var expected := [Flip(text[start - 1])];
    ghost var stack := [text[start - 1]];
    var position := start;
    while expected != [] && position < |text|
      decreases |text| - position
      invariant start <= position <= |text| && |stack| == |expected| && Openers(stack)
      invariant forall i | 0 <= i < |stack| :: expected[i] == Flip(stack[i])
      invariant expected != [] ==> Match(text[start..], [text[start - 1]]) == Shift(Match(text[position..], stack), position - start)
      invariant expected == [] ==> position > start && Match(text[start..], [text[start - 1]]) == Some(position - 1 - start)
    {
      var c := text[position];
      MatchAt(text, position, stack);
      if c == expected[|expected| - 1] {
        expected := expected[..|expected| - 1];
        stack := Pop(stack);
      } else if IsClose(c) {
        PairsAreMatches(text, start - 1);
        return None;
      } else if IsOpen(c) {
        expected := expected + [Flip(c)];
        stack := stack + [c];
      }
      position := position + 1;
    }
    PairsAreMatches(text, start - 1);
    if expected != [] {
      MatchNothing(text[position..], stack);
      return None;
    }
    return Some(text[start..position - 1]);
  }

  lemma AtStart(text: string, start: nat)
    requires 0 < start <= |text|
    ensures Match(text[start..], [text[start - 1]]) == Shift(Match(text[start..], [text[start - 1]]), 0)
    ensures IsOpen(text[start - 1]) ==> Openers([text[start - 1]])
  {
  }

  lemma MatchNothing(s: string, stack: seq<char>)
    ensures s == "" ==> Match(s, stack) == None
  {
  }

  ghost predicate NeverClosed(text: string, i: nat) { forall j: nat :: !IsPair(text, i, j) }

  lemma PairsAreMatches(text: string, i: nat)
    requires i < |text| && IsOpen(text[i])
    ensures Match(text[i + 1..], [text[i]]).None? <==> NeverClosed(text, i)
    ensures forall j: nat | j > i && Match(text[i + 1..], [text[i]]) == Some(j - i - 1) :: IsPair(text, i, j) && j < |text|
  {
    hide Match;
    forall j: nat
      ensures IsPair(text, i, j) <==> j > i && Match(text[i + 1..], [text[i]]) == Some(j - i - 1)
    {
      MatchFindsPair(text, i, j);
    }
    match Match(text[i + 1..], [text[i]])
    case None =>
    case Some(k) => assert IsPair(text, i, k + i + 1);
  }

  /** Neither search starts from anything but a bracket; nor forward search from `<<` or `<=`. */
  lemma OnlyBracketsStart(lines: seq<string>, l: nat, pos: nat)
    requires l < |lines| && pos < |lines[l]|
    ensures lines[l][pos] !in "([{<" ==> Close(lines, l, pos) == Place(lines[l], |lines|, -1)
    ensures lines[l][pos] !in ")]}>" ==> ReverseClose(lines, l, pos) == Place(lines[l], 0, -1)
    ensures (exists rest :: lines[l][pos..] == "<<" + rest || lines[l][pos..] == "<=" + rest) ==>
              Close(lines, l, pos) == Place(lines[l], |lines|, -1)
  {
    hide CloseFrom, OpenFrom;
    if rest :| lines[l][pos..] == "<<" + rest || lines[l][pos..] == "<=" + rest {
      assert lines[l][pos..][0] == lines[l][pos] && lines[l][pos..][1] == lines[l][pos + 1];
    }
  }
}
