/** What backward search from a `>` finds: a `<`, with every ) ] and } between them opened between them. */
module ReverseAngleSearch {
  import opened Brackets
  import opened CloseExpression
  import opened BracketSearch
  import opened AngleSearch
  import opened TemplateSearch
  import opened Options

  /** A stack whose bottom is the `>` the search set out from. */
  ghost predicate GreaterRooted(stack: seq<char>) {
    stack != [] && stack[0] == '>' && forall i | 0 <= i < |stack| :: IsClose(stack[i]) || stack[i] == '>'
  }

  /** What the plain matcher keeps of a stack, reading backwards. */
  function Plainly(stack: seq<char>): seq<char> { Strip(Flipped(stack)) }

  lemma RootedOnCloser(stack: seq<char>)
    requires GreaterRooted(stack)
    ensures Rooted(Flipped([')'] + stack), '>')
  {
  }

  lemma RootedOnCloserAlone()
    ensures Rooted(Flipped([')']), '>') && Plainly([')']) == ['('] && Plainly([')', '>']) == ['(']
  {
    StripNothing();
    FlippedParts([], ')');
    EmptyFlipped([]);
    assert [] + [')'] == [')'] && [] + ['('] == ['('];
    StripPush([], '(');
    FlippedParts([')'], '>');
    assert [')'] + ['>'] == [')', '>'];
    StripPush(['('], '>');
  }

  lemma DropTopOnCloser(stack: seq<char>)
    ensures var s := DropTop(stack, '>'); DropTop([')'] + stack, '>') == [')'] + s && s <= stack
    decreases |stack|
  {
    assert [] + [')'] == [')'] + [];
    if stack != [] {
      assert Pop([')'] + stack) == [')'] + Pop(stack);
      DropTopOnCloser(Pop(stack));
    }
  }

  lemma GreaterBelow(stack: seq<char>, s: seq<char>)
    requires GreaterRooted(stack) && s <= stack && s != []
    ensures GreaterRooted(s)
  {
  }

  lemma GreaterPush(stack: seq<char>, c: char)
    requires GreaterRooted(stack) && (IsClose(c) || c == '>')
    ensures GreaterRooted(stack + [c])
  {
  }

  /** A ) put under the stack is found only by what would otherwise empty it: the `<` of the first `>`. */
  lemma BackwardStepLifts(line: string, i: nat, stack: seq<char>)
    requires i < |line| && GreaterRooted(stack)
    ensures var r, r' := BackwardStep(line, i, stack), BackwardStep(line, i, [')'] + stack);
            match r
            case Going(s) => GreaterRooted(s) && r' == Going([')'] + s)
            case Found(p) => p == i && line[i] == '<' && BackwardMove(line, i) == 1 && r' == Going([')'])
            case Stuck => true
  {
    hide EndsInOperator, IsSpacedGreaterEqual, GreaterRooted, DropTop;
    var c, s := line[i], DropTop(stack, '>');
    GreaterBottom(stack);
    DropTopOnCloser(stack);
    PushAbove([')'], stack, c);
    PushAbove([')'], s, c);
    if IsClose(c) || c == '>' { GreaterPush(stack, c); }
    if Pop(stack) != [] { GreaterBelow(stack, Pop(stack)); }
    if s != [] {
      GreaterBelow(stack, s);
      GreaterBottom(s);
      if Pop(s) != [] { GreaterBelow(stack, Pop(s)); }
    }
  }

  lemma GreaterBottom(stack: seq<char>)
    requires GreaterRooted(stack)
    ensures stack != [] && (|stack| == 1 ==> Top(stack) == '>')
  {
  }

  /** A step of the scan is as many steps of the plain matcher as it moves over characters. */
  lemma StepIsMatched(line: string, n: nat, stack: seq<char>, t: string)
    requires 0 < n <= |line| && Rooted(Flipped(stack), '>') && BackwardStep(line, n - 1, stack).Going?
    ensures var k, s := n - BackwardMove(line, n - 1), BackwardStep(line, n - 1, stack).stack;
            && Rooted(Flipped(s), '>')
            && Match(Mirror(t + line[k..n]), Plainly(stack)) == Shift(Match(Mirror(t), Plainly(s)), n - k)
  {
    hide Match, BackwardStep, BackwardMove, Rooted, Strip, Flipped, Mirror;
    var i, s := n - 1, BackwardStep(line, n - 1, stack).stack;
    var k := n - BackwardMove(line, i);
    BackwardStepMatches(line, i, stack);
    assert t + line[k..n] == t + line[k..i] + [line[i]];
    MirrorLast(t + line[k..i], line[i]);
    MatchStep(Flip(line[i]), Mirror(t + line[k..i]), Strip(Flipped(stack)));
    FlipKind(line[i]);
    if k == i {
      assert t + line[k..i] == t;
    } else {
      SkipsNoBracket(line, i);
      assert t + line[k..i] == t + [line[k]];
      MirrorLast(t, line[k]);
      FlipKind(line[k]);
      StripRooted(Flipped(s), '>');
      MatchStep(Flip(line[k]), Mirror(t), Strip(Flipped(s)));
      ShiftTwice(Match(Mirror(t), Plainly(s)), 1, 1);
    }
  }

  lemma SliceAppend(t: string, line: string, a: nat, b: nat, c: nat)
    requires a <= b <= c <= |line|
    ensures t + line[a..c] == t + line[a..b] + line[b..c]
  {
  }

  lemma {:induction false} ScanBackwardLifts(line: string, n: nat, stack: seq<char>, t: string)
    requires n <= |line| && GreaterRooted(stack)
    ensures match ScanBackward(line, n, stack)
            case Going(s) =>
              && GreaterRooted(s)
              && Match(Mirror(t + line[0..n]), Plainly([')'] + stack)) == Shift(Match(Mirror(t), Plainly([')'] + s)), n)
            case Found(p) =>
              && p < n && line[p] == '<'
              && Match(Mirror(t + line[p..n]), Plainly([')'] + stack)) == Shift(Match(Mirror(t), Plainly([')'])), n - p)
            case Stuck => true
    decreases n
  {
    hide Match, BackwardStep, BackwardMove, Rooted, Plainly, Flipped, Mirror, GreaterRooted;
    if n == 0 {
      assert t + line[0..0] == t;
      ShiftNone(Match(Mirror(t), Plainly([')'] + stack)));
    } else {
      BackwardStepLifts(line, n - 1, stack);
      RootedOnCloser(stack);
      var k := n - BackwardMove(line, n - 1);
      match BackwardStep(line, n - 1, stack)
      case Found(p) => StepIsMatched(line, n, [')'] + stack, t);
      case Going(s) =>
        ScanBackwardLifts(line, k, s, t);
        match ScanBackward(line, k, s) {
          case Found(p) =>
            SliceAppend(t, line, p, k, n);
            StepIsMatched(line, n, [')'] + stack, t + line[p..k]);
            ShiftTwice(Match(Mirror(t), Plainly([')'])), k - p, n - k);
          case Going(z) =>
            SliceAppend(t, line, 0, k, n);
            StepIsMatched(line, n, [')'] + stack, t + line[0..k]);
            ShiftTwice(Match(Mirror(t), Plainly([')'] + z)), k, n - k);
          case Stuck =>
        }
      case Stuck =>
    }
  }

  /** The `<` that `r` names, and that the text from it up to `e`, behind a (, closes `stack`. */
  ghost predicate OpensGreater(lines: seq<string>, e: nat, stack: seq<char>, r: Place)
    requires e <= |Joined(lines)|
  {
    && r.linenum < |lines| && r.line == lines[r.linenum] && 0 <= r.pos < |r.line| && r.line[r.pos] == '<'
    && var b := Offset(lines, r.linenum) + r.pos;
       b < e && Match(Mirror("(" + Joined(lines)[b..e]), Plainly([')'] + stack)) == Some(e - b)
  }

  lemma MirrorOne(c: char)
    ensures Mirror([c]) == [Flip(c)]
  {
  }

  lemma MirrorParen()
    ensures Match(Mirror("("), Plainly([')'])) == Some(0)
  {
    RootedOnCloserAlone();
    MirrorOne('(');
  }

  lemma SliceOfLine(lines: seq<string>, l: nat, p: nat, n: nat)
    requires l < |lines| && p <= n <= |lines[l]|
    ensures Offset(lines, l) + n <= |Joined(lines)|
    ensures Joined(lines)[Offset(lines, l) + p..Offset(lines, l) + n] == lines[l][p..n]
  {
    hide Joined, Offset;
    JoinedHead(lines, l, p, n);
    assert lines[l][..n][p..] == lines[l][p..n];
  }

  lemma {:induction false} OpenFromGreater(lines: seq<string>, l: nat, n: nat, stack: seq<char>)
    requires l < |lines| && n <= |lines[l]| && GreaterRooted(stack)
    ensures Offset(lines, l) + n <= |Joined(lines)|
    ensures var r := OpenFrom(lines, l, n, stack);
            Nowhere(r) || OpensGreater(lines, Offset(lines, l) + n, stack, r)
    decreases l
  {
    hide Match, Mirror, Plainly, ScanBackward, Joined, Offset, GreaterRooted;
    SliceOfLine(lines, l, 0, n);
    ScanBackwardLifts(lines[l], n, stack, "(");
    match ScanBackward(lines[l], n, stack)
    case Found(p) =>
      SliceOfLine(lines, l, p, n);
      MirrorParen();
    case Going(s) =>
      if l > 0 {
        OpenFromGreater(lines, l - 1, |lines[l - 1]|, s);
        var r := OpenFrom(lines, l - 1, |lines[l - 1]|, s);
        if !Nowhere(r) {
          var b, o := Offset(lines, r.linenum) + r.pos, Offset(lines, l);
          NextOffset(lines, l - 1);
          NoOffset(lines, l);
          SliceSplits(Joined(lines), b, o, o + n);
          Associate("(", Joined(lines)[b..o], lines[l][0..n]);
          ScanBackwardLifts(lines[l], n, stack, "(" + Joined(lines)[b..o]);
        }
      }
    case Stuck =>
  }

  lemma NoOffset(lines: seq<string>, l: nat)
    requires l < |lines|
    ensures Offset(lines, l) + 0 == Offset(lines, l)
  {
  }

  /** The place `r` is at a `<`, and in the text from it up to offset `e` every ( [ and { has its partner. */
  ghost predicate AtBalanced(lines: seq<string>, e: nat, r: Place) {
    && r.linenum < |lines| && r.line == lines[r.linenum] && 0 <= r.pos < |r.line| && r.line[r.pos] == '<'
    && var b := Offset(lines, r.linenum) + r.pos;
       b < e <= |Joined(lines)| && Balanced(Joined(lines)[b..e])
  }

  lemma GreaterFromBalanced(lines: seq<string>, l: nat, q: nat)
    requires l < |lines| && q < |lines[l]| && lines[l][q] == '>'
    ensures var r := OpenFrom(lines, l, q, ['>']);
            Nowhere(r) || AtBalanced(lines, Offset(lines, l) + q + 1, r)
  {
    hide Match, Mirror, Plainly, Joined, Offset, OpenFrom, Balanced;
    var e, r := Offset(lines, l) + q, OpenFrom(lines, l, q, ['>']);
    OpenFromGreater(lines, l, q, ['>']);
    if !Nowhere(r) {
      var b := Offset(lines, r.linenum) + r.pos;
      JoinedAt(lines, l, q);
      var t := Joined(lines)[b..e];
      assert Joined(lines)[b..e + 1] == t + ['>'];
      RootedOnCloserAlone();
      assert [')'] + ['>'] == [')', '>'];
      UnopenedBalanced(t);
      BalancedInFront(t, '>');
    }
  }

  /** A text in front of which ( opens ) is balanced. */
  lemma UnopenedBalanced(t: string)
    requires Match(Mirror("(" + t), ['(']) == Some(|t|)
    ensures Balanced(t)
  {
    hide Match, Balanced;
    MirrorAppend("(", t);
    MirrorOne('(');
    assert |Mirror(t)| == |t|;
    UnclosedBalanced(Mirror(t));
    BalancedMirror(Mirror(t));
    MirrorTwice(t);
  }

  lemma BalancedInFront(t: string, c: char)
    requires !IsBracket(c) && Balanced(t)
    ensures Balanced(t + [c])
  {
    var d := DocOf(t);
    ConcatText(d, Plain(c, Empty));
    assert Text(Plain(c, Empty)) == [c];
    BalancedWith(Concat(d, Plain(c, Empty)));
  }

  /** Going back from `n` with nothing open, step by step, the first character taken for a closer is at `q`. */
  ghost predicate FirstTakenBack(line: string, n: nat, q: nat)
    decreases n
  {
    0 < n <= |line| &&
    if IsClose(line[n - 1]) || OpensBackward(line, n - 1) then q == n - 1
    else BackwardStep(line, n - 1, []) == Going([]) && FirstTakenBack(line, n - BackwardMove(line, n - 1), q)
  }

  ghost predicate OnlyTaken(line: string, n: nat, p: nat) {
    FirstTakenBack(line, n, p) && forall q: nat | FirstTakenBack(line, n, q) :: q == p
  }

  lemma TakenStepBack(line: string, i: nat)
    requires i < |line|
    ensures IsClose(line[i]) || OpensBackward(line, i) ==> BackwardStep(line, i, []) == Going([line[i]]) && BackwardMove(line, i) == 1
    ensures !(IsClose(line[i]) || OpensBackward(line, i)) ==> BackwardStep(line, i, []) in {Going([]), Stuck}
  {
    hide EndsInOperator, IsSpacedGreaterEqual;
    assert [] + [line[i]] == [line[i]];
  }

  /** With nothing open, a scan takes the first closer it steps on or comes to nothing. */
  lemma {:induction false} ScanBackFromNothing(line: string, n: nat)
    requires n <= |line|
    ensures || ScanBackward(line, n, []) in {Going([]), Stuck}
            || exists q: nat :: q < n && FirstTakenBack(line, n, q) && ScanBackward(line, n, []) == ScanBackward(line, q, [line[q]])
    decreases n
  {
    hide BackwardStep, BackwardMove, OpensBackward;
    if n > 0 {
      TakenStepBack(line, n - 1);
      if IsClose(line[n - 1]) || OpensBackward(line, n - 1) {
        assert FirstTakenBack(line, n, n - 1);
      } else if BackwardStep(line, n - 1, []) == Going([]) {
        var k := n - BackwardMove(line, n - 1);
        ScanBackFromNothing(line, k);
        if q: nat :| q < k && FirstTakenBack(line, k, q) && ScanBackward(line, k, []) == ScanBackward(line, q, [line[q]]) {
          assert FirstTakenBack(line, n, q);
        }
      }
    }
  }

  lemma {:induction false} TakenIsCloser(line: string, n: nat, q: nat)
    requires n <= |line| && FirstTakenBack(line, n, q)
    ensures q < n && (IsClose(line[q]) || OpensBackward(line, q))
    decreases n
  {
    hide BackwardStep, BackwardMove, OpensBackward;
    if !(IsClose(line[n - 1]) || OpensBackward(line, n - 1)) { TakenIsCloser(line, n - BackwardMove(line, n - 1), q); }
  }

  /** What a search back that took the closer at `q` may return. */
  ghost predicate DelimitsBack(lines: seq<string>, l: nat, q: nat, r: Place)
    requires l < |lines| && q < |lines[l]|
  {
    if IsClose(lines[l][q]) then
      r.linenum < |lines| && r.pos >= 0 && var k := Offset(lines, r.linenum) + r.pos;
      At(lines, r, k) && IsPair(Joined(lines), k, Offset(lines, l) + q)
    else AtBalanced(lines, Offset(lines, l) + q + 1, r)
  }

  lemma TakenDelimitsBack(lines: seq<string>, l: nat, q: nat)
    requires l < |lines| && q < |lines[l]| && (IsClose(lines[l][q]) || lines[l][q] == '>')
    ensures var r := OpenFrom(lines, l, q, [lines[l][q]]); Nowhere(r) || DelimitsBack(lines, l, q, r)
  {
    hide OpenFrom, ReverseClose, Joined, Offset, IsPair, AtBalanced;
    if IsClose(lines[l][q]) {
      ReverseStarts(lines, l, q);
      var r := ReverseClose(lines, l, q);
      ReverseFindsPair(lines, l, q, 0);
      if !Nowhere(r) {
        var k: nat :| IsPair(Joined(lines), k, Offset(lines, l) + q);
        ReverseFindsPair(lines, l, q, k);
      }
    } else {
      GreaterFromBalanced(lines, l, q);
    }
  }

  /** Search back from any `>` that succeeds has taken the first closer it stepped on, usually that `>`, and stops
      at its start: the partner of a ) ] or }, or a `<` from which on every ( [ and { has its partner. */
  lemma AngleOpensBalanced(lines: seq<string>, l: nat, p: nat)
    requires l < |lines| && p < |lines[l]| && lines[l][p] == '>'
    ensures var r := ReverseClose(lines, l, p);
            Nowhere(r) || exists q: nat :: q <= p && FirstTakenBack(lines[l], p + 1, q) && DelimitsBack(lines, l, q, r)
    ensures OpensBackward(lines[l], p) ==> OnlyTaken(lines[l], p + 1, p)
  {
    hide BackwardStep, OpensBackward, DelimitsBack;
    ScanBackFromNothing(lines[l], p + 1);
    if q: nat :| q < p + 1 && FirstTakenBack(lines[l], p + 1, q)
                 && ScanBackward(lines[l], p + 1, []) == ScanBackward(lines[l], q, [lines[l][q]]) {
      TakenIsCloser(lines[l], p + 1, q);
      if OpensBackward(lines[l], q) { BackwardChar(lines[l], q); }
      TakenDelimitsBack(lines, l, q);
    }
  }
}
