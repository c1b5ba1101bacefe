/** What forward search from a `<` finds: a `>`, with every ( [ and { between them closed between them. */
module AngleSearch {
  import opened Brackets
  import opened CloseExpression
  import opened BracketSearch
  import opened Options

  /** A stack whose bottom is the `<` the search set out from. */
  ghost predicate AngleRooted(stack: seq<char>) {
    stack != [] && stack[0] == '<' && forall i | 0 <= i < |stack| :: IsOpen(stack[i]) || stack[i] == '<'
  }

  lemma RootedOnParen(stack: seq<char>)
    requires AngleRooted(stack)
    ensures Rooted(['('] + stack, '<')
  {
  }

  lemma DropTopLifts(stack: seq<char>)
    ensures var s := DropTop(stack, '<'); DropTop(['('] + stack, '<') == ['('] + s && s <= stack
    decreases |stack|
  {
    assert [] + ['('] == ['('] + [];
    if stack != [] {
      assert Pop(['('] + stack) == ['('] + Pop(stack);
      DropTopLifts(Pop(stack));
    }
  }

  lemma PopLifts(stack: seq<char>)
    requires stack != []
    ensures Pop(['('] + stack) == ['('] + Pop(stack) && Top(['('] + stack) == Top(stack)
  {
  }

  lemma PushLifts(stack: seq<char>, c: char)
    ensures ['('] + (stack + [c]) == (['('] + stack) + [c]
  {
  }

  lemma RootedBelow(stack: seq<char>, s: seq<char>)
    requires AngleRooted(stack) && s <= stack && s != []
    ensures AngleRooted(s)
  {
  }

  lemma AnglePush(stack: seq<char>, c: char)
    requires AngleRooted(stack) && (IsOpen(c) || c == '<')
    ensures AngleRooted(stack + [c])
  {
  }

  /** A ( put under the stack is found only by what would otherwise empty it: the `>` of the first `<`. */
  lemma ForwardStepLifts(line: string, i: nat, stack: seq<char>)
    requires i < |line| && AngleRooted(stack)
    ensures var r, r' := ForwardStep(line, i, stack), ForwardStep(line, i, ['('] + stack);
            match r
            case Going(s) => AngleRooted(s) && r' == Going(['('] + s)
            case Found(p) => p == i + 1 && line[i] == '>' && r' == Going(['('])
            case Stuck => true
  {
    hide EndsInOperator, Rooted;
    var c, s := line[i], DropTop(stack, '<');
    DropTopLifts(stack);
    PopLifts(stack);
    PushLifts(stack, c);
    assert ['('] + [] == ['('];
    if IsOpen(c) || c == '<' { AnglePush(stack, c); }
    if Pop(stack) != [] { RootedBelow(stack, Pop(stack)); }
    if s != [] {
      RootedBelow(stack, s);
      PopLifts(s);
      if Pop(s) != [] { RootedBelow(stack, Pop(s)); }
    }
  }

  lemma StepInPrefix(line: string, p: nat, i: nat, stack: seq<char>)
    requires i < p <= |line|
    ensures ForwardStep(line[..p], i, stack) == ForwardStep(line, i, stack)
  {
    hide EndsInOperator, DropTop;
    assert line[..p][..i] == line[..i];
    if i > 0 { assert line[..p][..i - 1] == line[..i - 1]; }
  }

  lemma {:induction false} ScanForwardLifts(line: string, i: nat, stack: seq<char>)
    requires i <= |line| && AngleRooted(stack)
    ensures match ScanForward(line, i, stack)
            case Going(s) => AngleRooted(s) && ScanForward(line, i, ['('] + stack) == Going(['('] + s)
            case Found(p) => i < p <= |line| && line[p - 1] == '>' && ScanForward(line[..p], i, ['('] + stack) == Going(['('])
            case Stuck => true
    decreases |line| - i
  {
    hide ForwardStep, AngleRooted;
    if i < |line| {
      ForwardStepLifts(line, i, stack);
      match ForwardStep(line, i, stack)
      case Going(s) =>
        ScanForwardLifts(line, i + 1, s);
        if ScanForward(line, i + 1, s).Found? {
          StepInPrefix(line, ScanForward(line, i + 1, s).pos, i, ['('] + stack);
        }
      case Found(p) => StepInPrefix(line, p, i, ['('] + stack);
      case Stuck =>
    }
  }

  /** The close that `r` names, and that the text from `k` to it, continued by a ), closes `stack`. */
  ghost predicate ClosesAngle(lines: seq<string>, k: nat, stack: seq<char>, r: Place)
    requires k <= |Joined(lines)|
  {
    && r.linenum < |lines| && r.line == lines[r.linenum] && 0 < r.pos <= |r.line| && r.line[r.pos - 1] == '>'
    && var e := Offset(lines, r.linenum) + r.pos;
       k < e <= |Joined(lines)| && Match(Joined(lines)[k..e] + ")", Strip(['('] + stack)) == Some(e - k)
  }

  lemma StripParen()
    ensures Strip(['(']) == ['('] && Match(")", ['(']) == Some(0)
  {
    assert [] + ['('] == ['('] && Strip([]) == [];
    StripPush([], '(');
  }

  lemma SliceOfDrop(j: string, o: nat, x: nat, y: nat)
    requires o <= |j| && x <= y <= |j| - o
    ensures j[o..][x..y] == j[o + x..o + y]
  {
  }

  lemma SliceInPrefix(line: string, rest: string, i: nat, p: nat)
    requires i <= p <= |line|
    ensures (line + rest)[i..p] == line[..p][i..]
  {
  }

  lemma SliceSplits(j: string, a: nat, b: nat, c: nat)
    requires a <= b <= c <= |j|
    ensures j[a..c] == j[a..b] + j[b..c]
  {
  }

  lemma JoinedHead(lines: seq<string>, l: nat, i: nat, p: nat)
    requires l < |lines| && i <= p <= |lines[l]|
    ensures Offset(lines, l) + p <= |Joined(lines)|
    ensures Joined(lines)[Offset(lines, l) + i..Offset(lines, l) + p] == lines[l][..p][i..]
  {
    hide Joined, Offset;
    JoinedFrom(lines, l);
    SliceOfDrop(Joined(lines), Offset(lines, l), i, p);
    SliceInPrefix(lines[l], Joined(lines[l + 1..]), i, p);
  }

  lemma JoinedSlice(lines: seq<string>, l: nat, i: nat, e: nat)
    requires l < |lines| && i <= |lines[l]| && Offset(lines, l) + |lines[l]| <= e <= |Joined(lines)|
    ensures Joined(lines)[Offset(lines, l) + i..e] == lines[l][i..] + Joined(lines)[Offset(lines, l) + |lines[l]|..e]
  {
    hide Joined, Offset;
    var n := |lines[l]|;
    JoinedHead(lines, l, i, n);
    SliceSplits(Joined(lines), Offset(lines, l) + i, Offset(lines, l) + n, e);
    assert lines[l][..n] == lines[l];
  }

  lemma {:induction false} CloseFromAngle(lines: seq<string>, l: nat, i: nat, stack: seq<char>)
    requires l < |lines| && i <= |lines[l]| && AngleRooted(stack)
    ensures Offset(lines, l) + i <= |Joined(lines)|
    ensures var r := CloseFrom(lines, l, i, stack);
            Nowhere(r) || ClosesAngle(lines, Offset(lines, l) + i, stack, r)
    decreases |lines| - l
  {
    hide Match, Strip, ScanForward, Joined, Offset, Rooted, AngleRooted;
    JoinedHead(lines, l, i, |lines[l]|);
    RootedOnParen(stack);
    ScanForwardLifts(lines[l], i, stack);
    match ScanForward(lines[l], i, stack)
    case Found(p) =>
      JoinedHead(lines, l, i, p);
      ScanForwardMatches(lines[l][..p], i, ['('] + stack, ")");
      StripParen();
    case Going(s) =>
      if l + 1 < |lines| {
        CloseFromAngle(lines, l + 1, 0, s);
        var r := CloseFrom(lines, l + 1, 0, s);
        if !Nowhere(r) {
          var e := Offset(lines, r.linenum) + r.pos;
          NextOffset(lines, l);
          JoinedSlice(lines, l, i, e);
          var tail := Joined(lines)[Offset(lines, l + 1)..e];
          ScanForwardMatches(lines[l], i, ['('] + stack, tail + ")");
          Associate(lines[l][i..], tail, ")");
        }
      }
    case Stuck =>
  }

  lemma NextOffset(lines: seq<string>, l: nat)
    requires l < |lines|
    ensures Offset(lines, l + 1) == Offset(lines, l) + |lines[l]|
  {
  }

  /** A `<` the search takes for a bracket: not the second of `<<`, nor behind `operator`. */
  predicate OpensAngle(line: string, p: nat)
    requires p < |line|
  {
    line[p] == '<' && (p > 0 ==> line[p - 1] != '<' && !EndsInOperator(line[..p]))
  }

  /** The place `r` is just behind a `>`, and in the text from offset `k` to it every ( [ and { has its partner. */
  ghost predicate BehindBalanced(lines: seq<string>, k: nat, r: Place) {
    && r.linenum < |lines| && r.line == lines[r.linenum] && 0 < r.pos <= |r.line| && r.line[r.pos - 1] == '>'
    && var e := Offset(lines, r.linenum) + r.pos;
       k < e <= |Joined(lines)| && Balanced(Joined(lines)[k..e])
  }

  lemma AngleFromBalanced(lines: seq<string>, l: nat, q: nat)
    requires l < |lines| && q < |lines[l]| && lines[l][q] == '<'
    ensures var r := CloseFrom(lines, l, q + 1, ['<']);
            Nowhere(r) || BehindBalanced(lines, Offset(lines, l) + q, r)
  {
    hide Match, Strip, Joined, Offset, CloseFrom, Balanced;
    var k, r := Offset(lines, l) + q, CloseFrom(lines, l, q + 1, ['<']);
    CloseFromAngle(lines, l, q + 1, ['<']) by { assert ['('] + ['<'] == ['(', '<']; }
    if !Nowhere(r) {
      var e := Offset(lines, r.linenum) + r.pos;
      JoinedAt(lines, l, q);
      var t, tail := Joined(lines)[k..e], Joined(lines)[k + 1..e];
      assert t == ['<'] + tail;
      StripAngle();
      UnclosedBalanced(tail);
      BalancedBehind('<', tail);
    }
  }

  lemma StripAngle()
    ensures Strip(['(', '<']) == ['('] && ['('] + ['<'] == ['(', '<']
  {
    assert ['('] + ['<'] == ['(', '<'];
    StripParen();
    StripPush(['('], '<');
  }

  /** From `p` on, the first character of the line that the search takes for an opener is at `q`. */
  ghost predicate FirstTaken(line: string, p: nat, q: nat) {
    && p <= q < |line| && (IsOpen(line[q]) || OpensAngle(line, q))
    && forall j | p <= j < q :: ForwardStep(line, j, []) == Going([])
  }

  lemma TakenStep(line: string, q: nat)
    requires q < |line|
    ensures IsOpen(line[q]) || OpensAngle(line, q) ==> ForwardStep(line, q, []) == Going([line[q]])
    ensures !(IsOpen(line[q]) || OpensAngle(line, q)) ==> ForwardStep(line, q, []) in {Going([]), Stuck}
  {
    hide EndsInOperator;
    assert [] + [line[q]] == [line[q]];
  }

  /** With nothing open, a scan takes the first opener of the line or comes to nothing. */
  lemma {:induction false} ScanFromNothing(line: string, i: nat)
    requires i <= |line|
    ensures || ScanForward(line, i, []) in {Going([]), Stuck}
            || exists q: nat :: FirstTaken(line, i, q) && ScanForward(line, i, []) == ScanForward(line, q + 1, [line[q]])
    decreases |line| - i
  {
    hide ForwardStep, OpensAngle;
    if i < |line| {
      TakenStep(line, i);
      if IsOpen(line[i]) || OpensAngle(line, i) {
        assert FirstTaken(line, i, i);
      } else if ForwardStep(line, i, []) == Going([]) {
        ScanFromNothing(line, i + 1);
        if q: nat :| FirstTaken(line, i + 1, q) && ScanForward(line, i + 1, []) == ScanForward(line, q + 1, [line[q]]) {
          assert FirstTaken(line, i, q);
        }
      }
    }
  }

  /** What a search that took the opener at `q` may return. */
  ghost predicate Delimits(lines: seq<string>, l: nat, q: nat, r: Place)
    requires l < |lines| && q < |lines[l]|
  {
    if IsOpen(lines[l][q]) then
      r.linenum < |lines| && r.pos > 0 && var k := Offset(lines, r.linenum) + r.pos - 1;
      Behind(lines, r, k) && IsPair(Joined(lines), Offset(lines, l) + q, k)
    else BehindBalanced(lines, Offset(lines, l) + q, r)
  }

  lemma TakenDelimits(lines: seq<string>, l: nat, p: nat, q: nat)
    requires l < |lines| && FirstTaken(lines[l], p, q)
    ensures var r := CloseFrom(lines, l, q + 1, [lines[l][q]]); Nowhere(r) || Delimits(lines, l, q, r)
  {
    hide CloseFrom, Close, Joined, Offset, IsPair, BehindBalanced;
    if IsOpen(lines[l][q]) {
      CloseStarts(lines, l, q);
      var r := Close(lines, l, q);
      CloseFindsPair(lines, l, q, 0);
      if !Nowhere(r) {
        var k: nat :| IsPair(Joined(lines), Offset(lines, l) + q, k);
        CloseFindsPair(lines, l, q, k);
      }
    } else {
      AngleFromBalanced(lines, l, q);
    }
  }

  /** Search from any `<` that succeeds has taken the first opener from there on, usually that `<`, and stops
      behind its end: the partner of a ( [ or {, or a `>` up to which every ( [ and { has its partner. */
  lemma AngleClosesBalanced(lines: seq<string>, l: nat, p: nat)
    requires l < |lines| && p < |lines[l]| && lines[l][p] == '<'
    ensures var r := Close(lines, l, p);
            Nowhere(r) || exists q: nat :: FirstTaken(lines[l], p, q) && Delimits(lines, l, q, r)
    ensures OpensAngle(lines[l], p) ==> FirstTaken(lines[l], p, p) && forall q: nat | FirstTaken(lines[l], p, q) :: q == p
  {
    hide ForwardStep, OpensAngle, Delimits, EndsInOperator;
    TakenStep(lines[l], p);
    ScanFromNothing(lines[l], p);
    if q: nat :| FirstTaken(lines[l], p, q) && ScanForward(lines[l], p, []) == ScanForward(lines[l], q + 1, [lines[l][q]]) {
      TakenDelimits(lines, l, p, q);
    }
  }

  /** A text behind which ) closes ( is balanced. */
  lemma UnclosedBalanced(t: string)
    requires Match(t + ")", ['(']) == Some(|t|)
    ensures Balanced(t)
  {
    hide Match, Balanced;
    var text := "(" + (t + ")");
    assert text[1..] == t + ")";
    MatchFindsPair(text, 0, |t| + 1);
    assert text[1..|t| + 1] == t;
  }

  lemma BalancedBehind(c: char, t: string)
    requires !IsBracket(c) && Balanced(t)
    ensures Balanced([c] + t)
  {
    var d :| Good(d) && Text(d) == t;
    BalancedWith(Plain(c, d));
  }
}
