/** When the search for the other end of a template argument list succeeds: from a `<` to its `>` and from the
    `>` back to its `<`, past bracketed groups with anything in them, nested lists, arrows, shifts and operators. */
module TemplateSearch {
  import opened Ascii
  import opened Brackets
  import opened CloseExpression
  import opened BracketSearch
  import opened AngleSearch
  import opened Options

  /** The text between the two ends of a list, piece by piece: a character, a group of brackets of the given
      width, a nested list, or two characters that are one operator. */
  datatype Args = End | Char(rest: Args) | Group(width: nat, rest: Args) | Nested(inner: Args, rest: Args) | Operator(rest: Args)

  function Width(d: Args): nat {
    match d
    case End => 0
    case Char(rest) => 1 + Width(rest)
    case Group(w, rest) => w + Width(rest)
    case Nested(inner, rest) => 2 + Width(inner) + Width(rest)
    case Operator(rest) => 2 + Width(rest)
  }

  predicate IsPlainChar(c: char) { !IsBracket(c) && !IsAngle(c) && c != ';' }

  // ---------- Forward ----------

  /** A `>` that closes: not the end of an arrow, nor behind `operator` and one more character. */
  predicate ClosesAngle(line: string, p: nat)
    requires p < |line|
  {
    line[p] == '>' && (p > 0 ==> line[p - 1] != '-' && !EndsInOperator(line[..p - 1]))
  }

  /** An angle bracket that forward search passes over. */
  predicate PassedOver(line: string, p: nat)
    requires p < |line|
  {
    || (line[p] == '<' && p > 0 && line[p - 1] != '<' && EndsInOperator(line[..p]))
    || (line[p] == '>' && !ClosesAngle(line, p))
  }

  /** From `i` on the line spells `d`. */
  ghost predicate Spells(line: string, i: nat, d: Args)
    decreases d
  {
    match d
    case End => i <= |line|
    case Char(rest) => i < |line| && (IsPlainChar(line[i]) || PassedOver(line, i)) && Spells(line, i + 1, rest)
    case Group(w, rest) => w > 0 && IsPair(line, i, i + w - 1) && Spells(line, i + w, rest)
    case Nested(inner, rest) =>
      var e := i + 1 + Width(inner);
      i < e < |line| && OpensAngle(line, i) && Spells(line, i + 1, inner) && ClosesAngle(line, e) && Spells(line, e + 1, rest)
    case Operator(rest) => i + 1 < |line| && OpensAngle(line, i) && line[i + 1] == '<' && Spells(line, i + 2, rest)
  }

  lemma DropTopAbove(base: seq<char>, stack: seq<char>, c: char)
    requires stack != [] && stack[0] != c
    ensures DropTop(base + stack, c) == base + DropTop(stack, c) && DropTop(stack, c) != []
    decreases |stack|
  {
    assert Top(base + stack) == Top(stack);
    if Top(stack) == c {
      assert Pop(base + stack) == base + Pop(stack) && Pop(stack)[0] == stack[0];
      DropTopAbove(base, Pop(stack), c);
    }
  }

  lemma PushAbove(base: seq<char>, stack: seq<char>, c: char)
    ensures base + (stack + [c]) == base + stack + [c]
    ensures stack != [] ==> Pop(base + stack) == base + Pop(stack) && Top(base + stack) == Top(stack)
    ensures |stack| == 1 ==> base + Pop(stack) == base
  {
  }

  /** What lies under an open bracket is not looked at until that bracket is closed. */
  lemma ForwardStepAbove(line: string, i: nat, base: seq<char>, stack: seq<char>)
    requires i < |line| && base != [] && Rooted(stack, '<')
    ensures match ForwardStep(line, i, stack)
            case Going(s) => Rooted(s, '<') && ForwardStep(line, i, base + stack) == Going(base + s)
            case Found(p) => p == i + 1 && ForwardStep(line, i, base + stack) == Going(base)
            case Stuck => true
  {
    hide EndsInOperator, Rooted, DropTop;
    var c, s := line[i], DropTop(stack, '<');
    RootedParts(stack, '<');
    DropTopAbove(base, stack, '<');
    PushAbove(base, stack, c);
    PushAbove(base, s, c);
    if IsOpen(c) || c == '<' { RootedPush(stack, '<', c); }
    RootedDrop(stack, '<');
    RootedParts(s, '<');
  }

  lemma RootedParts(stack: seq<char>, angle: char)
    requires Rooted(stack, angle)
    ensures stack != [] && stack[0] != angle && (|stack| > 1 ==> Rooted(Pop(stack), angle)) && (|stack| == 1 ==> Top(stack) != angle)
  {
  }

  lemma {:induction false} RootedDrop(stack: seq<char>, angle: char)
    requires Rooted(stack, angle)
    ensures Rooted(DropTop(stack, angle), angle)
    decreases |stack|
  {
    if Top(stack) == angle { RootedDrop(Pop(stack), angle); }
  }

  lemma {:induction false} ScanForwardAbove(line: string, i: nat, base: seq<char>, stack: seq<char>)
    requires i <= |line| && base != [] && Rooted(stack, '<') && ScanForward(line, i, stack).Found?
    ensures ScanForward(line, i, stack).pos <= |line|
    ensures ScanForward(line, i, base + stack) == ScanForward(line, ScanForward(line, i, stack).pos, base)
    decreases |line| - i
  {
    hide ForwardStep, Rooted;
    ForwardStepAbove(line, i, base, stack);
    match ForwardStep(line, i, stack)
    case Going(s) => ScanForwardAbove(line, i + 1, base, s);
    case _ =>
  }

  /** The plain fact on one line: behind the opener of a pair the scan finds its closer. */
  lemma PairIsFound(line: string, i: nat, j: nat)
    requires IsPair(line, i, j)
    ensures ScanForward(line, i + 1, [line[i]]) == Found(j + 1)
  {
    hide ScanForward, IsPair;
    PairBounds(line, i, j);
    OneLineFindsPair(line, i, j);
    CloseStarts([line], 0, i);
  }

  lemma PairBounds(line: string, i: nat, j: nat)
    requires IsPair(line, i, j)
    ensures i < j < |line| && IsOpen(line[i]) && IsClose(line[j])
  {
  }

  lemma GroupPasses(line: string, i: nat, w: nat, stack: seq<char>)
    requires w > 0 && IsPair(line, i, i + w - 1) && stack != []
    ensures i + w <= |line| && ScanForward(line, i, stack) == ScanForward(line, i + w, stack)
  {
    hide IsPair;
    PairBounds(line, i, i + w - 1);
    PairIsFound(line, i, i + w - 1);
    assert Rooted([line[i]], '<');
    ScanForwardAbove(line, i + 1, stack, [line[i]]);
    Pushes(line, i, stack);
  }

  lemma Pushes(line: string, i: nat, stack: seq<char>)
    requires i < |line|
    ensures IsOpen(line[i]) || OpensAngle(line, i) ==> ForwardStep(line, i, stack) == Going(stack + [line[i]])
    ensures stack != [] && (IsPlainChar(line[i]) || PassedOver(line, i)) ==> ForwardStep(line, i, stack) == Going(stack)
    ensures stack != [] && ClosesAngle(line, i) ==> ForwardStep(line, i, stack + ['<']) == Going(stack)
    ensures ClosesAngle(line, i) ==> ForwardStep(line, i, ['<']) == Found(i + 1)
    ensures i > 0 && line[i] == '<' && line[i - 1] == '<' && stack != [] ==> ForwardStep(line, i, stack + ['<']) == Going(stack)
  {
    hide EndsInOperator;
    assert Pop(stack + ['<']) == stack;
  }

  /** The same, of the whole scan. */
  lemma ScansOn(line: string, i: nat, stack: seq<char>)
    requires i < |line| && stack != []
    ensures IsOpen(line[i]) || OpensAngle(line, i) ==> ScanForward(line, i, stack) == ScanForward(line, i + 1, stack + [line[i]])
    ensures OpensAngle(line, i) ==> ScanForward(line, i, stack) == ScanForward(line, i + 1, stack + ['<'])
    ensures IsPlainChar(line[i]) || PassedOver(line, i) ==> ScanForward(line, i, stack) == ScanForward(line, i + 1, stack)
    ensures ClosesAngle(line, i) ==> ScanForward(line, i, stack + ['<']) == ScanForward(line, i + 1, stack)
    ensures i > 0 && line[i] == '<' && line[i - 1] == '<' ==> ScanForward(line, i, stack + ['<']) == ScanForward(line, i + 1, stack)
  {
    hide ForwardStep, OpensAngle, ClosesAngle, PassedOver, IsPlainChar;
    Pushes(line, i, stack);
    if OpensAngle(line, i) { AngleChar(line, i); }
  }

  lemma SpellsParts(line: string, i: nat, d: Args)
    ensures Spells(line, i, d) <==>
            match d
            case End => i <= |line|
            case Char(rest) => i < |line| && (IsPlainChar(line[i]) || PassedOver(line, i)) && Spells(line, i + 1, rest)
            case Group(w, rest) => w > 0 && IsPair(line, i, i + w - 1) && Spells(line, i + w, rest)
            case Nested(inner, rest) =>
              var e := i + 1 + Width(inner);
              i < e < |line| && OpensAngle(line, i) && Spells(line, i + 1, inner) && ClosesAngle(line, e) && Spells(line, e + 1, rest)
            case Operator(rest) => i + 1 < |line| && OpensAngle(line, i) && line[i + 1] == '<' && Spells(line, i + 2, rest)
  {
    hide IsPair, OpensAngle, ClosesAngle, PassedOver, IsPlainChar;
  }

  /** Arguments leave the stack as it was. */
  lemma {:induction false} ArgsPass(line: string, i: nat, d: Args, m: nat, stack: seq<char>)
    requires Spells(line, i, d) && stack != [] && m == i + Width(d)
    ensures m <= |line| && ScanForward(line, i, stack) == ScanForward(line, m, stack)
    decreases d
  {
    hide Spells, ScanForward, IsPair, OpensAngle, ClosesAngle, PassedOver, IsPlainChar;
    SpellsParts(line, i, d);
    match d
    case End =>
    case Char(rest) =>
      ScansOn(line, i, stack);
      ArgsPass(line, i + 1, rest, m, stack);
    case Group(w, rest) =>
      GroupPasses(line, i, w, stack);
      ArgsPass(line, i + w, rest, m, stack);
    case Nested(inner, rest) =>
      var e := i + 1 + Width(inner);
      ScansOn(line, i, stack);
      ArgsPass(line, i + 1, inner, e, stack + ['<']);
      ScansOn(line, e, stack);
      ArgsPass(line, e + 1, rest, m, stack);
    case Operator(rest) =>
      AngleChar(line, i);
      ScansOn(line, i, stack);
      ScansOn(line, i + 1, stack);
      ArgsPass(line, i + 2, rest, m, stack);
  }

  lemma AngleChar(line: string, i: nat)
    requires i < |line| && OpensAngle(line, i)
    ensures line[i] == '<'
  {
  }

  lemma CloseStartsAngle(lines: seq<string>, l: nat, p: nat)
    requires l < |lines| && p < |lines[l]| && OpensAngle(lines[l], p) && !IsShiftOrLessEqual(lines[l], p)
    ensures Close(lines, l, p) == CloseFrom(lines, l, p + 1, ['<'])
  {
    hide EndsInOperator;
    assert [] + ['<'] == ['<'];
    assert ForwardStep(lines[l], p, []) == Going(['<']);
  }

  /** A template argument list is closed at its end. */
  lemma ListCloses(lines: seq<string>, l: nat, p: nat, d: Args)
    requires l < |lines| && p < |lines[l]| && OpensAngle(lines[l], p) && !IsShiftOrLessEqual(lines[l], p)
    requires Spells(lines[l], p + 1, d) && p + 1 + Width(d) < |lines[l]|
    ensures var e := p + 1 + Width(d);
            && (ClosesAngle(lines[l], e) ==> Close(lines, l, p) == Place(lines[l], l, e + 1))
            && (lines[l][e] == ';' || IsClose(lines[l][e]) ==> Nowhere(Close(lines, l, p)))
  {
    hide ForwardStep, OpensAngle, ClosesAngle, IsShiftOrLessEqual, Spells, Close;
    CloseStartsAngle(lines, l, p);
    ArgsPass(lines[l], p + 1, d, p + 1 + Width(d), ['<']);
    var e := p + 1 + Width(d);
    Pushes(lines[l], e, []);
    GivesUp(lines[l], e);
  }

  lemma GivesUp(line: string, e: nat)
    requires e < |line|
    ensures line[e] == ';' || IsClose(line[e]) ==> ForwardStep(line, e, ['<']) == Stuck
  {
    assert Pop(['<']) == [];
  }

  /** From line to line: a list whose arguments fill line `l` is closed where the next lines close it. */
  lemma ListContinues(lines: seq<string>, l: nat, i: nat, d: Args, stack: seq<char>)
    requires l + 1 < |lines| && i <= |lines[l]| && Spells(lines[l], i, d) && i + Width(d) == |lines[l]| && stack != []
    ensures CloseFrom(lines, l, i, stack) == CloseFrom(lines, l + 1, 0, stack)
  {
    ArgsPass(lines[l], i, d, |lines[l]|, stack);
  }

  ghost predicate NoAngles(s: string) { forall c | c in s :: !IsAngle(c) && c != ';' }

  lemma SliceParts(line: string, i: nat, a: string, b: string)
    requires i + |a| + |b| <= |line| && line[i..i + |a| + |b|] == a + b
    ensures line[i..i + |a|] == a && line[i + |a|..i + |a| + |b|] == b
  {
    var t := line[i..i + |a| + |b|];
    assert t[..|a|] == line[i..i + |a|] && t[|a|..] == line[i + |a|..i + |a| + |b|];
  }

  lemma GroupParts(line: string, i: nat, o: char, inner: string, rest: string)
    requires i + |inner| + 2 + |rest| <= |line| && line[i..i + |inner| + 2 + |rest|] == [o] + (inner + ([Flip(o)] + rest))
    ensures line[i] == o && line[i + 1..i + 1 + |inner|] == inner && line[i + 1 + |inner|] == Flip(o)
    ensures line[i + |inner| + 2..i + |inner| + 2 + |rest|] == rest
  {
    SliceParts(line, i, [o], inner + ([Flip(o)] + rest));
    SliceParts(line, i + 1, inner, [Flip(o)] + rest);
    SliceParts(line, i + 1 + |inner|, [Flip(o)], rest);
    assert line[i] == line[i..i + 1][0] && line[i + 1 + |inner|] == line[i + 1 + |inner|..i + 2 + |inner|][0];
  }

  lemma NoAnglesParts(a: string, b: string)
    requires NoAngles(a + b)
    ensures NoAngles(a) && NoAngles(b)
  {
    assert forall c | c in a || c in b :: c in a + b;
  }

  lemma CharSpells(line: string, i: nat, c: char, rest: Args)
    requires i < |line| && line[i] == c && !IsBracket(c) && NoAngles([c])
    ensures Spells(line, i + 1, rest) ==> Spells(line, i, Char(rest)) && Width(Char(rest)) == 1 + Width(rest)
    ensures SpellsBack(line, i + 1, Char(End)) && Width(Char(End)) == 1
  {
    assert c in [c];
  }

  lemma GroupSpells(line: string, i: nat, w: nat, rest: Args)
    requires w > 1 && IsPair(line, i, i + w - 1)
    ensures Spells(line, i + w, rest) ==> Spells(line, i, Args.Group(w, rest)) && Width(Args.Group(w, rest)) == w + Width(rest)
    ensures SpellsBack(line, i + w, Args.Group(w, End)) && Width(Args.Group(w, End)) == w
  {
    hide IsPair;
    PairBounds(line, i, i + w - 1);
  }

  /** Text without angle brackets and semicolons, balanced in ( [ and {, is an argument list, read either way. */
  lemma {:induction false} PlainArgs(line: string, i: nat, d: Doc) returns (a: Args, back: Args)
    requires Good(d) && i + |Text(d)| <= |line| && line[i..i + |Text(d)|] == Text(d) && NoAngles(Text(d))
    ensures Spells(line, i, a) && Width(a) == |Text(d)|
    ensures SpellsBack(line, i + |Text(d)|, back) && Width(back) == |Text(d)|
    decreases d
  {
    hide Spells, SpellsBack, NoAngles, IsPair, Balanced, Before, Width;
    match d
    case Empty =>
      a, back := End, End;
      EndSpells(line, i);
    case Plain(c, rest) =>
      SliceParts(line, i, [c], Text(rest));
      assert line[i] == line[i..i + 1][0] == c;
      NoAnglesParts([c], Text(rest));
      var b, before := PlainArgs(line, i + 1, rest);
      CharSpells(line, i, c, b);
      BeforeSpells(line, i + |Text(d)|, before, i + 1, Char(End));
      a, back := Char(b), Before(before, Char(End));
    case Group(o, inner, rest) =>
      BalancedWith(inner);
      GroupAt(line, i, o, Text(inner), Text(rest));
      var w := |Text(inner)| + 2;
      var b, before := PlainArgs(line, i + w, rest);
      GroupSpells(line, i, w, b);
      BeforeSpells(line, i + |Text(d)|, before, i + w, Args.Group(w, End));
      a, back := Args.Group(w, b), Before(before, Args.Group(w, End));
  }

  lemma GroupAt(line: string, i: nat, o: char, inner: string, rest: string)
    requires IsOpen(o) && Balanced(inner) && NoAngles([o] + (inner + ([Flip(o)] + rest)))
    requires i + |inner| + 2 + |rest| <= |line| && line[i..i + |inner| + 2 + |rest|] == [o] + (inner + ([Flip(o)] + rest))
    ensures IsPair(line, i, i + |inner| + 1) && NoAngles(rest)
    ensures line[i + |inner| + 2..i + |inner| + 2 + |rest|] == rest
  {
    hide NoAngles, Balanced, Flip, IsPair;
    GroupParts(line, i, o, inner, rest);
    GroupIsPair(line, i, inner, o);
    Associate([o], inner, [Flip(o)] + rest);
    Associate([o] + inner, [Flip(o)], rest);
    NoAnglesParts([o] + inner + [Flip(o)], rest);
  }

  lemma EndSpells(line: string, i: nat)
    requires i <= |line|
    ensures Spells(line, i, End) && SpellsBack(line, i, End) && Width(End) == 0
  {
  }

  lemma GroupIsPair(line: string, i: nat, inner: string, o: char)
    requires i + |inner| + 1 < |line| && IsOpen(o) && Balanced(inner)
    requires line[i] == o && line[i + 1..i + 1 + |inner|] == inner && line[i + 1 + |inner|] == Flip(o)
    ensures IsPair(line, i, i + |inner| + 1)
  {
  }

  lemma DocOf(s: string) returns (d: Doc)
    requires Balanced(s)
    ensures Good(d) && Text(d) == s
  {
    d :| Good(d) && Text(d) == s;
  }

  /** The plain case: between a `<` and a `>` of a line nothing but text without angle brackets and semicolons,
      balanced in ( [ and {. */
  lemma PlainListCloses(lines: seq<string>, l: nat, i: nat, j: nat)
    requires l < |lines| && i < j < |lines[l]|
    requires OpensAngle(lines[l], i) && !IsShiftOrLessEqual(lines[l], i) && ClosesAngle(lines[l], j)
    requires Balanced(lines[l][i + 1..j]) && NoAngles(lines[l][i + 1..j])
    ensures Close(lines, l, i) == Place(lines[l], l, j + 1)
  {
    hide Close, OpensAngle, ClosesAngle, IsShiftOrLessEqual, Spells, NoAngles, Good, Text, Balanced, Width;
    var d := DocOf(lines[l][i + 1..j]);
    var a, _ := PlainArgs(lines[l], i + 1, d);
    ListCloses(lines, l, i, a);
  }

  // ---------- Backward ----------

  /** Backward search takes the `>` at `p` for a bracket, not for the end of an arrow, a comparison or an operator. */
  predicate OpensBackward(line: string, p: nat)
    requires p < |line|
  {
    line[p] == '>' && (p > 0 ==> line[p - 1] != '-' && !IsSpacedGreaterEqual(line, p) && !EndsInOperator(line[..p]))
  }

  predicate ClosesBackward(line: string, p: nat)
    requires p < |line|
  {
    line[p] == '<' && (p > 0 ==> line[p - 1] != '<')
  }

  /** Read from its end at `n` back, the line spells `d`; an operator is two characters the search steps over. */
  ghost predicate SpellsBack(line: string, n: nat, d: Args)
    decreases d
  {
    n <= |line| &&
    match d
    case End => true
    case Char(rest) => n > 0 && IsPlainChar(line[n - 1]) && SpellsBack(line, n - 1, rest)
    case Group(w, rest) => 0 < w <= n && IsPair(line, n - w, n - 1) && SpellsBack(line, n - w, rest)
    case Nested(inner, rest) =>
      && n >= Width(inner) + 2 && OpensBackward(line, n - 1) && SpellsBack(line, n - 1, inner)
      && ClosesBackward(line, n - 2 - Width(inner)) && SpellsBack(line, n - 2 - Width(inner), rest)
    case Operator(rest) => n > 1 && BackwardMove(line, n - 1) == 2 && SpellsBack(line, n - 2, rest)
  }

  lemma SpellsBackParts(line: string, n: nat, d: Args)
    ensures SpellsBack(line, n, d) <==>
            n <= |line| &&
            match d
            case End => true
            case Char(rest) => n > 0 && IsPlainChar(line[n - 1]) && SpellsBack(line, n - 1, rest)
            case Group(w, rest) => 0 < w <= n && IsPair(line, n - w, n - 1) && SpellsBack(line, n - w, rest)
            case Nested(inner, rest) =>
              && n >= Width(inner) + 2 && OpensBackward(line, n - 1) && SpellsBack(line, n - 1, inner)
              && ClosesBackward(line, n - 2 - Width(inner)) && SpellsBack(line, n - 2 - Width(inner), rest)
            case Operator(rest) => n > 1 && BackwardMove(line, n - 1) == 2 && SpellsBack(line, n - 2, rest)
  {
    hide IsPair, OpensBackward, ClosesBackward, IsPlainChar, BackwardMove;
  }

  /** A stack of closers in front of which `>` may pile up, bottom first. */
  ghost predicate CloserRooted(stack: seq<char>) {
    stack != [] && IsClose(stack[0]) && forall i | 0 <= i < |stack| :: IsClose(stack[i]) || stack[i] == '>'
  }

  lemma CloserParts(stack: seq<char>)
    requires CloserRooted(stack)
    ensures stack != [] && stack[0] != '>' && (|stack| > 1 ==> CloserRooted(Pop(stack))) && (|stack| == 1 ==> Top(stack) != '>')
  {
  }

  lemma CloserPush(stack: seq<char>, c: char)
    requires CloserRooted(stack) && (IsClose(c) || c == '>')
    ensures CloserRooted(stack + [c])
  {
  }

  lemma {:induction false} CloserDrop(stack: seq<char>)
    requires CloserRooted(stack)
    ensures CloserRooted(DropTop(stack, '>'))
    decreases |stack|
  {
    if Top(stack) == '>' { CloserDrop(Pop(stack)); }
  }

  lemma BackwardStepAbove(line: string, i: nat, base: seq<char>, stack: seq<char>)
    requires i < |line| && base != [] && CloserRooted(stack)
    ensures match BackwardStep(line, i, stack)
            case Going(s) => CloserRooted(s) && BackwardStep(line, i, base + stack) == Going(base + s)
            case Found(p) => p == i && BackwardMove(line, i) == 1 && BackwardStep(line, i, base + stack) == Going(base)
            case Stuck => true
  {
    hide EndsInOperator, IsSpacedGreaterEqual, CloserRooted, DropTop;
    var c, s := line[i], DropTop(stack, '>');
    CloserParts(stack);
    DropTopAbove(base, stack, '>');
    PushAbove(base, stack, c);
    PushAbove(base, s, c);
    if IsClose(c) || c == '>' { CloserPush(stack, c); }
    CloserDrop(stack);
    CloserParts(s);
  }

  lemma {:induction false} ScanBackwardAbove(line: string, n: nat, base: seq<char>, stack: seq<char>)
    requires n <= |line| && base != [] && CloserRooted(stack) && ScanBackward(line, n, stack).Found?
    ensures ScanBackward(line, n, stack).pos <= |line|
    ensures ScanBackward(line, n, base + stack) == ScanBackward(line, ScanBackward(line, n, stack).pos, base)
    decreases n
  {
    hide BackwardStep, CloserRooted, BackwardMove;
    BackwardStepAbove(line, n - 1, base, stack);
    match BackwardStep(line, n - 1, stack)
    case Going(s) => ScanBackwardAbove(line, n - BackwardMove(line, n - 1), base, s);
    case _ =>
  }

  lemma PairIsFoundBack(line: string, i: nat, j: nat)
    requires IsPair(line, i, j)
    ensures ScanBackward(line, j, [line[j]]) == Found(i)
  {
    hide ScanBackward, IsPair, ReverseClose;
    PairBounds(line, i, j);
    assert Joined([line]) == line + "" == line;
    ReverseFindsPair([line], 0, j, i);
    ReverseStarts([line], 0, j);
  }

  lemma GroupPassesBack(line: string, n: nat, w: nat, stack: seq<char>)
    requires 0 < w <= n <= |line| && IsPair(line, n - w, n - 1) && stack != []
    ensures ScanBackward(line, n, stack) == ScanBackward(line, n - w, stack)
  {
    hide IsPair;
    PairBounds(line, n - w, n - 1);
    PairIsFoundBack(line, n - w, n - 1);
    assert CloserRooted([line[n - 1]]);
    ScanBackwardAbove(line, n - 1, stack, [line[n - 1]]);
    PushesBack(line, n - 1, stack);
  }

  lemma PushesBack(line: string, i: nat, stack: seq<char>)
    requires i < |line|
    ensures IsClose(line[i]) || OpensBackward(line, i) ==> BackwardStep(line, i, stack) == Going(stack + [line[i]]) && BackwardMove(line, i) == 1
    ensures stack != [] && IsPlainChar(line[i]) ==> BackwardStep(line, i, stack) == Going(stack) && BackwardMove(line, i) == 1
    ensures stack != [] && ClosesBackward(line, i) ==> BackwardStep(line, i, stack + ['>']) == Going(stack) && BackwardMove(line, i) == 1
    ensures ClosesBackward(line, i) ==> BackwardStep(line, i, ['>']) == Found(i)
    ensures BackwardMove(line, i) == 2 ==> BackwardStep(line, i, stack) == Going(stack)
  {
    hide EndsInOperator, IsSpacedGreaterEqual;
    assert Pop(stack + ['>']) == stack;
  }

  /** The same, of the whole scan. */
  lemma ScansBackOn(line: string, n: nat, stack: seq<char>)
    requires 0 < n <= |line| && stack != []
    ensures IsClose(line[n - 1]) || OpensBackward(line, n - 1) ==>
              ScanBackward(line, n, stack) == ScanBackward(line, n - 1, stack + [line[n - 1]])
    ensures OpensBackward(line, n - 1) ==> ScanBackward(line, n, stack) == ScanBackward(line, n - 1, stack + ['>'])
    ensures IsPlainChar(line[n - 1]) ==> ScanBackward(line, n, stack) == ScanBackward(line, n - 1, stack)
    ensures ClosesBackward(line, n - 1) ==> ScanBackward(line, n, stack + ['>']) == ScanBackward(line, n - 1, stack)
    ensures BackwardMove(line, n - 1) == 2 ==> n > 1 && ScanBackward(line, n, stack) == ScanBackward(line, n - 2, stack)
  {
    hide BackwardStep, BackwardMove, OpensBackward, ClosesBackward, IsPlainChar;
    PushesBack(line, n - 1, stack);
    if OpensBackward(line, n - 1) { BackwardChar(line, n - 1); }
  }

  lemma {:induction false} ArgsPassBack(line: string, n: nat, d: Args, m: int, stack: seq<char>)
    requires SpellsBack(line, n, d) && stack != [] && m == n - Width(d)
    ensures 0 <= m <= n <= |line| && ScanBackward(line, n, stack) == ScanBackward(line, m, stack)
    decreases d
  {
    hide SpellsBack, ScanBackward, BackwardMove, IsPair, OpensBackward, ClosesBackward, IsPlainChar;
    SpellsBackParts(line, n, d);
    match d
    case End =>
    case Char(rest) =>
      ScansBackOn(line, n, stack);
      ArgsPassBack(line, n - 1, rest, m, stack);
    case Group(w, rest) =>
      GroupPassesBack(line, n, w, stack);
      ArgsPassBack(line, n - w, rest, m, stack);
    case Nested(inner, rest) =>
      var b := n - 1 - Width(inner);
      ScansBackOn(line, n, stack);
      ArgsPassBack(line, n - 1, inner, b, stack + ['>']);
      ScansBackOn(line, b, stack);
      ArgsPassBack(line, b - 1, rest, m, stack);
    case Operator(rest) =>
      ScansBackOn(line, n, stack);
      ArgsPassBack(line, n - 2, rest, m, stack);
  }

  lemma BackwardChar(line: string, p: nat)
    requires p < |line| && OpensBackward(line, p)
    ensures line[p] == '>'
  {
  }

  lemma ReverseStartsAngle(lines: seq<string>, l: nat, p: nat)
    requires l < |lines| && p < |lines[l]| && OpensBackward(lines[l], p)
    ensures ReverseClose(lines, l, p) == OpenFrom(lines, l, p, ['>'])
  {
    hide EndsInOperator, IsSpacedGreaterEqual;
    assert [] + ['>'] == ['>'];
    assert BackwardStep(lines[l], p, []) == Going(['>']) && BackwardMove(lines[l], p) == 1;
  }

  /** From the `>` of a template argument list the search goes back to its `<`. */
  lemma ListOpens(lines: seq<string>, l: nat, p: nat, d: Args)
    requires l < |lines| && p < |lines[l]| && OpensBackward(lines[l], p)
    requires SpellsBack(lines[l], p, d) && Width(d) < p
    ensures var b := p - 1 - Width(d);
            && (ClosesBackward(lines[l], b) ==> ReverseClose(lines, l, p) == Place(lines[l], l, b))
            && (lines[l][b] == ';' || IsOpen(lines[l][b]) ==> Nowhere(ReverseClose(lines, l, p)))
  {
    hide BackwardStep, OpensBackward, ClosesBackward, SpellsBack, ReverseClose;
    ReverseStartsAngle(lines, l, p);
    ArgsPassBack(lines[l], p, d, p - Width(d), ['>']);
    var b := p - 1 - Width(d);
    PushesBack(lines[l], b, []);
    GivesUpBack(lines[l], b);
  }

  lemma GivesUpBack(line: string, b: nat)
    requires b < |line|
    ensures line[b] == ';' || IsOpen(line[b]) ==> BackwardStep(line, b, ['>']) == Stuck
  {
    assert Pop(['>']) == [];
  }

  lemma ListContinuesBack(lines: seq<string>, l: nat, n: nat, d: Args, stack: seq<char>)
    requires 0 < l < |lines| && n <= |lines[l]| && SpellsBack(lines[l], n, d) && Width(d) == n && stack != []
    ensures OpenFrom(lines, l, n, stack) == OpenFrom(lines, l - 1, |lines[l - 1]|, stack)
  {
    ArgsPassBack(lines[l], n, d, 0, stack);
  }

  /** The pieces of `e` standing in front of those of `d`, read backwards. */
  function Before(d: Args, e: Args): Args {
    match d
    case End => e
    case Char(rest) => Char(Before(rest, e))
    case Group(w, rest) => Args.Group(w, Before(rest, e))
    case Nested(inner, rest) => Nested(inner, Before(rest, e))
    case Operator(rest) => Operator(Before(rest, e))
  }

  lemma {:induction false} BeforeSpells(line: string, n: nat, d: Args, m: nat, e: Args)
    requires SpellsBack(line, n, d) && m == n - Width(d) && SpellsBack(line, m, e)
    ensures SpellsBack(line, n, Before(d, e)) && Width(Before(d, e)) == n - m + Width(e)
    decreases d
  {
    hide SpellsBack, IsPair, IsPlainChar, OpensBackward, ClosesBackward, BackwardMove;
    SpellsBackParts(line, n, d);
    match d
    case End =>
    case Char(rest) =>
      BeforeSpells(line, n - 1, rest, m, e);
      SpellsBackParts(line, n, Char(Before(rest, e)));
    case Group(w, rest) =>
      BeforeSpells(line, n - w, rest, m, e);
      SpellsBackParts(line, n, Args.Group(w, Before(rest, e)));
    case Nested(inner, rest) =>
      BeforeSpells(line, n - 2 - Width(inner), rest, m, e);
      SpellsBackParts(line, n, Nested(inner, Before(rest, e)));
    case Operator(rest) =>
      BeforeSpells(line, n - 2, rest, m, e);
      SpellsBackParts(line, n, Operator(Before(rest, e)));
  }

  /** The plain case, back from the `>`. */
  lemma PlainListOpens(lines: seq<string>, l: nat, i: nat, j: nat)
    requires l < |lines| && i < j < |lines[l]|
    requires ClosesBackward(lines[l], i) && OpensBackward(lines[l], j)
    requires Balanced(lines[l][i + 1..j]) && NoAngles(lines[l][i + 1..j])
    ensures ReverseClose(lines, l, j) == Place(lines[l], l, i)
  {
    hide ReverseClose, OpensBackward, ClosesBackward, SpellsBack, NoAngles, Good, Text, Balanced, Width;
    var d := DocOf(lines[l][i + 1..j]);
    var _, a := PlainArgs(lines[l], i + 1, d);
    ListOpens(lines, l, j, a);
  }
}
