/** The angle-bracket guesses never move or lose the close of a ( [ or {: over many lines, forward and
    backward search find exactly the balanced pairs of the joined text, so each undoes the other. */
module BracketSearch {
  import opened Brackets
  import opened CloseExpression
  import opened Options

  function Joined(lines: seq<string>): string {
    if lines == [] then "" else lines[0] + Joined(lines[1..])
  }

  /** Where line `l` starts in the joined text. */
  function Offset(lines: seq<string>, l: nat): nat
    requires l <= |lines|
  {
    if l == 0 then 0 else Offset(lines, l - 1) + |lines[l - 1]|
  }

  // ---------- Stacks without their angle brackets ----------

  predicate IsAngle(c: char) { c == '<' || c == '>' }

  function Strip(stack: seq<char>): seq<char> {
    if stack == [] then []
    else if IsAngle(Top(stack)) then Strip(Pop(stack))
    else Strip(Pop(stack)) + [Top(stack)]
  }

  function Flipped(stack: seq<char>): seq<char> { seq(|stack|, i requires 0 <= i < |stack| => Flip(stack[i])) }

  /** The bottom of the stack is an opener, above it are openers and `angle`. */
  predicate Rooted(stack: seq<char>, angle: char) {
    && IsAngle(angle) && stack != [] && IsOpen(stack[0])
    && forall i | 0 <= i < |stack| :: IsOpen(stack[i]) || stack[i] == angle
  }

  lemma {:induction false} StripRooted(stack: seq<char>, angle: char)
    requires Rooted(stack, angle)
    ensures Strip(stack) != [] && Openers(Strip(stack))
    ensures Top(stack) != angle ==> Strip(stack) == Strip(Pop(stack)) + [Top(stack)] && (|stack| == 1 <==> |Strip(stack)| == 1)
    ensures Top(stack) != angle && |stack| > 1 ==> Rooted(Pop(stack), angle)
    ensures Top(stack) == angle ==> Rooted(Pop(stack), angle) && Strip(Pop(stack)) == Strip(stack)
    ensures Rooted(DropTop(stack, angle), angle) && Strip(DropTop(stack, angle)) == Strip(stack)
    decreases |stack|
  {
    if |stack| > 1 {
      assert Pop(stack)[0] == stack[0];
      StripRooted(Pop(stack), angle);
    } else {
      assert Strip(Pop(stack)) == [];
    }
  }

  lemma StripPush(stack: seq<char>, c: char)
    ensures Strip(stack + [c]) == if IsAngle(c) then Strip(stack) else Strip(stack) + [c]
  {
    assert Pop(stack + [c]) == stack;
  }

  // ---------- Forward ----------

  /** `r` is what the plain matcher makes of `c` with the angle brackets of `stack` taken away:
      `found` is the scanner's own name for the place of `c`. */
  ghost predicate StepMatches(r: Scan, c: char, stack: seq<char>, angle: char, found: nat)
    requires Strip(stack) != []
  {
    var plain := Strip(stack);
    if IsOpen(c) then r.Going? && Rooted(r.stack, angle) && Strip(r.stack) == plain + [c]
    else if IsClose(c) then
      if c != Flip(Top(plain)) then r.Stuck?
      else if |plain| == 1 then r == Found(found)
      else r.Going? && Rooted(r.stack, angle) && Strip(r.stack) == Pop(plain)
    else r.Going? && Rooted(r.stack, angle) && Strip(r.stack) == plain
  }

  lemma ForwardCloseMatches(line: string, i: nat, stack: seq<char>)
    requires i < |line| && Rooted(stack, '<') && IsClose(line[i])
    ensures Strip(stack) != [] && StepMatches(ForwardStep(line, i, stack), line[i], stack, '<', i + 1)
  {
    hide EndsInOperator, Flip, Strip, Rooted, DropTop;
    var s := DropTop(stack, '<');
    StripRooted(stack, '<');
    StripRooted(s, '<');
    RootedTop(s, '<');
    assert Pop(Strip(s)) == Strip(Pop(s)) && Top(Strip(s)) == Top(s);
    FlipPairs(line[i], Top(s));
  }

  lemma RootedTop(stack: seq<char>, angle: char)
    ensures Rooted(stack, angle) ==> stack != []
  {
  }

  lemma RootedPush(stack: seq<char>, angle: char, c: char)
    requires Rooted(stack, angle) && (IsOpen(c) || c == angle)
    ensures Rooted(stack + [c], angle)
  {
  }

  /** The bottom of a rooted stack is no angle bracket. */
  lemma RootedBottom(stack: seq<char>, angle: char)
    requires Rooted(stack, angle)
    ensures |stack| == 1 ==> Top(stack) != angle
  {
  }

  lemma ForwardStepMatches(line: string, i: nat, stack: seq<char>)
    requires i < |line| && Rooted(stack, '<')
    ensures Strip(stack) != [] && StepMatches(ForwardStep(line, i, stack), line[i], stack, '<', i + 1)
  {
    hide EndsInOperator, Flip, Strip, Rooted, DropTop;
    var c := line[i];
    if IsClose(c) {
      ForwardCloseMatches(line, i, stack);
    } else {
      StripRooted(stack, '<');
      RootedTop(stack, '<');
      RootedBottom(stack, '<');
      StripPush(stack, c);
      if IsOpen(c) || c == '<' { RootedPush(stack, '<', c); }
      RootedTop(DropTop(stack, '<'), '<');
    }
  }

  /** The same, in terms of the matcher on the text that starts with `c`. */
  lemma MatchStep(c: char, t: string, stack: seq<char>)
    requires stack != []
    ensures Match([c] + t, stack) ==
            if IsOpen(c) then Shift(Match(t, stack + [c]), 1)
            else if IsClose(c) then
              if c != Flip(Top(stack)) then None
              else if |stack| == 1 then Some(0) else Shift(Match(t, Pop(stack)), 1)
            else Shift(Match(t, stack), 1)
  {
    assert ([c] + t)[1..] == t;
  }

  lemma FlipPairs(c: char, o: char)
    ensures Flip(c) == o <==> c == Flip(o)
  {
  }

  lemma ShiftNone(r: Option<nat>)
    ensures Shift(r, 0) == r
  {
  }

  lemma ShiftTwice(r: Option<nat>, a: nat, b: nat)
    ensures Shift(Shift(r, a), b) == Shift(r, a + b)
  {
  }

  lemma {:induction false} ScanForwardMatches(line: string, i: nat, stack: seq<char>, rest: string)
    requires i <= |line| && Rooted(stack, '<')
    ensures var m := Match(line[i..] + rest, Strip(stack));
            match ScanForward(line, i, stack)
            case Found(p) => i < p <= |line| && m == Some(p - 1 - i)
            case Stuck => m == None
            case Going(s) => Rooted(s, '<') && m == Shift(Match(rest, Strip(s)), |line| - i)
    decreases |line| - i
  {
    hide Match, ForwardStep, Rooted, Strip;
    if i == |line| {
      assert line[i..] + rest == rest;
      ShiftNone(Match(rest, Strip(stack)));
    } else {
      ForwardStepMatches(line, i, stack);
      assert line[i..] + rest == [line[i]] + (line[i + 1..] + rest);
      MatchStep(line[i], line[i + 1..] + rest, Strip(stack));
      if ForwardStep(line, i, stack).Going? {
        var s := ForwardStep(line, i, stack).stack;
        ScanForwardMatches(line, i + 1, s, rest);
        if ScanForward(line, i + 1, s).Going? {
          ShiftTwice(Match(rest, Strip(ScanForward(line, i + 1, s).stack)), |line| - i - 1, 1);
        }
      }
    }
  }

  /** The place `r` is just behind offset `k` of the joined text. */
  ghost predicate Behind(lines: seq<string>, r: Place, k: nat) {
    && r.linenum < |lines| && r.line == lines[r.linenum] && 0 < r.pos <= |r.line|
    && Offset(lines, r.linenum) + r.pos - 1 == k
  }

  ghost predicate Nowhere(r: Place) { r.pos == -1 }

  lemma {:induction false} CloseFromMatches(lines: seq<string>, l: nat, i: nat, stack: seq<char>)
    requires l < |lines| && i <= |lines[l]| && Rooted(stack, '<')
    ensures match Match(lines[l][i..] + Joined(lines[l + 1..]), Strip(stack))
            case None => Nowhere(CloseFrom(lines, l, i, stack))
            case Some(k) => Behind(lines, CloseFrom(lines, l, i, stack), Offset(lines, l) + i + k)
    decreases |lines| - l
  {
    hide Match, Strip, ScanForward;
    ScanForwardMatches(lines[l], i, stack, Joined(lines[l + 1..]));
    if ScanForward(lines[l], i, stack).Going? {
      var s := ScanForward(lines[l], i, stack).stack;
      if l + 1 < |lines| {
        CloseFromMatches(lines, l + 1, 0, s);
        assert lines[l + 1..][1..] == lines[l + 2..] && lines[l + 1][0..] == lines[l + 1];
      } else {
        StripRooted(s, '<');
        assert Match("", Strip(s)) == None by { MatchNothing("", Strip(s)); }
      }
    }
  }

  lemma {:induction false} JoinedFrom(lines: seq<string>, l: nat)
    requires l < |lines|
    ensures Offset(lines, l) + |lines[l]| <= |Joined(lines)|
    ensures Joined(lines)[Offset(lines, l)..] == lines[l] + Joined(lines[l + 1..])
    decreases l
  {
    if l == 0 {
      assert Joined(lines)[0..] == Joined(lines);
    } else {
      JoinedFrom(lines, l - 1);
      var j, o := Joined(lines), Offset(lines, l - 1);
      assert lines[l - 1 + 1..][1..] == lines[l + 1..];
      assert lines[l..][0] == lines[l];
      assert j[o..] == lines[l - 1] + (lines[l] + Joined(lines[l + 1..]));
      assert j[Offset(lines, l)..] == j[o..][|lines[l - 1]|..] == lines[l] + Joined(lines[l + 1..]);
    }
  }

  /** The joined text at and behind a position. */
  lemma JoinedAt(lines: seq<string>, l: nat, p: nat)
    requires l < |lines| && p < |lines[l]|
    ensures var k := Offset(lines, l) + p;
            k < |Joined(lines)| && Joined(lines)[k] == lines[l][p]
            && Joined(lines)[k + 1..] == lines[l][p + 1..] + Joined(lines[l + 1..])
  {
    JoinedFrom(lines, l);
    var j, o := Joined(lines), Offset(lines, l);
    assert j[o..] == lines[l] + Joined(lines[l + 1..]);
    assert j[o + p + 1..] == j[o..][p + 1..];
    assert j[o + p] == j[o..][p];
  }

  /** Search from an opener is search behind it, with the opener on the stack. */
  lemma CloseStarts(lines: seq<string>, l: nat, p: nat)
    requires l < |lines| && p < |lines[l]| && IsOpen(lines[l][p])
    ensures Close(lines, l, p) == CloseFrom(lines, l, p + 1, [lines[l][p]])
    ensures Rooted([lines[l][p]], '<') && Strip([lines[l][p]]) == [lines[l][p]]
  {
    var o := lines[l][p];
    assert [] + [o] == [o];
    StripPush([], o);
    assert ForwardStep(lines[l], p, []) == Going([o]);
  }

  /** Forward search from a ( [ or { returns the place just behind its partner in the joined text, and
      nothing when it has none. */
  lemma CloseFindsPair(lines: seq<string>, l: nat, p: nat, k: nat)
    requires l < |lines| && p < |lines[l]| && IsOpen(lines[l][p])
    ensures Behind(lines, Close(lines, l, p), k) <==> IsPair(Joined(lines), Offset(lines, l) + p, k)
    ensures Nowhere(Close(lines, l, p)) <==> NeverClosed(Joined(lines), Offset(lines, l) + p)
  {
    hide Match, Strip, Joined, Offset, CloseFrom, Close, IsPair;
    var text, i, o := Joined(lines), Offset(lines, l) + p, lines[l][p];
    JoinedAt(lines, l, p);
    CloseStarts(lines, l, p);
    CloseFromMatches(lines, l, p + 1, [o]);
    MatchFindsPair(text, i, k);
    PairsAreMatches(text, i);
  }

  /** On a single line the search stops behind the end of the span that `GetTextInside` returns, and
      fails when it returns nothing. */
  lemma OneLineFindsPair(text: string, p: nat, q: nat)
    requires p < |text| && IsOpen(text[p])
    ensures Close([text], 0, p) == Place(text, 0, q + 1) <==> IsPair(text, p, q)
    ensures Nowhere(Close([text], 0, p)) <==> NeverClosed(text, p)
  {
    hide Close, IsPair;
    assert Joined([text]) == text + "" == text;
    CloseFindsPair([text], 0, p, q);
    if Close([text], 0, p) == Place(text, 0, q + 1) {
      var j: nat :| IsPair(text, p, j);
      CloseFindsPair([text], 0, p, j);
    }
  }

  // ---------- Backward ----------

  /** A backward scan in forward terms: the brackets on its stack exchanged for their partners. */
  function FlipScan(r: Scan): Scan { match r case Going(s) => Going(Flipped(s)) case _ => r }

  lemma FlippedParts(stack: seq<char>, c: char)
    ensures Flipped(stack + [c]) == Flipped(stack) + [Flip(c)]
    ensures stack != [] ==> Flipped(Pop(stack)) == Pop(Flipped(stack)) && Top(Flipped(stack)) == Flip(Top(stack))
  {
  }

  lemma {:induction false} FlippedDrop(stack: seq<char>)
    ensures Flipped(DropTop(stack, '>')) == DropTop(Flipped(stack), '>')
    decreases |stack|
  {
    if stack != [] {
      FlippedParts(stack, '>');
      FlippedDrop(Pop(stack));
      assert Top(stack) == '>' <==> Flip(Top(stack)) == '>';
    }
  }

  lemma BackwardOpenMatches(line: string, i: nat, stack: seq<char>)
    requires i < |line| && Rooted(Flipped(stack), '>') && IsOpen(line[i])
    ensures Strip(Flipped(stack)) != []
    ensures StepMatches(FlipScan(BackwardStep(line, i, stack)), Flip(line[i]), Flipped(stack), '>', i)
  {
    hide BackwardMove, Flipped;
    var c, s := line[i], DropTop(stack, '>');
    FlippedDrop(stack);
    StripRooted(Flipped(stack), '>');
    StripRooted(Flipped(s), '>');
    EmptyFlipped(s);
    FlippedParts(s, c);
    assert Top(Flipped(s)) == Flip(Top(s)) && Top(Flipped(s)) != '>';
    assert Pop(Strip(Flipped(s))) == Strip(Pop(Flipped(s))) && Top(Strip(Flipped(s))) == Top(Flipped(s));
    FlipTwice(Top(s));
    FlipTwice(c);
  }

  lemma BackwardStepMatches(line: string, i: nat, stack: seq<char>)
    requires i < |line| && Rooted(Flipped(stack), '>')
    ensures Strip(Flipped(stack)) != []
    ensures StepMatches(FlipScan(BackwardStep(line, i, stack)), Flip(line[i]), Flipped(stack), '>', i)
  {
    hide BackwardMove, Flipped;
    var c := line[i];
    StripRooted(Flipped(stack), '>');
    EmptyFlipped(stack);
    if IsOpen(c) {
      BackwardOpenMatches(line, i, stack);
    } else if IsClose(c) || c == '>' {
      FlippedParts(stack, c);
      StripPush(Flipped(stack), Flip(c));
    } else if c == '<' {
      FlippedParts(stack, c);
    } else if c == ';' {
      FlippedDrop(stack);
      EmptyFlipped(DropTop(stack, '>'));
    }
  }

  lemma EmptyFlipped(s: seq<char>)
    ensures |Flipped(s)| == |s|
  {
  }

  /** A step over two characters skips no bracket. */
  lemma SkipsNoBracket(line: string, i: nat)
    requires i < |line| && BackwardMove(line, i) == 2
    ensures i > 0 && !IsBracket(line[i]) && !IsBracket(line[i - 1])
  {
    if EndsInOperator(line[..i]) { OperatorEndsPlain(line[..i]); }
  }

  lemma OperatorEndsPlain(s: string)
    requires EndsInOperator(s)
    ensures s != "" && !IsBracket(s[|s| - 1])
  {
    if TrimEnd(s) == s { assert s[|s| - 8..][7] == s[|s| - 1]; }
  }

  lemma MirrorLast(s: string, c: char)
    ensures Mirror(s + [c]) == [Flip(c)] + Mirror(s)
  {
  }

  lemma {:induction false} ScanBackwardMatches(line: string, n: nat, stack: seq<char>, before: string)
    requires n <= |line| && Rooted(Flipped(stack), '>')
    ensures var m := Match(Mirror(before + line[..n]), Strip(Flipped(stack)));
            match ScanBackward(line, n, stack)
            case Found(p) => p < n && m == Some(n - 1 - p)
            case Stuck => m == None
            case Going(s) => Rooted(Flipped(s), '>') && m == Shift(Match(Mirror(before), Strip(Flipped(s))), n)
    decreases n
  {
    hide Match, BackwardStep, BackwardMove, Rooted, Strip, Flipped, Mirror;
    if n == 0 {
      assert before + line[..0] == before;
      ShiftNone(Match(Mirror(before), Strip(Flipped(stack))));
    } else {
      var i := n - 1;
      BackwardStepMatches(line, i, stack);
      assert before + line[..n] == before + line[..i] + [line[i]];
      MirrorLast(before + line[..i], line[i]);
      MatchStep(Flip(line[i]), Mirror(before + line[..i]), Strip(Flipped(stack)));
      FlipKind(line[i]);
      var r := BackwardStep(line, i, stack);
      if r.Going? {
        var k := n - BackwardMove(line, i);
        ScanBackwardMatches(line, k, r.stack, before);
        if k == i - 1 {
          SkipsNoBracket(line, i);
          assert before + line[..i] == before + line[..k] + [line[k]];
          MirrorLast(before + line[..k], line[k]);
          FlipKind(line[k]);
          StripRooted(Flipped(r.stack), '>');
          MatchStep(Flip(line[k]), Mirror(before + line[..k]), Strip(Flipped(r.stack)));
        }
      }
    }
  }

  lemma FlipKind(c: char)
    ensures IsOpen(Flip(c)) <==> IsClose(c)
    ensures IsClose(Flip(c)) <==> IsOpen(c)
  {
  }

  /** The place `r` is at offset `k` of the joined text. */
  ghost predicate At(lines: seq<string>, r: Place, k: nat) {
    && r.linenum < |lines| && r.line == lines[r.linenum] && 0 <= r.pos < |r.line|
    && Offset(lines, r.linenum) + r.pos == k
  }

  lemma JoinedBefore(lines: seq<string>, l: nat)
    requires l < |lines|
    ensures Joined(lines[..l + 1]) == Joined(lines[..l]) + lines[l]
    ensures |Joined(lines[..l])| == Offset(lines, l)
    decreases l
  {
    JoinedSnoc(lines[..l], lines[l]);
    assert lines[..l + 1] == lines[..l] + [lines[l]];
    if l == 0 {
      assert lines[..0] == [];
    } else {
      JoinedBefore(lines, l - 1);
    }
  }

  lemma {:induction false} JoinedSnoc(lines: seq<string>, last: string)
    ensures Joined(lines + [last]) == Joined(lines) + last
    decreases |lines|
  {
    if lines == [] {
      assert [last][1..] == [] && ([] + [last]) == [last] && last + "" == last && "" + last == last;
    } else {
      assert (lines + [last])[1..] == lines[1..] + [last];
      JoinedSnoc(lines[1..], last);
      Associate(lines[0], Joined(lines[1..]), last);
    }
  }

  lemma {:induction false} OpenFromMatches(lines: seq<string>, l: nat, n: nat, stack: seq<char>)
    requires l < |lines| && n <= |lines[l]| && Rooted(Flipped(stack), '>')
    ensures match Match(Mirror(Joined(lines[..l]) + lines[l][..n]), Strip(Flipped(stack)))
            case None => Nowhere(OpenFrom(lines, l, n, stack))
            case Some(k) => k < Offset(lines, l) + n && At(lines, OpenFrom(lines, l, n, stack), Offset(lines, l) + n - 1 - k)
    decreases l
  {
    hide Match, Strip, ScanBackward, Mirror, Joined, Flipped;
    ScanBackwardMatches(lines[l], n, stack, Joined(lines[..l]));
    if ScanBackward(lines[l], n, stack).Going? {
      var s := ScanBackward(lines[l], n, stack).stack;
      EmptyFlipped(s);
      if l > 0 {
        OpenFromMatches(lines, l - 1, |lines[l - 1]|, s);
        JoinedBefore(lines, l - 1);
        assert lines[l - 1][..|lines[l - 1]|] == lines[l - 1];
      } else {
        StripRooted(Flipped(s), '>');
        NothingBefore(lines);
        MatchNothing("", Strip(Flipped(s)));
      }
    }
  }

  lemma NothingBefore(lines: seq<string>)
    ensures Mirror(Joined(lines[..0])) == ""
  {
  }

  /** The joined text in front of a position. */
  lemma JoinedUpTo(lines: seq<string>, l: nat, p: nat)
    requires l < |lines| && p < |lines[l]|
    ensures var k := Offset(lines, l) + p;
            k < |Joined(lines)| && Joined(lines)[..k] == Joined(lines[..l]) + lines[l][..p]
  {
    hide Joined, Offset;
    JoinedAt(lines, l, p);
    JoinedFrom(lines, l);
    JoinedBefore(lines, l);
    JoinedSplits(lines, l);
  }

  lemma {:induction false} JoinedSplits(lines: seq<string>, l: nat)
    requires l <= |lines|
    ensures Joined(lines) == Joined(lines[..l]) + Joined(lines[l..])
    decreases |lines|
  {
    if l == 0 {
      assert lines[0..] == lines && lines[..0] == [] && "" + Joined(lines) == Joined(lines);
    } else {
      JoinedSplits(lines[1..], l - 1);
      assert lines[1..][..l - 1] == lines[..l][1..] && lines[1..][l - 1..] == lines[l..];
      Associate(lines[0], Joined(lines[..l][1..]), Joined(lines[l..]));
    }
  }

  ghost predicate NeverOpened(text: string, j: nat) { forall i: nat :: !IsPair(text, i, j) }

  lemma ReverseStarts(lines: seq<string>, l: nat, p: nat)
    requires l < |lines| && p < |lines[l]| && IsClose(lines[l][p])
    ensures ReverseClose(lines, l, p) == OpenFrom(lines, l, p, [lines[l][p]])
    ensures Flipped([lines[l][p]]) == [Flip(lines[l][p])] && Rooted([Flip(lines[l][p])], '>')
    ensures Strip([Flip(lines[l][p])]) == [Flip(lines[l][p])]
  {
    hide EndsInOperator, IsSpacedGreaterEqual, BackwardStep, Strip, Flipped;
    var c := lines[l][p];
    assert [] + [c] == [c] && [] + [Flip(c)] == [Flip(c)];
    StripPush([], Flip(c));
    FlippedParts([], c);
    EmptyFlipped([]);
    StripNothing();
    BackwardPushes(lines[l], p);
  }

  lemma StripNothing()
    ensures Strip([]) == []
  {
  }

  lemma BackwardPushes(line: string, p: nat)
    requires p < |line| && IsClose(line[p])
    ensures BackwardStep(line, p, []) == Going([line[p]]) && BackwardMove(line, p) == 1
  {
    assert [] + [line[p]] == [line[p]];
  }

  /** Backward search from a ) ] or } returns the place of its partner in the joined text, and nothing
      when it has none. */
  lemma ReverseFindsPair(lines: seq<string>, l: nat, p: nat, k: nat)
    requires l < |lines| && p < |lines[l]| && IsClose(lines[l][p])
    ensures At(lines, ReverseClose(lines, l, p), k) <==> IsPair(Joined(lines), k, Offset(lines, l) + p)
    ensures Nowhere(ReverseClose(lines, l, p)) <==> NeverOpened(Joined(lines), Offset(lines, l) + p)
  {
    hide Match, Strip, Joined, Offset, OpenFrom, ReverseClose, IsPair, Mirror;
    var text, j, c := Joined(lines), Offset(lines, l) + p, lines[l][p];
    JoinedAt(lines, l, p);
    JoinedUpTo(lines, l, p);
    ReverseStarts(lines, l, p);
    OpenFromMatches(lines, l, p, [c]);
    forall i: nat ensures i < j && Match(Mirror(text[..j]), [Flip(c)]) == Some(j - 1 - i) <==> IsPair(text, i, j) {
      MirrorMatchFindsPair(text, i, j);
    }
    match Match(Mirror(text[..j]), [Flip(c)])
    case None =>
    case Some(n) => assert IsPair(text, j - 1 - n, j);
  }

  // ---------- Each undoes the other ----------

  lemma {:induction false} OffsetsGrow(lines: seq<string>, l: nat, k: nat)
    requires l < k <= |lines|
    ensures Offset(lines, l) + |lines[l]| <= Offset(lines, k)
    decreases k
  {
    if l < k - 1 { OffsetsGrow(lines, l, k - 1); }
  }

  lemma SamePlace(lines: seq<string>, l: nat, p: nat, k: nat, q: nat)
    requires l < |lines| && p < |lines[l]| && k < |lines| && q < |lines[k]|
    requires Offset(lines, l) + p == Offset(lines, k) + q
    ensures l == k && p == q
  {
    if l < k { OffsetsGrow(lines, l, k); }
    if k < l { OffsetsGrow(lines, k, l); }
  }

  /** A ( [ or { at `(l, p)` closes just before `(l2, p2)` exactly when the search back from the closer
      there returns `(l, p)`. */
  lemma EachUndoesTheOther(lines: seq<string>, l: nat, p: nat, l2: nat, p2: nat)
    requires l < |lines| && p < |lines[l]| && IsOpen(lines[l][p])
    requires l2 < |lines| && 0 < p2 <= |lines[l2]| && IsClose(lines[l2][p2 - 1])
    ensures Close(lines, l, p) == Place(lines[l2], l2, p2) <==> ReverseClose(lines, l2, p2 - 1) == Place(lines[l], l, p)
  {
    hide Close, ReverseClose, Joined, Offset, IsPair;
    var i, j := Offset(lines, l) + p, Offset(lines, l2) + p2 - 1;
    CloseFindsPair(lines, l, p, j);
    ReverseFindsPair(lines, l2, p2 - 1, i);
    var c, r := Close(lines, l, p), ReverseClose(lines, l2, p2 - 1);
    if Behind(lines, c, j) { SamePlace(lines, c.linenum, c.pos - 1, l2, p2 - 1); }
    if At(lines, r, i) { SamePlace(lines, r.linenum, r.pos, l, p); }
  }
}
