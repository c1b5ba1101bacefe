/** Balanced text over ( ) [ ] { }, and the plain bracket matcher that recognises it. */
module Brackets {
  import opened Options

  predicate IsOpen(c: char) { c == '(' || c == '[' || c == '{' }

  predicate IsClose(c: char) { c == ')' || c == ']' || c == '}' }

  predicate IsBracket(c: char) { IsOpen(c) || IsClose(c) }

  /** The partner of a bracket; other characters stand for themselves. */
  function Flip(c: char): char {
    if c == '(' then ')' else if c == ')' then '('
    else if c == '[' then ']' else if c == ']' then '['
    else if c == '{' then '}' else if c == '}' then '{'
    else c
  }

  // ---------- Balanced text ----------

  /** How a text is balanced: a sequence of plain characters and bracketed groups. */
  datatype Doc = Empty | Plain(c: char, rest: Doc) | Group(open: char, inner: Doc, rest: Doc)

  ghost predicate Good(d: Doc) {
    match d
    case Empty => true
    case Plain(c, rest) => !IsBracket(c) && Good(rest)
    case Group(o, inner, rest) => IsOpen(o) && Good(inner) && Good(rest)
  }

  ghost function Text(d: Doc): string {
    match d
    case Empty => ""
    case Plain(c, rest) => [c] + Text(rest)
    case Group(o, inner, rest) => [o] + (Text(inner) + ([Flip(o)] + Text(rest)))
  }

  ghost predicate Balanced(s: string) { exists d :: Good(d) && Text(d) == s }

  /** `text[j]` closes the bracket opened at `text[i]`. */
  ghost predicate IsPair(text: string, i: nat, j: nat) {
    i < j < |text| && IsOpen(text[i]) && text[j] == Flip(text[i]) && Balanced(text[i + 1..j])
  }

  lemma BalancedWith(d: Doc)
    requires Good(d)
    ensures Balanced(Text(d))
  {
  }

  ghost function Concat(d: Doc, e: Doc): Doc {
    match d
    case Empty => e
    case Plain(c, rest) => Plain(c, Concat(rest, e))
    case Group(o, inner, rest) => Group(o, inner, Concat(rest, e))
  }

  lemma {:induction false} ConcatText(d: Doc, e: Doc)
    requires Good(d) && Good(e)
    ensures Good(Concat(d, e)) && Text(Concat(d, e)) == Text(d) + Text(e)
  {
    match d
    case Empty => assert "" + Text(e) == Text(e);
    case Plain(c, rest) =>
      ConcatText(rest, e);
      assert [c] + (Text(rest) + Text(e)) == [c] + Text(rest) + Text(e);
    case Group(o, inner, rest) =>
      ConcatText(rest, e);
      assert [o] + (Text(inner) + ([Flip(o)] + (Text(rest) + Text(e)))) == [o] + (Text(inner) + ([Flip(o)] + Text(rest))) + Text(e);
  }

  // ---------- The plain matcher ----------

  function Shift(r: Option<nat>, n: nat): Option<nat> {
    match r case None => None case Some(k) => Some(k + n)
  }

  function Top(stack: seq<char>): char
    requires stack != []
  {
    stack[|stack| - 1]
  }

  function Pop(stack: seq<char>): seq<char>
    requires stack != []
  {
    stack[..|stack| - 1]
  }

  /** Index in `s` of the bracket that closes the last opener still on `stack`. */
  function Match(s: string, stack: seq<char>): Option<nat>
    decreases |s|
  {
    if s == "" || stack == [] then None
    else if IsOpen(s[0]) then Shift(Match(s[1..], stack + [s[0]]), 1)
    else if IsClose(s[0]) then
      if s[0] != Flip(Top(stack)) then None
      else if |stack| == 1 then Some(0)
      else Shift(Match(s[1..], Pop(stack)), 1)
    else Shift(Match(s[1..], stack), 1)
  }

  predicate Openers(stack: seq<char>) { forall i | 0 <= i < |stack| :: IsOpen(stack[i]) }

  /** `s` is balanced pieces, each followed by the closer of the next bracket down the stack. */
  ghost predicate Unwinds(s: string, stack: seq<char>)
    decreases |stack|
  {
    if stack == [] then s == ""
    else exists d, rest :: Good(d) && s == Text(d) + ([Flip(Top(stack))] + rest) && Unwinds(rest, Pop(stack))
  }

  ghost predicate UnwindsAs(s: string, stack: seq<char>, d: Doc, rest: string) {
    stack != [] && Good(d) && s == Text(d) + ([Flip(Top(stack))] + rest) && Unwinds(rest, Pop(stack))
  }

  lemma UnwindsBy(s: string, stack: seq<char>, d: Doc, rest: string)
    requires UnwindsAs(s, stack, d, rest)
    ensures Unwinds(s, stack)
  {
  }

  lemma FirstPiece(s: string, stack: seq<char>) returns (d: Doc, rest: string)
    requires stack != [] && Unwinds(s, stack)
    ensures UnwindsAs(s, stack, d, rest)
  {
    d, rest :| Good(d) && s == Text(d) + ([Flip(Top(stack))] + rest) && Unwinds(rest, Pop(stack));
  }

  lemma Associate(a: string, b: string, c: string)
    ensures a + (b + c) == a + b + c
  {
  }

  lemma UnwindsPlain(c: char, s: string, stack: seq<char>)
    requires !IsBracket(c) && stack != [] && Unwinds(s, stack)
    ensures Unwinds([c] + s, stack)
  {
    hide Unwinds;
    var d, rest := FirstPiece(s, stack);
    Associate([c], Text(d), [Flip(Top(stack))] + rest);
    UnwindsBy([c] + s, stack, Plain(c, d), rest);
  }

  lemma UnwindsClose(c: char, s: string, stack: seq<char>)
    requires stack != [] && c == Flip(Top(stack)) && Unwinds(s, Pop(stack))
    ensures Unwinds([c] + s, stack)
  {
    hide Unwinds;
    assert "" + ([c] + s) == [c] + s;
    UnwindsBy([c] + s, stack, Empty, s);
  }

  lemma UnwindsOpen(o: char, s: string, stack: seq<char>)
    requires IsOpen(o) && stack != [] && Unwinds(s, stack + [o])
    ensures Unwinds([o] + s, stack)
  {
    hide Unwinds;
    var d, t := FirstPiece(s, stack + [o]);
    assert Pop(stack + [o]) == stack;
    var e, rest := FirstPiece(t, stack);
    var tail := [Flip(Top(stack))] + rest;
    Associate([Flip(o)], Text(e), tail);
    Associate(Text(d), [Flip(o)] + Text(e), tail);
    Associate([o], Text(d) + ([Flip(o)] + Text(e)), tail);
    UnwindsBy([o] + s, stack, Group(o, d, e), rest);
  }

  /** The first character of an unwinding text tells how the rest unwinds. */
  lemma UnwindsFirst(t: string, stack: seq<char>)
    requires stack != [] && Openers(stack) && Unwinds(t, stack)
    ensures t != ""
    ensures if IsOpen(t[0]) then Unwinds(t[1..], stack + [t[0]])
            else if IsClose(t[0]) then t[0] == Flip(Top(stack)) && Unwinds(t[1..], Pop(stack))
            else Unwinds(t[1..], stack)
  {
    hide Unwinds;
    var d, rest := FirstPiece(t, stack);
    assert IsOpen(Top(stack));
    var tail := [Flip(Top(stack))] + rest;
    match d
    case Empty =>
      assert t == tail && t[1..] == rest;
    case Plain(c, e) =>
      Associate([c], Text(e), tail);
      assert t[1..] == Text(e) + tail;
      UnwindsBy(t[1..], stack, e, rest);
    case Group(o, inner, e) =>
      Associate([o], Text(inner) + ([Flip(o)] + Text(e)), tail);
      Associate(Text(inner), [Flip(o)] + Text(e), tail);
      Associate([Flip(o)], Text(e), tail);
      assert t[1..] == Text(inner) + ([Flip(o)] + (Text(e) + tail));
      UnwindsBy(Text(e) + tail, stack, e, rest);
      assert Pop(stack + [o]) == stack;
      UnwindsBy(t[1..], stack + [o], inner, Text(e) + tail);
  }

  lemma {:induction false} MatchUnwinds(s: string, stack: seq<char>)
    requires stack != [] && Openers(stack) && Match(s, stack).Some?
    ensures Match(s, stack).value < |s| && Unwinds(s[..Match(s, stack).value + 1], stack)
    decreases |s|
  {
    hide Unwinds;
    var c, u, j := s[0], s[1..], Match(s, stack).value;
    if IsOpen(c) {
      MatchUnwinds(u, stack + [c]);
      UnwindsOpen(c, u[..j], stack);
    } else if IsClose(c) {
      if |stack| == 1 {
        NothingUnwinds();
        UnwindsClose(c, "", stack);
      } else {
        MatchUnwinds(u, Pop(stack));
        UnwindsClose(c, u[..j], stack);
      }
    } else {
      MatchUnwinds(u, stack);
      UnwindsPlain(c, u[..j], stack);
    }
    assert s[..j + 1] == [c] + u[..j];
  }

  lemma NothingLeft(s: string)
    ensures Unwinds(s, []) ==> s == ""
  {
  }

  lemma NothingUnwinds()
    ensures Unwinds("", [])
  {
  }

  lemma {:induction false} UnwindsMatch(t: string, rest: string, stack: seq<char>)
    requires stack != [] && Openers(stack) && Unwinds(t, stack)
    ensures t != "" && Match(t + rest, stack) == Some(|t| - 1)
    decreases |t|
  {
    hide Unwinds;
    UnwindsFirst(t, stack);
    assert (t + rest)[1..] == t[1..] + rest;
    if IsOpen(t[0]) {
      UnwindsMatch(t[1..], rest, stack + [t[0]]);
    } else if IsClose(t[0]) {
      if |stack| > 1 { UnwindsMatch(t[1..], rest, Pop(stack)); } else { NothingLeft(t[1..]); }
    } else {
      UnwindsMatch(t[1..], rest, stack);
    }
  }

  lemma UnwindsToOne(t: string, o: char)
    requires Unwinds(t, [o])
    ensures t != "" && t[|t| - 1] == Flip(o) && Balanced(t[..|t| - 1])
  {
    hide Unwinds, Flip, Good, Balanced;
    assert Top([o]) == o && Pop([o]) == [];
    var d, rest := FirstPiece(t, [o]);
    NothingLeft(rest);
    assert [Flip(o)] + "" == [Flip(o)];
    BalancedWith(d);
    assert t[..|t| - 1] == Text(d);
  }

  lemma OneUnwinds(s: string, o: char)
    requires Balanced(s)
    ensures Unwinds(s + [Flip(o)], [o])
  {
    hide Unwinds, Flip, Good;
    assert Top([o]) == o && Pop([o]) == [];
    var d :| Good(d) && Text(d) == s;
    NothingUnwinds();
    assert [Flip(o)] + "" == [Flip(o)];
    UnwindsBy(s + [Flip(o)], [o], d, "");
  }

  lemma UnwindsOne(t: string, o: char)
    ensures Unwinds(t, [o]) <==> t != "" && t[|t| - 1] == Flip(o) && Balanced(t[..|t| - 1])
  {
    hide Unwinds, Flip, Balanced;
    if Unwinds(t, [o]) { UnwindsToOne(t, o); }
    if t != "" && t[|t| - 1] == Flip(o) && Balanced(t[..|t| - 1]) {
      OneUnwinds(t[..|t| - 1], o);
      assert t == t[..|t| - 1] + [Flip(o)];
    }
  }

  /** The matcher started behind an opener stops at `j` exactly when `j` closes it. */
  lemma MatchFindsPair(text: string, i: nat, j: nat)
    requires i < |text| && IsOpen(text[i])
    ensures j > i && Match(text[i + 1..], [text[i]]) == Some(j - i - 1) <==> IsPair(text, i, j)
  {
    hide Unwinds, Match, Balanced;
    var s, o := text[i + 1..], text[i];
    if j > i && Match(s, [o]) == Some(j - i - 1) {
      MatchUnwinds(s, [o]);
      UnwindsOne(s[..j - i], o);
      assert s[..j - i][..j - i - 1] == text[i + 1..j];
    }
    if IsPair(text, i, j) {
      assert s[..j - i][..j - i - 1] == text[i + 1..j];
      UnwindsOne(s[..j - i], o);
      UnwindsMatch(s[..j - i], s[j - i..], [o]);
      assert s[..j - i] + s[j - i..] == s;
    }
  }

  // ---------- Reading backwards ----------

  /** The text read from its end, every bracket replaced by its partner. */
  function Mirror(s: string): string { seq(|s|, i requires 0 <= i < |s| => Flip(s[|s| - 1 - i])) }

  ghost function MirrorDoc(d: Doc): Doc {
    match d
    case Empty => Empty
    case Plain(c, rest) => Concat(MirrorDoc(rest), Plain(c, Empty))
    case Group(o, inner, rest) => Concat(MirrorDoc(rest), Group(o, MirrorDoc(inner), Empty))
  }

  lemma FlipTwice(c: char)
    ensures Flip(Flip(c)) == c
  {
  }

  lemma MirrorAppend(s: string, t: string)
    ensures Mirror(s + t) == Mirror(t) + Mirror(s)
  {
  }

  lemma {:induction false} MirrorDocText(d: Doc)
    requires Good(d)
    ensures Good(MirrorDoc(d)) && Text(MirrorDoc(d)) == Mirror(Text(d))
  {
    match d
    case Empty =>
    case Plain(c, rest) =>
      MirrorDocText(rest);
      ConcatText(MirrorDoc(rest), Plain(c, Empty));
      MirrorAppend([c], Text(rest));
      assert Flip(c) == c && Mirror([c]) == [Flip(c)];
    case Group(o, inner, rest) =>
      MirrorDocText(rest);
      MirrorDocText(inner);
      ConcatText(MirrorDoc(rest), Group(o, MirrorDoc(inner), Empty));
      MirrorGroup(o, Text(inner), Text(rest));
  }

  lemma MirrorGroup(o: char, inner: string, rest: string)
    requires IsOpen(o)
    ensures Mirror([o] + (inner + ([Flip(o)] + rest))) == Mirror(rest) + ([o] + (Mirror(inner) + ([Flip(o)] + "")))
  {
    MirrorAppend([o], inner + ([Flip(o)] + rest));
    MirrorAppend(inner, [Flip(o)] + rest);
    MirrorAppend([Flip(o)], rest);
    FlipTwice(o);
    assert Mirror([o]) == [Flip(o)] && Mirror([Flip(o)]) == [o];
    assert Mirror(rest) + [o] + Mirror(inner) + [Flip(o)] == Mirror(rest) + ([o] + (Mirror(inner) + ([Flip(o)] + "")));
  }

  lemma BalancedMirror(s: string)
    ensures Balanced(s) ==> Balanced(Mirror(s))
  {
    if Balanced(s) {
      var d :| Good(d) && Text(d) == s;
      MirrorDocText(d);
      BalancedWith(MirrorDoc(d));
    }
  }

  lemma MirrorTwice(s: string)
    ensures Mirror(Mirror(s)) == s
  {
    forall i | 0 <= i < |s| ensures Mirror(Mirror(s))[i] == s[i] { FlipTwice(s[i]); }
  }

  lemma MirrorSlice(text: string, i: nat, j: nat)
    requires i < j < |text|
    ensures Mirror(text)[|text| - j..|text| - 1 - i] == Mirror(text[i + 1..j])
  {
    var n, inner := |text|, text[i + 1..j];
    forall k | 0 <= k < |inner| ensures Mirror(text)[n - j..n - 1 - i][k] == Mirror(inner)[k] {
      assert Mirror(text)[n - j..n - 1 - i][k] == Mirror(text)[n - j + k] == Flip(text[j - 1 - k]);
      assert inner[|inner| - 1 - k] == text[j - 1 - k];
    }
  }

  /** A pair of a text is a pair of its mirror image, ends exchanged. */
  lemma PairMirror(text: string, i: nat, j: nat)
    requires i < j < |text|
    ensures IsPair(text, i, j) <==> IsPair(Mirror(text), |text| - 1 - j, |text| - 1 - i)
  {
    hide Balanced;
    FlipTwice(text[i]);
    FlipTwice(text[j]);
    var inner := text[i + 1..j];
    var n := |text|;
    MirrorSlice(text, i, j);
    BalancedMirror(inner);
    BalancedMirror(Mirror(inner));
    MirrorTwice(inner);
  }

  /** Reading backwards from a closer at `j`, the matcher finds `i` exactly when `j` closes `i`. */
  lemma MirrorMatchFindsPair(text: string, i: nat, j: nat)
    requires j < |text| && IsClose(text[j])
    ensures i < j && Match(Mirror(text[..j]), [Flip(text[j])]) == Some(j - 1 - i) <==> IsPair(text, i, j)
  {
    hide Match, IsPair;
    var m, k := Mirror(text), |text| - 1 - j;
    assert m[k] == Flip(text[j]) && m[k + 1..] == Mirror(text[..j]);
    if i < j {
      MatchFindsPair(m, k, |text| - 1 - i);
      PairMirror(text, i, j);
    } else {
      assert !IsPair(text, i, j) by { NotAPair(text, i, j); }
    }
  }

  lemma NotAPair(text: string, i: nat, j: nat)
    requires i >= j
    ensures !IsPair(text, i, j)
  {
  }
}
