/** cpplint's nesting state: a stack of open scopes, edited line by line, and a second stack that
    checkpoints it at #if and #else so that only the first branch of a conditional counts. */
module NestingState {
  import opened Ascii
  import opened CloseExpression

  // ---------- Directives ----------

  datatype Directive = If | Else | Endif | Ordinary

  function SkipWhite(s: string): string {
    if s != "" && IsSpace(s[0]) then SkipWhite(s[1..]) else s
  }

  function LeadingWord(s: string): string {
    if s != "" && IsWord(s[0]) then [s[0]] + LeadingWord(s[1..]) else ""
  }

  /** `^\s*#\s*(if|ifdef|ifndef)\b`, `^\s*#\s*(else|elif)\b`, `^\s*#\s*endif\b`. */
  function DirectiveOf(text: string): Directive {
    var s := SkipWhite(text);
    if s == "" || s[0] != '#' then Ordinary
    else
      var w := LeadingWord(SkipWhite(s[1..]));
      if w == "if" || w == "ifdef" || w == "ifndef" then If
      else if w == "else" || w == "elif" then Else
      else if w == "endif" then Endif
      else Ordinary
  }

  lemma {:induction false} SkipsWhite(blanks: string, s: string)
    requires (forall i | 0 <= i < |blanks| :: IsSpace(blanks[i])) && (s == "" || !IsSpace(s[0]))
    ensures SkipWhite(blanks + s) == s
  {
    if blanks == "" {
      assert blanks + s == s;
    } else {
      assert (blanks + s)[1..] == blanks[1..] + s;
      SkipsWhite(blanks[1..], s);
    }
  }

  lemma {:induction false} LeadingWordIs(word: string, rest: string)
    requires (forall i | 0 <= i < |word| :: IsWord(word[i])) && (rest == "" || !IsWord(rest[0]))
    ensures LeadingWord(word + rest) == word
  {
    if word == "" {
      assert word + rest == rest;
    } else {
      assert (word + rest)[1..] == word[1..] + rest;
      LeadingWordIs(word[1..], rest);
      assert [word[0]] + word[1..] == word;
    }
  }

  lemma {:induction false} DivideWhite(s: string) returns (blanks: string, rest: string)
    ensures s == blanks + rest && (forall i | 0 <= i < |blanks| :: IsSpace(blanks[i])) && (rest == "" || !IsSpace(rest[0]))
  {
    if s == "" || !IsSpace(s[0]) {
      blanks, rest := "", s;
    } else {
      var b;
      b, rest := DivideWhite(s[1..]);
      blanks := [s[0]] + b;
    }
  }

  lemma {:induction false} DivideWord(s: string) returns (word: string, rest: string)
    ensures s == word + rest && (forall i | 0 <= i < |word| :: IsWord(word[i])) && (rest == "" || !IsWord(rest[0]))
  {
    if s == "" || !IsWord(s[0]) {
      word, rest := "", s;
    } else {
      var w;
      w, rest := DivideWord(s[1..]);
      word := [s[0]] + w;
    }
  }

  function Named(word: string): Directive {
    if word in ["if", "ifdef", "ifndef"] then If
    else if word in ["else", "elif"] then Else
    else if word == "endif" then Endif
    else Ordinary
  }

  /** `text` is a number sign and a word, each behind any white space, and a rest that does not go on with the word. */
  ghost predicate SpellsDirective(text: string, word: string) {
    exists before, after, rest :: IsDirective(text, before, after, word, rest)
  }

  ghost predicate IsDirective(text: string, before: string, after: string, word: string, rest: string) {
    && text == before + ("#" + (after + (word + rest)))
    && (forall i | 0 <= i < |before| :: IsSpace(before[i])) && (forall i | 0 <= i < |after| :: IsSpace(after[i]))
    && (forall i | 0 <= i < |word| :: IsWord(word[i])) && (rest == "" || !IsWord(rest[0]))
  }

  lemma SpelledIs(text: string, before: string, after: string, word: string, rest: string)
    requires IsDirective(text, before, after, word, rest) && word != ""
    ensures DirectiveOf(text) == Named(word)
  {
    SkipsWhite(before, "#" + (after + (word + rest)));
    assert ("#" + (after + (word + rest)))[1..] == after + (word + rest);
    assert IsWord(word[0]) && !IsSpace(word[0]);
    SkipsWhite(after, word + rest);
    LeadingWordIs(word, rest);
  }

  /** A text is a directive exactly if it spells one. */
  lemma DirectivesSpelled(text: string, d: Directive)
    requires d != Ordinary
    ensures DirectiveOf(text) == d <==> exists word :: word != "" && SpellsDirective(text, word) && Named(word) == d
  {
    hide LeadingWord, SkipWhite;
    if DirectiveOf(text) == d {
      var before, s := DivideWhite(text);
      SkipsWhite(before, s);
      var after, t := DivideWhite(s[1..]);
      SkipsWhite(after, t);
      var word, rest := DivideWord(t);
      LeadingWordIs(word, rest);
      assert s == "#" + s[1..];
      assert text == before + ("#" + (after + (word + rest)));
      assert IsDirective(text, before, after, word, rest) && SpellsDirective(text, word);
      SpelledIs(text, before, after, word, rest);
    }
    forall word | word != "" && SpellsDirective(text, word) ensures DirectiveOf(text) == Named(word) {
      var before, after, rest :| IsDirective(text, before, after, word, rest);
      SpelledIs(text, before, after, word, rest);
    }
  }

  // ---------- Scopes, and what a line does to them ----------

  datatype Kind = Namespace | Class | ExternC | Block

  datatype Asm = NoAsm | InsideAsm | EndAsm | BlockAsm

  datatype Scope = Scope(kind: Kind, name: string, access: string, seenOpenBrace: bool, openParentheses: int, inlineAsm: Asm)

  datatype Edit = Push(scope: Scope) | Pop | SetTop(scope: Scope)

  /** A line of text, and the edits it makes to the stack it finds, whatever they are. */
  datatype Line = Line(text: string, edits: seq<Scope> -> seq<Edit>)

  function Edited(stack: seq<Scope>, e: Edit): seq<Scope> {
    match e
    case Push(s) => stack + [s]
    case Pop => if stack == [] then [] else Below(stack)
    case SetTop(s) => if stack == [] then [] else Below(stack) + [s]
  }

  function AllEdited(stack: seq<Scope>, es: seq<Edit>): seq<Scope>
    decreases |es|
  {
    if es == [] then stack else AllEdited(Edited(stack, es[0]), es[1..])
  }

  function Effect(line: Line, stack: seq<Scope>): seq<Scope> { AllEdited(stack, line.edits(stack)) }

  /** The effects of lines one after the other, directives or not. */
  function Effects(lines: seq<Line>, stack: seq<Scope>): seq<Scope>
    decreases |lines|
  {
    if lines == [] then stack else Effects(lines[1..], Effect(lines[0], stack))
  }

  // ---------- Specification ----------

  datatype Info = Info(beforeIf: seq<Scope>, beforeElse: seq<Scope>, seenElse: bool)

  datatype State = State(stack: seq<Scope>, infos: seq<Info>)

  function Top<T>(s: seq<T>): T
    requires s != []
  {
    s[|s| - 1]
  }

  function Below<T>(s: seq<T>): seq<T>
    requires s != []
  {
    s[..|s| - 1]
  }

  function Preprocessed(st: State, d: Directive): State {
    if d == If then State(st.stack, st.infos + [Info(st.stack, [], false)])
    else if d == Ordinary || st.infos == [] then st
    else
      var top, below := Top(st.infos), Below(st.infos);
      if d == Else then
        State(top.beforeIf, below + [if top.seenElse then top else Info(top.beforeIf, st.stack, true)])
      else State(if top.seenElse then top.beforeElse else st.stack, below)
  }

  function Step(st: State, line: Line): State {
    var p := Preprocessed(st, DirectiveOf(line.text));
    State(Effect(line, p.stack), p.infos)
  }

  function Run(st: State, lines: seq<Line>): State
    decreases |lines|
  {
    if lines == [] then st else Run(Step(st, lines[0]), lines[1..])
  }

  // ---------- The state as cpplint keeps it ----------

  /** An open scope; its fields change in place. */
  class Entry {
    var scope: Scope

    constructor (s: Scope)
      ensures scope == s
    {
      scope := s;
    }
  }

  function Scopes(entries: seq<Entry>): seq<Scope>
    reads entries
  {
    seq(|entries|, i requires 0 <= i < |entries| reads entries => entries[i].scope)
  }

  datatype Checkpoint = Checkpoint(beforeIf: seq<Entry>, beforeElse: seq<Entry>, seenElse: bool)

  ghost function Elements(entries: seq<Entry>): set<Entry> { set e | e in entries }

  ghost function Owned(c: Checkpoint): set<Entry> { Elements(c.beforeIf) + Elements(c.beforeElse) }

  ghost function AllOwned(checkpoints: seq<Checkpoint>): set<Entry>
    decreases |checkpoints|
  {
    if checkpoints == [] then {} else AllOwned(Below(checkpoints)) + Owned(Top(checkpoints))
  }

  function Saved(checkpoints: seq<Checkpoint>): seq<Info>
    reads AllOwned(checkpoints)
    decreases |checkpoints|
  {
    if checkpoints == [] then [] else Saved(Below(checkpoints)) + [InfoOf(Top(checkpoints))]
  }

  function InfoOf(c: Checkpoint): Info
    reads Owned(c)
  {
    Info(Scopes(c.beforeIf), Scopes(c.beforeElse), c.seenElse)
  }

  ghost predicate Distinct(entries: seq<Entry>) {
    forall i, j | 0 <= i < j < |entries| :: entries[i] != entries[j]
  }

  ghost predicate Unshared(checkpoints: seq<Checkpoint>)
    decreases |checkpoints|
  {
    checkpoints != [] ==>
      && Unshared(Below(checkpoints))
      && Distinct(Top(checkpoints).beforeElse)
      && Owned(Top(checkpoints)) !! AllOwned(Below(checkpoints))
  }

  /** One checkpoint more on top, or less. */
  lemma OneOnTop(below: seq<Checkpoint>, top: Checkpoint)
    ensures Below(below + [top]) == below && Top(below + [top]) == top
    ensures AllOwned(below + [top]) == AllOwned(below) + Owned(top)
    ensures Saved(below + [top]) == Saved(below) + [InfoOf(top)]
    ensures Unshared(below + [top]) <==> Unshared(below) && Distinct(top.beforeElse) && Owned(top) !! AllOwned(below)
  {
    assert Below(below + [top]) == below;
  }

  lemma TopAndBelow(checkpoints: seq<Checkpoint>)
    requires checkpoints != []
    ensures checkpoints == Below(checkpoints) + [Top(checkpoints)]
  {
  }

  lemma InfosOnTop(infos: seq<Info>, below: seq<Info>, top: Info)
    requires infos == below + [top]
    ensures infos != [] && Below(infos) == below && Top(infos) == top
  {
  }

  /** A deep copy shares no scope with what it copies. */
  method DeepCopy(entries: seq<Entry>) returns (copies: seq<Entry>)
    ensures fresh(copies) && Distinct(copies) && Scopes(copies) == Scopes(entries)
  {
    copies := [];
    for i := 0 to |entries|
      invariant fresh(copies) && Distinct(copies) && Scopes(copies) == Scopes(entries)[..i]
    {
      var e := new Entry(entries[i].scope);
      copies := copies + [e];
    }
  }

  class NestingState {
    var stack: seq<Entry>
    var checkpoints: seq<Checkpoint>

    ghost var repr: set<Entry>

    /** No scope is shared between the stack and the checkpoints, or between two checkpoints. */
    ghost predicate Valid()
      reads this
    {
      && Distinct(stack) && Unshared(checkpoints)
      && Elements(stack) !! AllOwned(checkpoints)
      && Elements(stack) <= repr && AllOwned(checkpoints) <= repr
    }

    ghost function Value(): State
      requires Valid()
      reads this, repr
    {
      State(Scopes(stack), Saved(checkpoints))
    }

    constructor ()
      ensures Valid() && Value() == State([], []) && repr == {}
    {
      stack, checkpoints, repr := [], [], {};
    }

    method UpdatePreprocessor(line: string)
      requires Valid()
      modifies this
      ensures Valid() && fresh(repr - old(repr))
      ensures Value() == Preprocessed(old(Value()), DirectiveOf(line))
    {
      match DirectiveOf(line)
      case If => BeginIf();
      case Else => if checkpoints != [] { BeginElse(); }
      case Endif => if checkpoints != [] { EndIf(); }
      case Ordinary =>
    }

    method BeginIf()
      requires Valid()
      modifies this
      ensures Valid() && fresh(repr - old(repr))
      ensures Value() == Preprocessed(old(Value()), If)
    {
      hide Unshared, AllOwned, Saved, Below, Top;
      var copy := DeepCopy(stack);
      var saved := Checkpoint(copy, [], false);
      checkpoints := checkpoints + [saved];
      repr := repr + Elements(copy);
      OneOnTop(old(checkpoints), saved);
      assert Scopes([]) == [];
    }

    /** The first #else keeps the whole stack, to be reinstated at #endif. */
    method SaveBeforeElse()
      requires Valid() && checkpoints != []
      modifies this
      ensures Valid() && fresh(repr - old(repr)) && stack == old(stack)
      ensures checkpoints != [] && Top(checkpoints).beforeIf == old(Top(checkpoints)).beforeIf
      ensures var st := old(Value());
              Value() == State(st.stack, Below(st.infos) + [Info(Top(st.infos).beforeIf, st.stack, true)])
    {
      hide Unshared, AllOwned, Saved, Distinct, Below, Top;
      TopAndBelow(checkpoints);
      OneOnTop(Below(checkpoints), Top(checkpoints));
      ghost var was := Value();
      InfosOnTop(was.infos, Saved(Below(checkpoints)), InfoOf(Top(checkpoints)));
      var copy := DeepCopy(stack);
      var saved := Checkpoint(Top(checkpoints).beforeIf, copy, true);
      repr := repr + Elements(copy);
      checkpoints := Below(checkpoints) + [saved];
      OneOnTop(old(Below(checkpoints)), saved);
    }

    method BeginElse()
      requires Valid() && checkpoints != []
      modifies this
      ensures Valid() && fresh(repr - old(repr))
      ensures Value() == Preprocessed(old(Value()), Else)
    {
      hide Unshared, AllOwned, Distinct;
      if !Top(checkpoints).seenElse { SaveBeforeElse(); }
      RestoreBeforeIf();
    }

    method RestoreBeforeIf()
      requires Valid() && checkpoints != []
      modifies this
      ensures Valid() && fresh(repr - old(repr))
      ensures Value() == State(Top(old(Value()).infos).beforeIf, old(Value()).infos)
    {
      stack := DeepCopy(Top(checkpoints).beforeIf);
      repr := repr + Elements(stack);
    }

    method EndIf()
      requires Valid() && checkpoints != []
      modifies this
      ensures Valid() && fresh(repr - old(repr))
      ensures Value() == Preprocessed(old(Value()), Endif)
    {
      hide Unshared, AllOwned, Saved, Distinct, Below, Top;
      TopAndBelow(checkpoints);
      OneOnTop(Below(checkpoints), Top(checkpoints));
      ghost var was := Value();
      InfosOnTop(was.infos, Saved(Below(checkpoints)), InfoOf(Top(checkpoints)));
      if Top(checkpoints).seenElse { stack := Top(checkpoints).beforeElse; }
      checkpoints := Below(checkpoints);
    }

    method Edit(e: Edit)
      requires Valid()
      modifies this, repr
      ensures Valid() && fresh(repr - old(repr))
      ensures Value() == State(Edited(old(Value()).stack, e), old(Value()).infos)
      ensures e.Pop? && old(Value()).stack != [] ==> old(Value()).stack == Value().stack + [old(Top(Value().stack))]
    {
      match e
      case Push(s) => PushScope(s);
      case Pop => if stack != [] { stack := Below(stack); }
      case SetTop(s) => if stack != [] { SetTopScope(s); }
    }

    method PushScope(s: Scope)
      requires Valid()
      modifies this
      ensures Valid() && fresh(repr - old(repr))
      ensures Value() == State(old(Value()).stack + [s], old(Value()).infos)
    {
      var entry := new Entry(s);
      stack := stack + [entry];
      repr := repr + {entry};
      assert Scopes(stack) == old(Scopes(stack)) + [s];
    }

    method SetTopScope(s: Scope)
      requires Valid() && stack != []
      modifies this, repr
      ensures Valid() && repr == old(repr)
      ensures Value() == State(Below(old(Value()).stack) + [s], old(Value()).infos)
    {
      stack[|stack| - 1].scope := s;
      assert Scopes(stack) == Below(old(Scopes(stack))) + [s];
    }

    method Update(line: Line)
      requires Valid()
      modifies this, repr
      ensures Valid() && fresh(repr - old(repr))
      ensures Value() == Step(old(Value()), line)
    {
      UpdatePreprocessor(line.text);
      var edits := line.edits(Scopes(stack));
      ghost var before := Value();
      for i := 0 to |edits|
        invariant Valid() && fresh(repr - old(repr))
        invariant Value().infos == before.infos
        invariant AllEdited(Value().stack, edits[i..]) == AllEdited(before.stack, edits)
      {
        Edit(edits[i]);
        assert edits[i..][1..] == edits[i + 1..];
      }
    }

    method UpdateAll(lines: seq<Line>)
      requires Valid()
      modifies this, repr
      ensures Valid() && fresh(repr - old(repr))
      ensures Value() == Run(old(Value()), lines)
    {
      for i := 0 to |lines|
        invariant Valid() && fresh(repr - old(repr))
        invariant Run(Value(), lines[i..]) == Run(old(Value()), lines)
      {
        Update(lines[i]);
        assert lines[i..][1..] == lines[i + 1..];
      }
    }
  }
}
