/** Only the first branch of a conditional counts: on any file the nesting stack is the one of the same
    file with every #else and #elif branch deleted. */
module PreprocessorTransparency {
  import opened NestingState

  // ---------- Every file, nested or not ----------

  /** For each open conditional, whether its #else was seen. */
  function Next(d: Directive, inElse: seq<bool>): seq<bool> {
    if d == If then inElse + [false]
    else if d == Ordinary || inElse == [] then inElse
    else if d == Else then Below(inElse) + [true]
    else Below(inElse)
  }

  /** The file without the lines from an #else or #elif up to its #endif, which stays. */
  function Kept(lines: seq<Line>, inElse: seq<bool>): seq<Line> {
    if lines == [] then []
    else
      var next := Next(DirectiveOf(lines[0].text), inElse);
      (if true in next then [] else [lines[0]]) + Kept(lines[1..], next)
  }

  ghost function InElse(infos: seq<Info>): seq<bool>
    decreases |infos|
  {
    if infos == [] then [] else InElse(Below(infos)) + [Top(infos).seenElse]
  }

  /** The stack, were every open conditional to end here. */
  ghost function Unwound(stack: seq<Scope>, infos: seq<Info>): seq<Scope>
    decreases |infos|
  {
    if infos == [] then stack
    else Unwound(if Top(infos).seenElse then Top(infos).beforeElse else stack, Below(infos))
  }

  lemma {:induction false} UnwoundInElse(stack: seq<Scope>, other: seq<Scope>, infos: seq<Info>)
    ensures true !in InElse(infos) ==> Unwound(stack, infos) == stack
    ensures true in InElse(infos) ==> Unwound(stack, infos) == Unwound(other, infos)
    decreases |infos|
  {
    if infos != [] {
      UnwoundInElse(stack, other, Below(infos));
    }
  }

  lemma PreprocessedUnwinds(st: State, d: Directive)
    ensures var p := Preprocessed(st, d);
            Unwound(p.stack, p.infos) == Unwound(st.stack, st.infos) && InElse(p.infos) == Next(d, InElse(st.infos))
  {
    var p := Preprocessed(st, d);
    if d == If {
      assert Below(p.infos) == st.infos;
    } else if d == Else && st.infos != [] {
      assert Below(p.infos) == Below(st.infos) && Below(InElse(st.infos)) == InElse(Below(st.infos));
    } else if d == Endif && st.infos != [] {
      assert Below(InElse(st.infos)) == InElse(Below(st.infos));
    }
  }

  lemma StepUnwinds(st: State, line: Line)
    ensures var r := Step(st, line);
            && InElse(r.infos) == Next(DirectiveOf(line.text), InElse(st.infos))
            && Unwound(r.stack, r.infos) ==
               if true in InElse(r.infos) then Unwound(st.stack, st.infos) else Effect(line, Unwound(st.stack, st.infos))
  {
    hide Next, Preprocessed, Unwound, Effect;
    PreprocessedUnwinds(st, DirectiveOf(line.text));
    var p := Preprocessed(st, DirectiveOf(line.text));
    UnwoundInElse(p.stack, Effect(line, p.stack), p.infos);
    UnwoundInElse(Effect(line, p.stack), p.stack, p.infos);
  }

  /** Whatever the lines and the state they start in: what remains once every conditional is closed is
      the effect of the kept lines alone. */
  lemma {:induction false} OnlyKeptLinesCount(st: State, lines: seq<Line>)
    ensures var r := Run(st, lines);
            Unwound(r.stack, r.infos) == Effects(Kept(lines, InElse(st.infos)), Unwound(st.stack, st.infos))
    decreases |lines|
  {
    hide Next, Step, Unwound, Effect, InElse;
    if lines != [] {
      StepUnwinds(st, lines[0]);
      OnlyKeptLinesCount(Step(st, lines[0]), lines[1..]);
      var next := Next(DirectiveOf(lines[0].text), InElse(st.infos));
      var rest := Kept(lines[1..], next);
      assert [] + rest == rest && ([lines[0]] + rest)[1..] == rest;
    }
  }

  /** How many of the open conditionals the kept file has. */
  ghost function KeptDepth(inElse: seq<bool>): nat
    decreases |inElse|
  {
    if inElse != [] && true in Below(inElse) then KeptDepth(Below(inElse)) else |inElse|
  }

  ghost predicate FollowsKept(st: State, kept: State) {
    && kept.stack == Unwound(st.stack, st.infos)
    && true !in InElse(kept.infos)
    && |kept.infos| == KeptDepth(InElse(st.infos))
  }

  lemma {:induction false} InElseLength(infos: seq<Info>)
    ensures |InElse(infos)| == |infos|
    decreases |infos|
  {
    if infos != [] { InElseLength(Below(infos)); }
  }

  lemma NextKeptDepth(d: Directive, inElse: seq<bool>)
    ensures var next := Next(d, inElse);
            KeptDepth(next) ==
              if true in next then
                if true in inElse then KeptDepth(inElse) else |inElse|
              else |next|
    ensures true !in inElse ==> KeptDepth(inElse) == |inElse|
    ensures true in inElse && true !in Next(d, inElse) ==> KeptDepth(inElse) == |inElse|
  {
    var next := Next(d, inElse);
    if inElse != [] { assert inElse == Below(inElse) + [Top(inElse)]; }
    if next != [] { assert next == Below(next) + [Top(next)]; }
    if d == If { assert Below(next) == inElse; }
    if d == Else && inElse != [] { assert Below(next) == Below(inElse); }
  }

  lemma NextOfNone(d: Directive, inElse: seq<bool>, plain: seq<bool>)
    requires true !in plain && |plain| == KeptDepth(inElse) && true !in Next(d, inElse)
    ensures true !in Next(d, plain) && |Next(d, plain)| == |Next(d, inElse)|
  {
    NextKeptDepth(d, inElse);
    if plain != [] { assert plain == Below(plain) + [Top(plain)]; }
  }

  lemma StepFollows(st: State, kept: State, line: Line)
    requires FollowsKept(st, kept)
    ensures FollowsKept(Step(st, line), if true in InElse(Step(st, line).infos) then kept else Step(kept, line))
  {
    hide Step, Unwound, InElse, Next, KeptDepth, Effect;
    var d, inElse := DirectiveOf(line.text), InElse(st.infos);
    StepUnwinds(st, line);
    StepUnwinds(kept, line);
    NextKeptDepth(d, inElse);
    InElseLength(st.infos);
    InElseLength(kept.infos);
    InElseLength(Step(kept, line).infos);
    UnwoundInElse(kept.stack, kept.stack, kept.infos);
    UnwoundInElse(Step(kept, line).stack, kept.stack, Step(kept, line).infos);
    if true !in Next(d, inElse) { NextOfNone(d, inElse, InElse(kept.infos)); }
  }

  lemma {:induction false} RunFollows(st: State, kept: State, lines: seq<Line>)
    requires FollowsKept(st, kept)
    ensures FollowsKept(Run(st, lines), Run(kept, Kept(lines, InElse(st.infos))))
    decreases |lines|
  {
    hide FollowsKept, Step, InElse, Next;
    if lines != [] {
      StepFollows(st, kept, lines[0]);
      StepUnwinds(st, lines[0]);
      var next := Next(DirectiveOf(lines[0].text), InElse(st.infos));
      var rest := Kept(lines[1..], next);
      RunFollows(Step(st, lines[0]), if true in next then kept else Step(kept, lines[0]), lines[1..]);
      assert [] + rest == rest && ([lines[0]] + rest)[1..] == rest;
    }
  }

  /** Outside every #else the stack of a file is the stack of the file without its #else and #elif
      branches; inside one, it is so once the conditionals are closed. */
  lemma SameWithoutElseBranches(lines: seq<Line>)
    ensures var r, kept := Run(State([], []), lines), Run(State([], []), Kept(lines, []));
            && kept.stack == Unwound(r.stack, r.infos)
            && (true !in InElse(r.infos) ==> r.stack == kept.stack && |r.infos| == |kept.infos|)
  {
    RunFollows(State([], []), State([], []), lines);
    var r := Run(State([], []), lines);
    UnwoundInElse(r.stack, r.stack, r.infos);
    InElseLength(r.infos);
    NextKeptDepth(Ordinary, InElse(r.infos));
  }

  // ---------- Nested conditionals ----------

  datatype Doc =
    | Nil
    | Plain(line: Line, rest: Doc)
    | Cond(ifLine: Line, first: Doc, branches: Branches, endLine: Line, rest: Doc)

  datatype Branches = Done | Branch(elseLine: Line, body: Doc, more: Branches)

  ghost predicate Nested(doc: Doc) {
    match doc
    case Nil => true
    case Plain(l, rest) => DirectiveOf(l.text) == Ordinary && Nested(rest)
    case Cond(i, first, branches, e, rest) =>
      && DirectiveOf(i.text) == If && DirectiveOf(e.text) == Endif
      && Nested(first) && NestedBranches(branches) && Nested(rest)
  }

  ghost predicate NestedBranches(bs: Branches) {
    bs.Branch? ==> DirectiveOf(bs.elseLine.text) == Else && Nested(bs.body) && NestedBranches(bs.more)
  }

  ghost function Lines(doc: Doc): seq<Line> {
    match doc
    case Nil => []
    case Plain(l, rest) => [l] + Lines(rest)
    case Cond(i, first, branches, e, rest) => [i] + (Lines(first) + (BranchLines(branches) + ([e] + Lines(rest))))
  }

  ghost function BranchLines(bs: Branches): seq<Line> {
    match bs case Done => [] case Branch(l, body, more) => [l] + (Lines(body) + BranchLines(more))
  }

  /** The lines with the branches behind #else and #elif deleted. */
  ghost function FirstBranches(doc: Doc): seq<Line> {
    match doc
    case Nil => []
    case Plain(l, rest) => [l] + FirstBranches(rest)
    case Cond(i, first, branches, e, rest) => [i] + (FirstBranches(first) + ([e] + FirstBranches(rest)))
  }

  lemma {:induction false} RunAppend(st: State, a: seq<Line>, b: seq<Line>)
    ensures Run(st, a + b) == Run(Run(st, a), b)
    decreases |a|
  {
    if a == [] {
      assert a + b == b;
    } else {
      assert (a + b)[1..] == a[1..] + b;
      RunAppend(Step(st, a[0]), a[1..], b);
    }
  }

  lemma {:induction false} EffectsAppend(stack: seq<Scope>, a: seq<Line>, b: seq<Line>)
    ensures Effects(a + b, stack) == Effects(b, Effects(a, stack))
    decreases |a|
  {
    if a == [] {
      assert a + b == b;
    } else {
      assert (a + b)[1..] == a[1..] + b;
      EffectsAppend(Effect(a[0], stack), a[1..], b);
    }
  }

  lemma First(st: State, l: Line, rest: seq<Line>)
    ensures Run(st, [l] + rest) == Run(Step(st, l), rest)
    ensures Effects([l] + rest, st.stack) == Effects(rest, Effect(l, st.stack))
  {
    assert ([l] + rest)[1..] == rest;
  }

  /** Branches behind an #else come to nothing: the checkpoint taken there is still on top. */
  lemma {:induction false} BranchesRun(bs: Branches, st: State)
    requires NestedBranches(bs) && st.infos != [] && Top(st.infos).seenElse
    ensures Run(st, BranchLines(bs)).infos == st.infos
  {
    if bs.Branch? {
      var l, st1 := bs.elseLine, Step(st, bs.elseLine);
      assert Below(st.infos) + [Top(st.infos)] == st.infos;
      First(st, l, Lines(bs.body) + BranchLines(bs.more));
      RunAppend(st1, Lines(bs.body), BranchLines(bs.more));
      OnlyFirstBranchesCount(bs.body, st1);
      BranchesRun(bs.more, Run(st1, Lines(bs.body)));
    }
  }

  /** From the first #else of a conditional to its #endif: the stack found at the #else comes back. */
  lemma {:induction false} ConditionalEnds(bs: Branches, st: State, e: Line)
    requires NestedBranches(bs) && st.infos != [] && !Top(st.infos).seenElse && DirectiveOf(e.text) == Endif
    ensures Step(Run(st, BranchLines(bs)), e) == State(Effect(e, st.stack), Below(st.infos))
    decreases bs, 1
  {
    if bs.Branch? {
      var l, st1 := bs.elseLine, Step(st, bs.elseLine);
      assert st1.infos == Below(st.infos) + [Info(Top(st.infos).beforeIf, st.stack, true)];
      First(st, l, Lines(bs.body) + BranchLines(bs.more));
      RunAppend(st1, Lines(bs.body), BranchLines(bs.more));
      OnlyFirstBranchesCount(bs.body, st1);
      BranchesRun(bs.more, Run(st1, Lines(bs.body)));
      assert Below(st1.infos) == Below(st.infos);
    }
  }

  /** Conditionals nested to any depth leave the stack their first branches make, and no checkpoint. */
  lemma {:induction false} OnlyFirstBranchesCount(doc: Doc, st: State)
    requires Nested(doc)
    ensures Run(st, Lines(doc)) == State(Effects(FirstBranches(doc), st.stack), st.infos)
    decreases doc, 0
  {
    match doc
    case Nil =>
    case Plain(l, rest) =>
      First(st, l, Lines(rest));
      First(st, l, FirstBranches(rest));
      OnlyFirstBranchesCount(rest, Step(st, l));
    case Cond(i, first, branches, e, rest) =>
      var st1 := Step(st, i);
      assert Below(st1.infos) == st.infos;
      OnlyFirstBranchesCount(first, st1);
      var st2 := Run(st1, Lines(first));
      ConditionalEnds(branches, st2, e);
      var st3 := Step(Run(st2, BranchLines(branches)), e);
      OnlyFirstBranchesCount(rest, st3);
      CondRuns(st, i, Lines(first), BranchLines(branches), e, Lines(rest));
      First(st, i, FirstBranches(first) + ([e] + FirstBranches(rest)));
      EffectsAppend(st1.stack, FirstBranches(first), [e] + FirstBranches(rest));
      First(st2, e, FirstBranches(rest));
  }

  lemma CondRuns(st: State, i: Line, first: seq<Line>, branches: seq<Line>, e: Line, rest: seq<Line>)
    ensures Run(st, [i] + (first + (branches + ([e] + rest)))) == Run(Step(Run(Run(Step(st, i), first), branches), e), rest)
  {
    hide Run, Step;
    First(st, i, first + (branches + ([e] + rest)));
    RunAppend(Step(st, i), first, branches + ([e] + rest));
    RunAppend(Run(Step(st, i), first), branches, [e] + rest);
    First(Run(Run(Step(st, i), first), branches), e, rest);
  }

  // ---------- The kept lines of nested conditionals are their first branches ----------

  lemma KeptFirst(l: Line, rest: seq<Line>, inElse: seq<bool>)
    ensures var next := Next(DirectiveOf(l.text), inElse);
            Kept([l] + rest, inElse) == (if true in next then [] else [l]) + Kept(rest, next)
  {
    assert ([l] + rest)[1..] == rest;
  }

  lemma {:induction false} BranchesDropped(bs: Branches, inElse: seq<bool>, after: seq<Line>)
    requires NestedBranches(bs) && inElse != [] && Top(inElse)
    ensures Kept(BranchLines(bs) + after, inElse) == Kept(after, inElse)
    decreases bs, 1
  {
    hide Kept;
    match bs
    case Branch(l, body, more) =>
      var tail := BranchLines(more) + after;
      Regroup([l], Lines(body) + BranchLines(more), after);
      Regroup(Lines(body), BranchLines(more), after);
      KeptFirst(l, Lines(body) + tail, inElse);
      assert Below(inElse) + [true] == inElse && true in inElse;
      KeptOfNested(body, inElse, tail);
      Nothing(Kept(tail, inElse));
      BranchesDropped(more, inElse, after);
    case Done =>
      Nothing(after);
  }

  lemma Regroup(a: seq<Line>, b: seq<Line>, c: seq<Line>)
    ensures (a + b) + c == a + (b + c)
  {
  }

  lemma {:induction false} ConditionalDropped(bs: Branches, inElse: seq<bool>, e: Line, after: seq<Line>)
    requires NestedBranches(bs) && DirectiveOf(e.text) == Endif
    ensures Kept(BranchLines(bs) + ([e] + after), inElse + [false]) ==
            (if true in inElse then [] else [e]) + Kept(after, inElse)
    decreases bs, 1
  {
    hide Kept;
    KeptFirst(e, after, inElse + [true]);
    KeptFirst(e, after, inElse + [false]);
    assert Below(inElse + [true]) == inElse == Below(inElse + [false]);
    match bs
    case Branch(l, body, more) =>
      var tail := BranchLines(more) + ([e] + after);
      Regroup([l], Lines(body) + BranchLines(more), [e] + after);
      Regroup(Lines(body), BranchLines(more), [e] + after);
      KeptFirst(l, Lines(body) + tail, inElse + [false]);
      assert (inElse + [true])[|inElse|];
      KeptOfNested(body, inElse + [true], tail);
      BranchesDropped(more, inElse + [true], [e] + after);
    case Done =>
      assert [] + ([e] + after) == [e] + after;
  }

  lemma {:induction false} KeptOfNested(doc: Doc, inElse: seq<bool>, after: seq<Line>)
    requires Nested(doc)
    ensures Kept(Lines(doc) + after, inElse) == (if true in inElse then [] else FirstBranches(doc)) + Kept(after, inElse)
    decreases doc, 0
  {
    hide Kept;
    match doc
    case Nil => assert [] + after == after;
    case Plain(l, rest) =>
      Regroup([l], Lines(rest), after);
      KeptFirst(l, Lines(rest) + after, inElse);
      KeptOfNested(rest, inElse, after);
      Regroup([l], FirstBranches(rest), Kept(after, inElse));
    case Cond(i, first, branches, e, rest) =>
      var tail := [e] + (Lines(rest) + after);
      KeptFirst(i, Lines(first) + (BranchLines(branches) + tail), inElse);
      KeptOfNested(first, inElse + [false], BranchLines(branches) + tail);
      ConditionalDropped(branches, inElse, e, Lines(rest) + after);
      KeptOfNested(rest, inElse, after);
      Regrouped(i, Lines(first), BranchLines(branches), e, Lines(rest), after);
      Regrouped(i, FirstBranches(first), [], e, FirstBranches(rest), Kept(after, inElse));
      Nothing(Kept(after, inElse));
      Nothing([e] + FirstBranches(rest));
      Nothing([e] + (FirstBranches(rest) + Kept(after, inElse)));
  }

  lemma Regrouped(i: Line, a: seq<Line>, b: seq<Line>, e: Line, c: seq<Line>, d: seq<Line>)
    ensures [i] + (a + (b + ([e] + c))) + d == [i] + (a + (b + ([e] + (c + d))))
  {
  }

  lemma Nothing(a: seq<Line>)
    ensures [] + a == a
  {
  }

  /** Of nested conditionals the kept lines are the first branches. */
  lemma KeptAreFirstBranches(doc: Doc)
    requires Nested(doc)
    ensures Kept(Lines(doc), []) == FirstBranches(doc)
  {
    KeptOfNested(doc, [], []);
    assert Lines(doc) + [] == Lines(doc) && FirstBranches(doc) + [] == FirstBranches(doc);
  }
}
