/** Runs of the request parser: cutting the input into calls, and printing what was read. */
module HttpRequestRuns {
  import opened Ascii
  import opened HttpCommon
  import opened HttpRequestParser

  // ---------- Fragment independence ----------

  function Join(fragments: seq<string>): string {
    if fragments == [] then "" else fragments[0] + Join(fragments[1..])
  }

  /** Successive `parse` calls, stopping at the first result other than Incomplete. */
  function ParseAll(m: Machine, fragments: seq<string>): Outcome
    requires m.Ok()
    decreases |fragments|
  {
    if fragments == [] then More(m)
    else
      var o := Consume(m, fragments[0]);
      if o.result.ParsingIncomplete? then ParseAll(o.m, fragments[1..]) else o
  }

  lemma {:induction false} ConsumeAppend(m: Machine, a: string, b: string)
    requires m.Ok()
    ensures var o := Consume(m, a);
            && (o.result.ParsingIncomplete? ==>
                  && Consumed(m, a) == |a|
                  && Consume(m, a + b) == Consume(o.m, b)
                  && Consumed(m, a + b) == |a| + Consumed(o.m, b))
            && (!o.result.ParsingIncomplete? ==>
                  && Consume(m, a + b) == o
                  && Consumed(m, a + b) == Consumed(m, a))
    decreases |a|
  {
    if a == "" {
      assert a + b == b;
    } else {
      assert (a + b)[1..] == a[1..] + b;
      var o := Step(m, a[0]);
      if o.result.ParsingIncomplete? { ConsumeAppend(o.m, a[1..], b); }
    }
  }

  /** However the input is cut into calls, result, parser state and message are the same. */
  lemma {:induction false} FragmentIndependence(m: Machine, fragments: seq<string>)
    requires m.Ok()
    ensures ParseAll(m, fragments) == Consume(m, Join(fragments))
    decreases |fragments|
  {
    if fragments != [] {
      ConsumeAppend(m, fragments[0], Join(fragments[1..]));
      var o := Consume(m, fragments[0]);
      if o.result.ParsingIncomplete? { FragmentIndependence(o.m, fragments[1..]); }
    }
  }

  // ---------- Printing ----------
  // Texts are built left to right, a byte at a time where the parser has a state for each byte, so
  // that reading a byte appends it.

  function Target(verb: string, uri: string): string { verb + " " + uri }

  function HttpSlash(t: string): string { t + " " + "H" + "T" + "T" + "P" + "/" }

  function StartLine(target: string, major: nat, minor: nat): string {
    HttpSlash(target) + Decimal(major) + "." + Decimal(minor) + "\r" + "\n"
  }

  function HeaderText(h: HeaderItem): string { h.name + ":" + " " + h.value }

  function HeaderLine(h: HeaderItem): string { HeaderText(h) + "\r" + "\n" }

  function HeaderLines(headers: seq<HeaderItem>): string {
    if headers == [] then "" else HeaderLines(Front(headers)) + HeaderLine(Last(headers))
  }

  function HeadBefore(r: Request, headers: seq<HeaderItem>): string {
    StartLine(Target(r.verb, r.uri), r.versionMajor, r.versionMinor) + HeaderLines(headers)
  }

  function Head(r: Request): string { HeadBefore(r, r.headers) }

  function Print(r: Request): string { Head(r) + "\r" + "\n" + r.content }

  /** The bytes of the start line that lead to state `s`. */
  function LinePrint(s: LineState, r: Request): string {
    var target := Target(r.verb, r.uri);
    match s
    case RequestMethodStart => ""
    case RequestMethod => r.verb
    case RequestUriStart => r.verb + " "
    case RequestUri => target
    case RequestHttpVersion_h => target + " "
    case RequestHttpVersion_ht => target + " " + "H"
    case RequestHttpVersion_htt => target + " " + "H" + "T"
    case RequestHttpVersion_http => target + " " + "H" + "T" + "T"
    case RequestHttpVersion_slash => target + " " + "H" + "T" + "T" + "P"
    case RequestHttpVersion_majorStart => HttpSlash(target)
    case RequestHttpVersion_major => HttpSlash(target) + Decimal(r.versionMajor)
    case RequestHttpVersion_minorStart => HttpSlash(target) + Decimal(r.versionMajor) + "."
    case RequestHttpVersion_minor => HttpSlash(target) + Decimal(r.versionMajor) + "." + Decimal(r.versionMinor)
    case ResponseHttpVersion_newLine =>
      HttpSlash(target) + Decimal(r.versionMajor) + "." + Decimal(r.versionMinor) + "\r"
  }

  /** The bytes of the last header line that lead to state `s`. */
  function ItemPrint(s: BlockState, h: HeaderItem): string {
    match s
    case HeaderName => h.name
    case SpaceBeforeHeaderValue => h.name + ":"
    case ExpectingNewline_2 => HeaderText(h) + "\r"
    case _ => HeaderText(h)
  }

  predicate InItem(s: State) {
    s in {Block(HeaderLws), Block(HeaderName), Block(SpaceBeforeHeaderValue), Block(HeaderValue), Block(ExpectingNewline_2)}
  }

  /** The bytes that lead to `m`; `sep` is the byte read after the CR that ends the head. */
  function PartialPrint(m: Machine, sep: char): string
    requires Clean(m)
  {
    var r := m.req;
    if m.state.Line? then LinePrint(m.state.line, r)
    else if InItem(m.state) then
      HeadBefore(r, Front(r.headers)) + ItemPrint(m.state.block, Last(r.headers))
    else if m.state == Block(HeaderLineStart) then Head(r)
    else if m.state == Block(ExpectingNewline_3) then Head(r) + "\r"
    else Head(r) + "\r" + [sep] + r.content
  }

  /** What a run that stopped in `o` prints as: Completed in the URI is the HTTP/0.9 short form. */
  function Printed(o: Outcome, sep: char): string
    requires Clean(o.m)
  {
    if o.result.ParsingCompleted? && o.m.state == Line(RequestUri) then Target(o.m.req.verb, o.m.req.uri) + "\r"
    else if o.result.ParsingCompleted? && o.m.state == Block(ExpectingNewline_3) then Print(o.m.req)
    else PartialPrint(o.m, sep)
  }

  /** Bytes the message does not record: a leading zero of the version, the line break and the blanks
      of a folded header, and the framing of a chunked body. */
  function StepLoss(m: Machine, c: char): nat {
    match m.state
    case Line(RequestHttpVersion_major) => if IsDigit(c) && m.req.versionMajor == 0 then 1 else 0
    case Line(RequestHttpVersion_minor) => if IsDigit(c) && m.req.versionMinor == 0 then 1 else 0
    case Block(HeaderLineStart) => if m.req.headers != [] && (c == ' ' || c == '\t') then 3 else 0
    case Block(HeaderLws) => if c == ' ' || c == '\t' then 1 else 0
    case Body(Post) => 0
    case Body(ChunkData) => 0
    case _ => if m.state.Body? then 1 else 0
  }

  function Loss(m: Machine, input: string): nat
    requires m.Ok()
    decreases |input|
  {
    if input == "" then 0
    else
      var o := Step(m, input[0]);
      StepLoss(m, input[0]) + if o.result.ParsingIncomplete? then Loss(o.m, input[1..]) else 0
  }

  /** The byte read in Block(ExpectingNewline_3), if the run got that far; `sep` otherwise. */
  function Separator(m: Machine, input: string, sep: char): char
    requires m.Ok()
    decreases |input|
  {
    if input == "" then sep
    else
      var o := Step(m, input[0]);
      var s := if m.state == Block(ExpectingNewline_3) then input[0] else sep;
      if o.result.ParsingIncomplete? then Separator(o.m, input[1..], s) else s
  }

  /** Fields a state has not reached yet are still empty. */
  predicate Clean(m: Machine) {
    && m.Ok()
    && (m.state == Line(RequestMethodStart) ==> m.req.verb == "")
    && (m.state in {Line(RequestMethodStart), Line(RequestMethod), Line(RequestUriStart)} ==> m.req.uri == "")
    && (m.state.Line? ==> m.req.headers == [])
    && (!m.state.Body? ==> m.req.content == "")
    && (m.state in {Block(HeaderName), Block(SpaceBeforeHeaderValue)} ==> Last(m.req.headers).value == "")
    && (m.state == Block(ExpectingNewline_2) ==> m.req.headers != [])
  }

  /** Reading `c` turns the text `t` into `t'` except for `loss` bytes. */
  ghost predicate Accounts(t: string, c: char, t': string, loss: nat) {
    && |t'| + loss == |t| + 1
    && (loss == 0 ==> t' == t + [c])
  }

  lemma Snoc(a: string, b: string, c: char)
    ensures a + (b + [c]) == a + b + [c]
  {
  }

  lemma AppendEmpty(a: string)
    ensures a + "" == a
  {
  }

  lemma DigitExtends(n: nat, c: char)
    requires IsDigit(c)
    ensures if n == 0 then Decimal(n * 10 + DigitValue(c)) == [c] && |Decimal(n)| == 1
            else Decimal(n * 10 + DigitValue(c)) == Decimal(n) + [c]
  {
    assert (n * 10 + DigitValue(c)) / 10 == n && (n * 10 + DigitValue(c)) % 10 == DigitValue(c);
  }

  lemma MajorAccounts(m: Machine, c: char)
    requires Clean(m) && IsDigit(c) && m.state in {Line(RequestHttpVersion_majorStart), Line(RequestHttpVersion_major)}
    ensures var o := LineStep(m, c);
            Accounts(LinePrint(m.state.line, m.req), c, LinePrint(o.m.state.line, o.m.req), StepLoss(m, c))
  {
    hide HttpSlash, Target, IsToken, IsControl, Decimal;
    var r, slash := m.req, HttpSlash(Target(m.req.verb, m.req.uri));
    DigitIsDecimal(c);
    DigitExtends(r.versionMajor, c);
    Snoc(slash, Decimal(r.versionMajor), c);
  }

  lemma MinorAccounts(m: Machine, c: char)
    requires Clean(m) && IsDigit(c) && m.state in {Line(RequestHttpVersion_minorStart), Line(RequestHttpVersion_minor)}
    ensures var o := LineStep(m, c);
            Accounts(LinePrint(m.state.line, m.req), c, LinePrint(o.m.state.line, o.m.req), StepLoss(m, c))
  {
    hide HttpSlash, Target, IsToken, IsControl, Decimal;
    var r, slash := m.req, HttpSlash(Target(m.req.verb, m.req.uri));
    DigitIsDecimal(c);
    DigitExtends(r.versionMinor, c);
    Snoc(slash + Decimal(r.versionMajor) + ".", Decimal(r.versionMinor), c);
  }

  lemma DigitIsDecimal(c: char)
    requires IsDigit(c)
    ensures Decimal(DigitValue(c)) == [c]
  {
  }

  lemma VersionAccounts(m: Machine, c: char)
    requires Clean(m) && IsDigit(c) && InVersion(m.state)
    ensures var o := LineStep(m, c);
            Accounts(LinePrint(m.state.line, m.req), c, LinePrint(o.m.state.line, o.m.req), StepLoss(m, c))
  {
    hide LineStep, Accounts, LinePrint, StepLoss;
    if m.state in {Line(RequestHttpVersion_majorStart), Line(RequestHttpVersion_major)} {
      MajorAccounts(m, c);
    } else {
      MinorAccounts(m, c);
    }
  }

  lemma TextAppends(verb: string, uri: string, c: char)
    ensures "" + [c] == [c] && verb + " " + [c] == Target(verb, "" + [c])
    ensures Target(verb, uri + [c]) == Target(verb, uri) + [c]
  {
    Snoc(verb + " ", uri, c);
  }

  predicate InVersion(s: State) {
    s in {Line(RequestHttpVersion_majorStart), Line(RequestHttpVersion_major),
          Line(RequestHttpVersion_minorStart), Line(RequestHttpVersion_minor)}
  }

  lemma LineAppends(m: Machine, c: char)
    requires Clean(m) && m.state.Line? && !(IsDigit(c) && InVersion(m.state))
    requires var o := LineStep(m, c); o.result.ParsingIncomplete? && o.m.state.Line?
    ensures var o := LineStep(m, c);
            LinePrint(o.m.state.line, o.m.req) == LinePrint(m.state.line, m.req) + [c]
  {
    hide IsToken, IsControl, Decimal, Target, HttpSlash;
    match m.state.line
    case RequestMethodStart => TextAppends("", "", c);
    case RequestUriStart => TextAppends(m.req.verb, "", c);
    case RequestUri => TextAppends(m.req.verb, m.req.uri, c);
    case RequestHttpVersion_slash => SlashAppends(Target(m.req.verb, m.req.uri));
    case _ =>
  }

  lemma SlashAppends(target: string)
    ensures HttpSlash(target) == target + " " + "H" + "T" + "T" + "P" + "/"
  {
  }

  /** Transitions inside a header line, and the one that ends it. */
  lemma ItemAccounts(before: string, h: HeaderItem, c: char)
    ensures Accounts(before + ItemPrint(HeaderName, h), c, before + ItemPrint(HeaderName, HeaderItem(h.name + [c], h.value)), 0)
    ensures Accounts(before + ItemPrint(HeaderValue, h), c, before + ItemPrint(HeaderValue, HeaderItem(h.name, h.value + [c])), 0)
    ensures Accounts(before + ItemPrint(HeaderName, h), ':', before + ItemPrint(SpaceBeforeHeaderValue, h), 0)
    ensures h.value == "" ==>
              Accounts(before + ItemPrint(SpaceBeforeHeaderValue, h), ' ', before + ItemPrint(HeaderValue, h), 0)
    ensures Accounts(before + ItemPrint(HeaderValue, h), '\r', before + ItemPrint(ExpectingNewline_2, h), 0)
    ensures Accounts(before + ItemPrint(ExpectingNewline_2, h), '\n', before + HeaderLine(h), 0)
  {
    Snoc(before, h.name, c);
    Snoc(h.name + ":" + " ", h.value, c);
    Snoc(before, HeaderText(h), c);
    Snoc(before, h.name, ':');
    Snoc(before, h.name + ":", ' ');
    AppendEmpty(h.name + ":" + " ");
    Snoc(before, HeaderText(h), '\r');
    Snoc(before, HeaderText(h) + "\r", '\n');
  }

  lemma HeadSplits(r: Request, headers: seq<HeaderItem>, h: HeaderItem)
    ensures HeadBefore(r, headers + [h]) == HeadBefore(r, headers) + HeaderLine(h)
  {
    hide StartLine, HeaderLine;
    assert Front(headers + [h]) == headers && Last(headers + [h]) == h;
    assert HeaderLines(headers + [h]) == HeaderLines(headers) + HeaderLine(h);
  }

  /** Where a byte inside a header line leads, and what it does to the line. */
  ghost predicate MovesTo(m: Machine, n: Machine, s: BlockState, h: HeaderItem)
    requires m.req.headers != []
  {
    n.state == Block(s) && n.req == m.req.(headers := Front(m.req.headers) + [h])
  }

  lemma ItemMoves(m: Machine, c: char)
    requires Clean(m) && InItem(m.state) && BlockStep(m, c).result.ParsingIncomplete?
    ensures var n, h := BlockStep(m, c).m, Last(m.req.headers);
            match m.state.block
            case HeaderName =>
              if c == ':' then MovesTo(m, n, SpaceBeforeHeaderValue, h)
              else MovesTo(m, n, HeaderName, HeaderItem(h.name + [c], h.value))
            case SpaceBeforeHeaderValue => c == ' ' && MovesTo(m, n, HeaderValue, h)
            case ExpectingNewline_2 => c == '\n' && MovesTo(m, n, HeaderLineStart, h)
            case s =>
              if c == '\r' then MovesTo(m, n, ExpectingNewline_2, h)
              else if s.HeaderLws? && (c == ' ' || c == '\t') then MovesTo(m, n, HeaderLws, h)
              else MovesTo(m, n, HeaderValue, HeaderItem(h.name, h.value + [c]))
  {
    hide IsToken, IsControl, IsContentLength, IsChunked, HasBody, Atoi, KeepAlive;
    assert m.req.headers == Front(m.req.headers) + [Last(m.req.headers)];
  }

  lemma ItemStepAccounts(m: Machine, c: char, sep: char)
    requires Clean(m) && InItem(m.state) && BlockStep(m, c).result.ParsingIncomplete?
    ensures var o := BlockStep(m, c);
            Clean(o.m) && Accounts(PartialPrint(m, sep), c, PartialPrint(o.m, sep), StepLoss(m, c))
  {
    hide BlockStep, StartLine, HeaderLines, HeaderLine, HeaderText, LinePrint, Print, ItemPrint, HeadBefore;
    var r, r' := m.req, BlockStep(m, c).m.req;
    var front, h := Front(r.headers), Last(r.headers);
    ItemMoves(m, c);
    ItemAccounts(HeadBefore(r, front), h, c);
    HeadSplits(r, front, h);
    SameItemText(h);
    HeadOnlyNeedsLine(r, r', front);
    assert Front(r'.headers) == front && r.headers == front + [h];
  }

  lemma SameItemText(h: HeaderItem)
    ensures ItemPrint(HeaderLws, h) == ItemPrint(HeaderValue, h)
  {
  }

  lemma HeadOnlyNeedsLine(r: Request, r': Request, headers: seq<HeaderItem>)
    requires r' == r.(headers := r'.headers)
    ensures HeadBefore(r', headers) == HeadBefore(r, headers)
  {
    hide StartLine, HeaderLines;
  }

  lemma LineStartAccounts(m: Machine, c: char, sep: char)
    requires Clean(m) && m.state == Block(HeaderLineStart) && BlockStep(m, c).result.ParsingIncomplete?
    ensures var o := BlockStep(m, c);
            Clean(o.m) && Accounts(PartialPrint(m, sep), c, PartialPrint(o.m, sep), StepLoss(m, c))
  {
    hide StartLine, HeaderLines, LinePrint, HeaderText, IsToken;
    var hs, hs' := m.req.headers, BlockStep(m, c).m.req.headers;
    if |hs'| > |hs| {
      assert Front(hs') == hs;
    } else if hs != [] {
      assert hs == Front(hs) + [Last(hs)];
      HeadSplits(m.req, Front(hs), Last(hs));
    }
  }

  lemma HeadEndAccounts(m: Machine, c: char, sep: char)
    requires Clean(m) && m.state == Block(ExpectingNewline_3)
    requires BlockStep(m, c).result in {ParsingIncomplete, ParsingCompleted}
    ensures var o := BlockStep(m, c);
            && Clean(o.m) && (o.result.ParsingIncomplete? ==> o.m.state.Body?)
            && Accounts(PartialPrint(m, sep), c, Printed(o, c), StepLoss(m, c))
  {
    hide StartLine, HeaderLines, LinePrint, ItemPrint, KeepAlive;
    AppendEmpty(Head(m.req) + "\r" + [c]);
  }

  lemma BodyStepAccounts(m: Machine, c: char, sep: char)
    requires Clean(m) && m.state.Body?
    requires BodyStep(m, c).result in {ParsingIncomplete, ParsingCompleted}
    ensures var o := BodyStep(m, c);
            && Clean(o.m) && o.m.state.Body?
            && Accounts(PartialPrint(m, sep), c, PartialPrint(o.m, sep), StepLoss(m, c))
  {
    hide StartLine, HeaderLines, LinePrint, ItemPrint, ChunkLength, IsAlnum, IsAlpha;
    Snoc(Head(m.req) + "\r" + [sep], m.req.content, c);
  }

  lemma LineStepAccounts(m: Machine, c: char, sep: char)
    requires Clean(m) && m.state.Line?
    requires LineStep(m, c).result in {ParsingIncomplete, ParsingCompleted}
    ensures var o := LineStep(m, c);
            && Clean(o.m) && !o.m.state.Body?
            && Accounts(PartialPrint(m, sep), c, Printed(o, sep), StepLoss(m, c))
  {
    hide Accounts, LinePrint, HeadBefore, IsToken, IsControl;
    if m.state == Line(ResponseHttpVersion_newLine) {
      StartLineEnds(m);
    } else if IsDigit(c) && InVersion(m.state) {
      VersionAccounts(m, c);
    } else if LineStep(m, c).result.ParsingIncomplete? {
      LineAppends(m, c);
      AppendAccounts(LinePrint(m.state.line, m.req), c);
    } else {
      ShortFormAccounts(m);
    }
  }

  lemma NoneCompletesInHeader(m: Machine, c: char)
    requires m.Ok() && m.state.Block? && m.state != Block(ExpectingNewline_3)
    ensures !BlockStep(m, c).result.ParsingCompleted? && !BlockStep(m, c).m.state.Body?
  {
    hide IsToken, IsControl, IsContentLength, IsChunked, HasBody, Atoi, KeepAlive, AppendToName, AppendToValue;
  }

  lemma BodyCompletesInBody(m: Machine, c: char)
    requires m.state.Body?
    ensures BodyStep(m, c).m.state.Body?
  {
    hide IsAlnum, IsAlpha, ChunkLength;
  }

  lemma StepAccounts(m: Machine, c: char, sep: char)
    requires Clean(m) && (sep != '\n' ==> m.state.Body?)
    requires Step(m, c).result in {ParsingIncomplete, ParsingCompleted}
    ensures var o, sep' := Step(m, c), if m.state == Block(ExpectingNewline_3) then c else sep;
            && Clean(o.m) && (sep' != '\n' ==> o.m.state.Body?)
            && Accounts(PartialPrint(m, sep), c, Printed(o, sep'), StepLoss(m, c))
  {
    if m.state == Block(ExpectingNewline_3) {
      HeadEndAccounts(m, c, sep);
      HeadEndSeparates(m, c);
      return;
    }
    hide Accounts, LineStep, BlockStep, BodyStep, PartialPrint, StepLoss, Clean;
    if m.state.Line? {
      LineStepAccounts(m, c, sep);
    } else if m.state.Block? {
      CleanIsOk(m);
      NoneCompletesInHeader(m, c);
      if InItem(m.state) { ItemStepAccounts(m, c, sep); } else { LineStartAccounts(m, c, sep); }
    } else {
      BodyCompletesInBody(m, c);
      BodyStepAccounts(m, c, sep);
    }
  }

  lemma CleanIsOk(m: Machine)
    requires Clean(m)
    ensures m.Ok()
  {
  }

  lemma HeadEndSeparates(m: Machine, c: char)
    requires m.Ok() && m.state == Block(ExpectingNewline_3) && BlockStep(m, c).result in {ParsingIncomplete, ParsingCompleted}
    ensures c != '\n' ==> BlockStep(m, c).m.state.Body?
  {
    hide KeepAlive;
  }

  lemma AppendAccounts(t: string, c: char)
    ensures Accounts(t, c, t + [c], 0)
  {
  }

  lemma ShortFormAccounts(m: Machine)
    requires m.state == Line(RequestUri)
    ensures Accounts(LinePrint(RequestUri, m.req), '\r', Target(m.req.verb, m.req.uri) + "\r", 0)
  {
  }

  lemma StartLineEnds(m: Machine)
    requires Clean(m) && m.state == Line(ResponseHttpVersion_newLine)
    ensures Accounts(LinePrint(m.state.line, m.req), '\n', Head(m.req), 0)
  {
    hide HttpSlash, Target;
    AppendEmpty(StartLine(Target(m.req.verb, m.req.uri), m.req.versionMajor, m.req.versionMinor));
  }

  lemma {:induction false} RunAccounts(m: Machine, input: string, sep: char, before: string, lost: nat)
    requires Clean(m) && (sep != '\n' ==> m.state.Body?)
    requires |before| == |PartialPrint(m, sep)| + lost
    requires lost == 0 ==> before == PartialPrint(m, sep)
    requires Consume(m, input).result in {ParsingIncomplete, ParsingCompleted}
    ensures var o, sep' := Consume(m, input), Separator(m, input, sep);
            var read := before + input[..Consumed(m, input)];
            && Clean(o.m) && (sep' != '\n' ==> o.m.state.Body?)
            && |read| == |Printed(o, sep')| + lost + Loss(m, input)
            && (lost + Loss(m, input) == 0 ==> read == Printed(o, sep'))
    decreases |input|
  {
    hide Head, LinePrint, ItemPrint, LineStep, BlockStep, BodyStep, StepLoss, Print;
    if input == "" {
      assert before + input[..0] == before;
    } else {
      var c := input[0];
      var o, sep', loss := Step(m, c), if m.state == Block(ExpectingNewline_3) then c else sep, StepLoss(m, c);
      StepAccounts(m, c, sep);
      if o.result.ParsingIncomplete? {
        RunAccounts(o.m, input[1..], sep', before + [c], lost + loss);
        assert before + [c] + input[1..][..Consumed(o.m, input[1..])] == before + input[..Consumed(m, input)];
      } else {
        assert before + input[..1] == before + [c];
      }
    }
  }

  /** Whatever a fresh parser has read without an error is as long as the message it holds prints, plus
      the bytes the message does not record; and it is that print exactly when nothing was lost and the
      head ended in LF, the one byte the parser leaves unchecked when a body follows. */
  lemma ParseThenPrint(input: string)
    requires Consume(FRESH, input).result in {ParsingIncomplete, ParsingCompleted}
    ensures var o, read := Consume(FRESH, input), input[..Consumed(FRESH, input)];
            && Clean(o.m)
            && |read| == |Printed(o, '\n')| + Loss(FRESH, input)
            && (read == Printed(o, '\n') <==> Loss(FRESH, input) == 0 && Separator(FRESH, input, '\n') == '\n')
  {
    hide Head, ItemPrint, Print, Step;
    assert PartialPrint(FRESH, '\n') == "";
    RunAccounts(FRESH, input, '\n', "", 0);
    var o, sep := Consume(FRESH, input), Separator(FRESH, input, '\n');
    assert "" + input[..Consumed(FRESH, input)] == input[..Consumed(FRESH, input)];
    if sep != '\n' {
      var head := Head(o.m.req) + "\r";
      assert (head + [sep] + o.m.req.content)[|head|] == sep;
      assert (head + ['\n'] + o.m.req.content)[|head|] == '\n';
      assert |Printed(o, sep)| == |Printed(o, '\n')|;
    }
  }
}
