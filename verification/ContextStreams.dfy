/** What goes through a connection: over all runs nothing is lost, doubled or reordered, and no output is
    left without an event that resumes it; `syncWrite` joins in only where nothing was taken before. */
module ContextStreams {
  import opened Context

  // ---------- One call ----------

  /** `r` has taken or kept what `s` had under way and `data` behind it; a failed context has sent no more
      than a prefix. */
  ghost predicate Extends(s: State, r: State, data: string) {
    if r.status == Valid then r.accepted + r.wbuffer == s.accepted + s.wbuffer + data
    else r.accepted <= s.accepted + s.wbuffer + data
  }

  lemma {:induction false} FlushConserves(s: State, answers: seq<Answer>)
    requires s.status == Valid
    ensures Extends(s, Flushed(s, answers), "")
    ensures Flushed(s, answers).status == Valid ==> Flushed(s, answers).wbuffer == "" || Flushed(s, answers).armed
    decreases |s.wbuffer|
  {
    assert s.accepted + s.wbuffer + "" == s.accepted + s.wbuffer;
    if s.wbuffer != "" && First(answers).Count? && First(answers).n > 0 {
      var k := Least(First(answers).n, |s.wbuffer|);
      var t := s.(accepted := s.accepted + s.wbuffer[..k], wbuffer := s.wbuffer[k..]);
      assert t.accepted + t.wbuffer == s.accepted + s.wbuffer;
      FlushConserves(t, Rest(answers));
    }
  }

  lemma AsyncConserves(s: State, data: string, answers: seq<Answer>)
    requires s.status == Valid
    ensures Extends(s, AsyncWritten(s, data, answers), data)
  {
    var t := s.(wbuffer := s.wbuffer + data);
    FlushConserves(t, answers);
    assert t.accepted + t.wbuffer + "" == s.accepted + s.wbuffer + data;
  }

  // ---------- syncWrite ----------

  /** How many writes of a syncWrite take something. */
  function Positives(remaining: nat, answers: seq<Answer>): nat
    decreases remaining
  {
    if remaining == 0 || !First(answers).Count? || First(answers).n == 0 then 0
    else 1 + Positives(remaining - Least(First(answers).n, remaining), Rest(answers))
  }

  /** At most one write takes something, and none does while bytes are pending. */
  predicate InOrder(pending: nat, size: nat, answers: seq<Answer>) {
    Positives(size, answers) <= 1 && (pending == 0 || Positives(size, answers) == 0)
  }

  lemma NoPositives(s: State, data: string, remaining: nat, answers: seq<Answer>)
    requires s.status == Valid && remaining <= |data| && Positives(remaining, answers) == 0
    ensures Extends(s, SyncRounds(s, data, remaining, answers), data[|data| - remaining..])
  {
    if remaining > 0 && First(answers).WouldBlock? {
      var t, tail := s.(armed := true), data[|data| - remaining..];
      AsyncConserves(t, tail, Rest(answers));
      assert SyncRounds(s, data, remaining, answers) == AsyncWritten(t, tail, Rest(answers));
    }
  }

  lemma InOrderConserves(s: State, data: string, answers: seq<Answer>)
    requires s.status == Valid && InOrder(|s.wbuffer|, |data|, answers)
    ensures Extends(s, SyncWritten(s, data, answers), data)
  {
    if Positives(|data|, answers) == 0 {
      NoPositives(s, data, |data|, answers);
      assert data[0..] == data;
    } else {
      var k := Least(First(answers).n, |data|);
      var t := s.(accepted := s.accepted + data[..k]);
      NoPositives(t, data, |data| - k, Rest(answers));
      assert t.accepted + t.wbuffer + data[k..] == s.accepted + s.wbuffer + data;
    }
  }

  lemma {:induction false} FlushAccepts(s: State, answers: seq<Answer>)
    ensures s.accepted <= Flushed(s, answers).accepted
    decreases |s.wbuffer|
  {
    if s.status == Valid && s.wbuffer != "" && First(answers).Count? && First(answers).n > 0 {
      var k := Least(First(answers).n, |s.wbuffer|);
      FlushAccepts(s.(accepted := s.accepted + s.wbuffer[..k], wbuffer := s.wbuffer[k..]), Rest(answers));
    }
  }

  lemma {:induction false} SyncAccepts(s: State, data: string, remaining: nat, answers: seq<Answer>)
    requires remaining <= |data|
    ensures s.accepted <= SyncRounds(s, data, remaining, answers).accepted
    decreases remaining
  {
    if remaining > 0 && First(answers).Count? && First(answers).n > 0 {
      var k := Least(First(answers).n, remaining);
      SyncAccepts(s.(accepted := s.accepted + data[..k]), data, remaining - k, Rest(answers));
    } else if remaining > 0 && First(answers).WouldBlock? {
      FlushAccepts(s.(armed := true, wbuffer := s.wbuffer + data[|data| - remaining..]), Rest(answers));
    }
  }

  /** What a conserving call accepts is a prefix of what there was to send. */
  lemma ExtendsAccepts(s: State, r: State, data: string, i: nat)
    requires Extends(s, r, data) && i < |r.accepted|
    ensures i < |s.accepted + s.wbuffer + data| && r.accepted[i] == (s.accepted + s.wbuffer + data)[i]
  {
    if r.status == Valid { assert (r.accepted + r.wbuffer)[i] == r.accepted[i]; }
  }

  function Repeated(c: char, n: nat): string { seq(n, i => c) }

  /** Overtaking: what is pending comes out behind the first byte written. */
  lemma OvertakesPending(pending: nat, size: nat, answers: seq<Answer>) returns (s: State, data: string)
    requires pending > 0 && Positives(size, answers) > 0
    ensures s.status == Valid && |s.wbuffer| == pending && |data| == size
    ensures !Extends(s, SyncWritten(s, data, answers), data)
  {
    s, data := INITIAL.(wbuffer := Repeated('a', pending)), Repeated('b', size);
    var k := Least(First(answers).n, size);
    var t := s.(accepted := s.accepted + data[..k]);
    SyncAccepts(t, data, size - k, Rest(answers));
    var r := SyncWritten(s, data, answers);
    assert r.accepted[0] == 'b' && (s.accepted + s.wbuffer + data)[0] == 'a';
    if Extends(s, r, data) { ExtendsAccepts(s, r, data, 0); }
  }

  lemma TwoPositives(size: nat, answers: seq<Answer>)
    requires Positives(size, answers) > 1
    ensures First(answers).Count? && First(answers).n > 0
    ensures var k := Least(First(answers).n, size);
            0 < k < size && First(Rest(answers)).Count? && First(Rest(answers)).n > 0
  {
    var k := Least(First(answers).n, size);
    assert Positives(size - k, Rest(answers)) > 0;
  }

  /** Starting over: the second write sends the first byte again. */
  lemma SendsTheStartAgain(size: nat, answers: seq<Answer>) returns (data: string)
    requires Positives(size, answers) > 1
    ensures |data| == size && !Extends(INITIAL, SyncWritten(INITIAL, data, answers), data)
  {
    hide Extends, Positives;
    var s := INITIAL;
    TwoPositives(size, answers);
    data := "a" + Repeated('b', size - 1);
    var k := Least(First(answers).n, size);
    var t := s.(accepted := s.accepted + data[..k]);
    var k2 := Least(First(Rest(answers)).n, size - k);
    var u := t.(accepted := t.accepted + data[..k2]);
    SyncAccepts(u, data, size - k - k2, Rest(Rest(answers)));
    var r := SyncWritten(s, data, answers);
    assert SyncRounds(t, data, size - k, Rest(answers)) == SyncRounds(u, data, size - k - k2, Rest(Rest(answers)));
    assert u.accepted[k] == data[0] == 'a' && (s.accepted + s.wbuffer + data)[k] == data[k] == 'b';
    if Extends(s, r, data) { ExtendsAccepts(s, r, data, k); }
  }

  /** For given sizes and kernel answers, syncWrite sends every content in order exactly when at most one
      of its writes takes something, and none with bytes pending. */
  lemma SyncWriteConservesExactly(pending: nat, size: nat, answers: seq<Answer>)
    ensures InOrder(pending, size, answers) <==>
            forall s: State, data: string | s.status == Valid && |s.wbuffer| == pending && |data| == size ::
              Extends(s, SyncWritten(s, data, answers), data)
  {
    if InOrder(pending, size, answers) {
      forall s: State, data: string | s.status == Valid && |s.wbuffer| == pending && |data| == size
        ensures Extends(s, SyncWritten(s, data, answers), data)
      {
        InOrderConserves(s, data, answers);
      }
    } else if pending > 0 {
      var s, data := OvertakesPending(pending, size, answers);
      assert !Extends(s, SyncWritten(s, data, answers), data);
    } else {
      var data := SendsTheStartAgain(size, answers);
      assert !Extends(INITIAL, SyncWritten(INITIAL, data, answers), data);
    }
  }

  // ---------- Files ----------

  /** The freads of the file `f`: each gives some next bytes of it, at most what it asks for, up to the first
      that gives nothing, at the end of the file. */
  predicate IsReading(f: string, chunks: seq<string>)
    decreases |chunks|
  {
    if f == "" then chunks == [] || chunks[0] == ""
    else chunks != [] && 0 < |chunks[0]| <= READ_SIZE && chunks[0] <= f && IsReading(f[|chunks[0]|..], chunks[1..])
  }

  lemma {:induction false} ReadingGivesFile(f: string, chunks: seq<string>)
    requires IsReading(f, chunks)
    ensures FileData(chunks) == f
    decreases |chunks|
  {
    if f != "" {
      ReadingGivesFile(f[|chunks[0]|..], chunks[1..]);
      assert chunks[0][..|chunks[0]|] == chunks[0] && f == chunks[0] + f[|chunks[0]|..];
    }
  }

  function Joined(cut: seq<string>): string {
    if cut == [] then "" else cut[0] + Joined(cut[1..])
  }

  lemma {:induction false} CutIsReading(cut: seq<string>, after: seq<string>)
    requires forall i | 0 <= i < |cut| :: 0 < |cut[i]| <= READ_SIZE
    ensures IsReading(Joined(cut), cut + [""] + after)
    decreases |cut|
  {
    var chunks := cut + [""] + after;
    if cut == [] {
      assert chunks[0] == "";
    } else {
      assert chunks[1..] == cut[1..] + [""] + after;
      CutIsReading(cut[1..], after);
      assert Joined(cut)[|cut[0]|..] == Joined(cut[1..]);
    }
  }

  /** However a file is cut into reads, writing it is writing its content. */
  lemma FileIsSentWhole(s: State, cut: seq<string>, after: seq<string>, answers: seq<Answer>)
    requires forall i | 0 <= i < |cut| :: 0 < |cut[i]| <= READ_SIZE
    ensures FileWritten(s, cut + [""] + after, answers) == AsyncWritten(s, Joined(cut), answers)
  {
    hide Flushed, IsReading;
    CutIsReading(cut, after);
    ReadingGivesFile(Joined(cut), cut + [""] + after);
  }

  // ---------- Where writing stops ----------

  predicate Positive(a: Answer) { a.Count? && a.n > 0 }

  ghost predicate AllPositive(answers: seq<Answer>) { forall i | 0 <= i < |answers| :: Positive(answers[i]) }

  /** How much answers take together of `size` bytes. */
  function Taken(size: nat, answers: seq<Answer>): (k: nat)
    ensures k <= size
    decreases |answers|
  {
    if answers == [] || !answers[0].Count? then 0
    else Least(answers[0].n, size) + Taken(size - Least(answers[0].n, size), answers[1..])
  }

  function StoppedBy(last: Answer): Status {
    match last case WouldBlock => Valid case Count(_) => Closed case Failed => Invalid
  }

  /** `s` after sending the first `k` pending bytes. */
  function Sending(s: State, k: nat): State
    requires k <= |s.wbuffer|
  {
    s.(accepted := s.accepted + s.wbuffer[..k], wbuffer := s.wbuffer[k..])
  }

  lemma SendingTwice(s: State, k: nat, j: nat)
    requires k + j <= |s.wbuffer|
    ensures Sending(Sending(s, k), j) == Sending(s, k + j) && Sending(s, 0) == s
  {
    assert s.wbuffer[k..][..j] == s.wbuffer[k..k + j] && s.wbuffer[k..][j..] == s.wbuffer[k + j..];
    assert s.accepted + s.wbuffer[..k] + s.wbuffer[k..k + j] == s.accepted + s.wbuffer[..k + j];
    assert s.accepted + s.wbuffer[..0] == s.accepted;
  }

  lemma FlushOnce(s: State, answers: seq<Answer>)
    requires s.status == Valid && s.wbuffer != "" && answers != []
    ensures Positive(answers[0]) ==>
              Flushed(s, answers) == Flushed(Sending(s, Least(answers[0].n, |s.wbuffer|)), answers[1..])
    ensures !Positive(answers[0]) ==>
              Flushed(s, answers) == s.(status := StoppedBy(answers[0]), armed := s.armed || answers[0].WouldBlock?)
  {
  }

  /** A flush takes what the answers take, up to the first that takes nothing, which decides how it ends: at
      would-block valid and armed, at a count of zero closed, at an error invalid. */
  lemma {:induction false} FlushStops(s: State, before: seq<Answer>, last: Answer, after: seq<Answer>)
    requires s.status == Valid && AllPositive(before) && !Positive(last) && Taken(|s.wbuffer|, before) < |s.wbuffer|
    ensures Flushed(s, before + [last] + after) ==
            Sending(s, Taken(|s.wbuffer|, before)).(status := StoppedBy(last), armed := s.armed || last.WouldBlock?)
    decreases |before|
  {
    hide Flushed, Sending;
    var all := before + [last] + after;
    FlushOnce(s, all);
    if before == [] {
      SendingTwice(s, 0, 0);
    } else {
      assert all[0] == before[0] && all[1..] == before[1..] + [last] + after;
      var k := Least(before[0].n, |s.wbuffer|);
      SendingKeeps(s, k);
      FlushStops(Sending(s, k), before[1..], last, after);
      SendingTwice(s, k, Taken(|s.wbuffer| - k, before[1..]));
    }
  }

  lemma SendingKeeps(s: State, k: nat)
    requires k <= |s.wbuffer|
    ensures Sending(s, k).status == s.status && Sending(s, k).armed == s.armed && |Sending(s, k).wbuffer| == |s.wbuffer| - k
  {
  }

  /** `syncWrite` reports success exactly if its writes take everything, or all of them take something up to
      one that would block; else the context is closed by a count of zero and invalid after an error. */
  lemma {:induction false} SyncStops(s: State, data: string, remaining: nat, before: seq<Answer>, last: Answer, after: seq<Answer>)
    requires s.status == Valid && remaining <= |data| && AllPositive(before) && !Positive(last)
    ensures var done := Taken(remaining, before) == remaining;
            && SyncResult(remaining, before + [last] + after) == (if done || last.WouldBlock? then Success else SocketError)
            && (done ==> SyncRounds(s, data, remaining, before + [last] + after).status == Valid)
            && (!done && !last.WouldBlock? ==> SyncRounds(s, data, remaining, before + [last] + after).status == StoppedBy(last))
    decreases |before|
  {
    var all := before + [last] + after;
    if remaining > 0 {
      if before == [] {
        assert all[0] == last;
      } else {
        assert all[0] == before[0] && all[1..] == before[1..] + [last] + after;
        var k := Least(before[0].n, remaining);
        SyncStops(s.(accepted := s.accepted + data[..k]), data, remaining - k, before[1..], last, after);
      }
    }
  }

  /** After either handler the context is destroyed exactly if it is no longer valid. */
  lemma HandlersDestroyExactly(s: State, answers: seq<Answer>, arrivals: seq<Arrival>)
    requires !s.destroyed
    ensures WritableHandled(s, answers).destroyed <==> WritableHandled(s, answers).status != Valid
    ensures ReadableHandled(s, arrivals).destroyed <==> ReadableHandled(s, arrivals).status != Valid
  {
    hide Flushed, ReadRounds;
    FlushKeepsEdges(s.(queued := false), answers);
    ReadsKeepWrites(s, arrivals);
  }

  // ---------- Runs ----------

  /** What can happen to a context: the calls of the user, the events of the reactor with the state check
      after the receive callback, and the kernel turning a blocked write into an edge. */
  datatype Op =
    | Async(data: string, answers: seq<Answer>)
    | Sync(data: string, answers: seq<Answer>)
    | File(file: string, chunks: seq<string>, answers: seq<Answer>) // `chunks` is what the freads give
    | Writable(answers: seq<Answer>)
    | Readable(arrivals: seq<Arrival>)
    | Cleanup
    | Read
    | ReadString
    | BecomesWritable

  predicate Enabled(s: State, op: Op) {
    !s.destroyed && (op.BecomesWritable? ==> s.armed) && (op.File? ==> IsReading(op.file, op.chunks))
  }

  function After(s: State, op: Op): State {
    match op
    case Async(data, answers) => AsyncWritten(s, data, answers)
    case Sync(data, answers) => SyncWritten(s, data, answers)
    case File(_, chunks, answers) => FileWritten(s, chunks, answers)
    case Writable(answers) => WritableHandled(s, answers)
    case Readable(arrivals) => ReadableHandled(s, arrivals)
    case Cleanup => CleanedUp(s)
    case Read => s.(buffer := "")
    case ReadString => if s.status != Valid then s else s.(buffer := "")
    case BecomesWritable => s.(armed := false, queued := true)
  }

  /** What the call hands over to be sent; a context that is not valid takes nothing. */
  function Sent(s: State, op: Op): string {
    if s.status != Valid then ""
    else match op
      case Async(data, _) => data
      case Sync(data, _) => data
      case File(file, _, _) => file
      case _ => ""
  }

  /** What the call returns of the bytes read. */
  function Returned(s: State, op: Op): string {
    if op.Read? || (op.ReadString? && s.status == Valid) then s.buffer else ""
  }

  ghost predicate IsRun(s: State, ops: seq<Op>)
    decreases |ops|
  {
    ops != [] ==> Enabled(s, ops[0]) && IsRun(After(s, ops[0]), ops[1..])
  }

  ghost function End(s: State, ops: seq<Op>): State
    decreases |ops|
  {
    if ops == [] then s else End(After(s, ops[0]), ops[1..])
  }

  ghost function AllSent(s: State, ops: seq<Op>): string
    decreases |ops|
  {
    if ops == [] then "" else Sent(s, ops[0]) + AllSent(After(s, ops[0]), ops[1..])
  }

  ghost function AllReturned(s: State, ops: seq<Op>): string
    decreases |ops|
  {
    if ops == [] then "" else Returned(s, ops[0]) + AllReturned(After(s, ops[0]), ops[1..])
  }

  /** Every syncWrite of the run is one of those that conserve. */
  ghost predicate SyncsInOrder(s: State, ops: seq<Op>)
    decreases |ops|
  {
    ops != [] ==>
      && (ops[0].Sync? && s.status == Valid ==> InOrder(|s.wbuffer|, |ops[0].data|, ops[0].answers))
      && SyncsInOrder(After(s, ops[0]), ops[1..])
  }

  // ---------- The write stream ----------

  lemma {:induction false} ReadsKeepWrites(s: State, arrivals: seq<Arrival>)
    ensures var r := ReadRounds(s, arrivals); r == s.(status := r.status, buffer := r.buffer, received := r.received)
    decreases |arrivals|
  {
    if arrivals != [] && arrivals[0].Bytes? && arrivals[0].bytes != "" {
      var got := arrivals[0].bytes[..Least(|arrivals[0].bytes|, READ_SIZE)];
      ReadsKeepWrites(s.(buffer := s.buffer + got, received := s.received + got), arrivals[1..]);
    }
  }

  lemma StepConserves(s: State, op: Op)
    requires Enabled(s, op)
    requires op.Sync? && s.status == Valid ==> InOrder(|s.wbuffer|, |op.data|, op.answers)
    ensures s.status == Valid ==> Extends(s, After(s, op), Sent(s, op))
    ensures s.status != Valid ==> After(s, op).status != Valid && After(s, op).accepted == s.accepted && Sent(s, op) == ""
  {
    hide InOrder, Flushed, SyncRounds, ReadRounds, IsReading, FileData;
    assert s.accepted + s.wbuffer + "" == s.accepted + s.wbuffer;
    if s.status == Valid {
      match op
      case Async(data, answers) => AsyncConserves(s, data, answers);
      case Sync(data, answers) => InOrderConserves(s, data, answers);
      case File(file, chunks, answers) =>
        ReadingGivesFile(file, chunks);
        AsyncConserves(s, file, answers);
      case Writable(answers) => FlushConserves(s.(queued := false), answers);
      case Readable(arrivals) => ReadsKeepWrites(s, arrivals);
      case _ =>
    }
  }

  /** What has been sent so far, from any point of a run on. */
  lemma {:induction false} RunConserves(s: State, ops: seq<Op>)
    requires IsRun(s, ops) && SyncsInOrder(s, ops)
    ensures s.status == Valid ==> Extends(s, End(s, ops), AllSent(s, ops))
    ensures s.status != Valid ==> End(s, ops).status != Valid && End(s, ops).accepted == s.accepted && AllSent(s, ops) == ""
    decreases |ops|
  {
    hide After, Sent, InOrder, Enabled;
    if ops == [] {
      assert s.accepted + s.wbuffer + "" == s.accepted + s.wbuffer;
    } else {
      var t := After(s, ops[0]);
      StepConserves(s, ops[0]);
      RunConserves(t, ops[1..]);
      var a, b := Sent(s, ops[0]), AllSent(t, ops[1..]);
      assert s.accepted + s.wbuffer + a + b == s.accepted + s.wbuffer + (a + b);
      if t.status != Valid { assert a + b == a; }
    }
  }

  /** Over every run of asyncWrite, writeFile, writable events and syncWrites that conserve: what the kernel
      accepted and what is still buffered is what was submitted, in order; after a failure the kernel has a
      prefix of it. */
  lemma WriteStreamConserved(ops: seq<Op>)
    requires IsRun(INITIAL, ops) && SyncsInOrder(INITIAL, ops)
    ensures var e, sent := End(INITIAL, ops), AllSent(INITIAL, ops);
            if e.status == Valid then e.accepted + e.wbuffer == sent else e.accepted <= sent
  {
    RunConserves(INITIAL, ops);
    assert "" + "" + AllSent(INITIAL, ops) == AllSent(INITIAL, ops);
  }

  // ---------- No output without an event to come ----------

  /** Pending output has an edge to wait for, or one waiting. */
  predicate Resumable(s: State) { s.status == Valid ==> s.wbuffer == "" || s.armed || s.queued }

  lemma {:induction false} FlushKeepsEdges(s: State, answers: seq<Answer>)
    ensures Flushed(s, answers).queued == s.queued && (s.armed ==> Flushed(s, answers).armed)
    ensures Flushed(s, answers).destroyed == s.destroyed
    decreases |s.wbuffer|
  {
    if s.status == Valid && s.wbuffer != "" && First(answers).Count? && First(answers).n > 0 {
      var k := Least(First(answers).n, |s.wbuffer|);
      FlushKeepsEdges(s.(accepted := s.accepted + s.wbuffer[..k], wbuffer := s.wbuffer[k..]), Rest(answers));
    }
  }

  lemma {:induction false} SyncResumable(s: State, data: string, remaining: nat, answers: seq<Answer>)
    requires remaining <= |data| && s.status == Valid && Resumable(s)
    ensures Resumable(SyncRounds(s, data, remaining, answers))
    decreases remaining
  {
    if remaining > 0 && First(answers).Count? && First(answers).n > 0 {
      var k := Least(First(answers).n, remaining);
      SyncResumable(s.(accepted := s.accepted + data[..k]), data, remaining - k, Rest(answers));
    } else if remaining > 0 && First(answers).WouldBlock? {
      FlushConserves(s.(armed := true, wbuffer := s.wbuffer + data[|data| - remaining..]), Rest(answers));
    }
  }

  lemma StepResumable(s: State, op: Op)
    requires Resumable(s)
    ensures Resumable(After(s, op))
  {
    hide Flushed, SyncRounds, ReadRounds;
    if s.status == Valid {
      match op
      case Async(data, answers) => FlushConserves(s.(wbuffer := s.wbuffer + data), answers);
      case Sync(data, answers) => SyncResumable(s, data, |data|, answers);
      case File(_, chunks, answers) => FlushConserves(s.(wbuffer := s.wbuffer + FileData(chunks)), answers);
      case Writable(answers) => FlushConserves(s.(queued := false), answers);
      case Readable(arrivals) => ReadsKeepWrites(s, arrivals);
      case _ =>
    } else if op.Readable? {
      ReadsKeepWrites(s, op.arrivals);
    }
  }

  lemma {:induction false} RunResumable(s: State, ops: seq<Op>)
    requires Resumable(s)
    ensures Resumable(End(s, ops))
    decreases |ops|
  {
    hide After, Resumable;
    if ops != [] {
      StepResumable(s, ops[0]);
      RunResumable(After(s, ops[0]), ops[1..]);
    }
  }

  /** In every reachable valid state, between handlers and in callbacks, nothing is left in the write
      buffer unless a would-block edge is armed or queued. */
  lemma NothingStranded(ops: seq<Op>)
    requires IsRun(INITIAL, ops)
    ensures var e := End(INITIAL, ops); e.status == Valid ==> e.wbuffer == "" || e.armed || e.queued
  {
    RunResumable(INITIAL, ops);
  }

  /** A writable event during which the kernel takes what it is offered empties the write buffer. */
  lemma {:induction false} FlushFinishes(s: State, answers: seq<Answer>)
    requires s.status == Valid && |answers| >= |s.wbuffer|
    requires forall i | 0 <= i < |answers| :: answers[i].Count? && answers[i].n > 0
    ensures var r := Flushed(s, answers);
            r.status == Valid && r.wbuffer == "" && r.accepted == s.accepted + s.wbuffer
    decreases |s.wbuffer|
  {
    if s.wbuffer == "" {
      assert s.accepted + "" == s.accepted;
    } else {
      var k := Least(answers[0].n, |s.wbuffer|);
      assert s.accepted + s.wbuffer[..k] + s.wbuffer[k..] == s.accepted + s.wbuffer;
      FlushFinishes(s.(accepted := s.accepted + s.wbuffer[..k], wbuffer := s.wbuffer[k..]), Rest(answers));
    }
  }

  // ---------- The read stream ----------

  lemma {:induction false} FlushKeepsReads(s: State, answers: seq<Answer>)
    ensures Flushed(s, answers).buffer == s.buffer && Flushed(s, answers).received == s.received
    decreases |s.wbuffer|
  {
    if s.status == Valid && s.wbuffer != "" && First(answers).Count? && First(answers).n > 0 {
      var k := Least(First(answers).n, |s.wbuffer|);
      FlushKeepsReads(s.(accepted := s.accepted + s.wbuffer[..k], wbuffer := s.wbuffer[k..]), Rest(answers));
    }
  }

  lemma {:induction false} SyncKeepsReads(s: State, data: string, remaining: nat, answers: seq<Answer>)
    requires remaining <= |data|
    ensures var r := SyncRounds(s, data, remaining, answers); r.buffer == s.buffer && r.received == s.received
    decreases remaining
  {
    if remaining > 0 && First(answers).Count? && First(answers).n > 0 {
      var k := Least(First(answers).n, remaining);
      SyncKeepsReads(s.(accepted := s.accepted + data[..k]), data, remaining - k, Rest(answers));
    } else if remaining > 0 && First(answers).WouldBlock? {
      FlushKeepsReads(s.(armed := true, wbuffer := s.wbuffer + data[|data| - remaining..]), Rest(answers));
    }
  }

  /** The bytes that reads bring, each at most what it was asked for. */
  function Concat(arrivals: seq<Arrival>): string {
    if arrivals == [] then ""
    else
      (if arrivals[0].Bytes? then arrivals[0].bytes[..Least(|arrivals[0].bytes|, READ_SIZE)] else "") + Concat(arrivals[1..])
  }

  predicate Full(a: Arrival) { a.Bytes? && a.bytes != "" }

  /** The read loop takes everything up to the first read that brings nothing, adds just that to the
      buffer, and leaves valid only if that read would block. */
  lemma {:induction false} ReadsUntilBlocked(s: State, before: seq<Arrival>, last: Arrival, after: seq<Arrival>)
    requires (forall i | 0 <= i < |before| :: Full(before[i])) && !Full(last)
    ensures ReadRounds(s, before + [last] + after) ==
            s.(buffer := s.buffer + Concat(before), received := s.received + Concat(before),
               status := match last case NothingYet => s.status case Bytes(_) => Closed case Broken => Invalid)
    decreases |before|
  {
    var all := before + [last] + after;
    if before == [] {
      assert all[0] == last && s.buffer + "" == s.buffer && s.received + "" == s.received;
    } else {
      var got := before[0].bytes[..Least(|before[0].bytes|, READ_SIZE)];
      var t := s.(buffer := s.buffer + got, received := s.received + got);
      assert all[1..] == before[1..] + [last] + after;
      ReadsUntilBlocked(t, before[1..], last, after);
      assert s.buffer + got + Concat(before[1..]) == s.buffer + (got + Concat(before[1..]));
      assert s.received + got + Concat(before[1..]) == s.received + (got + Concat(before[1..]));
    }
  }

  /** The read buffer is the end of what was received. */
  ghost predicate Received(s: State, returned: string) { s.received == returned + s.buffer }

  lemma {:induction false} ReadsReceive(s: State, returned: string, arrivals: seq<Arrival>)
    requires Received(s, returned)
    ensures Received(ReadRounds(s, arrivals), returned)
    decreases |arrivals|
  {
    if arrivals != [] && Full(arrivals[0]) {
      var got := arrivals[0].bytes[..Least(|arrivals[0].bytes|, READ_SIZE)];
      assert s.received + got == returned + (s.buffer + got);
      ReadsReceive(s.(buffer := s.buffer + got, received := s.received + got), returned, arrivals[1..]);
    }
  }

  lemma StepReceives(s: State, returned: string, op: Op)
    requires Received(s, returned)
    ensures Received(After(s, op), returned + Returned(s, op))
  {
    hide Flushed, SyncRounds, ReadRounds;
    assert returned + "" == returned && s.received + "" == s.received;
    if s.status == Valid {
      match op
      case Async(data, answers) => FlushKeepsReads(s.(wbuffer := s.wbuffer + data), answers);
      case Sync(data, answers) => SyncKeepsReads(s, data, |data|, answers);
      case File(_, chunks, answers) => FlushKeepsReads(s.(wbuffer := s.wbuffer + FileData(chunks)), answers);
      case Writable(answers) => FlushKeepsReads(s.(queued := false), answers);
      case Readable(arrivals) => ReadsReceive(s, returned, arrivals);
      case _ =>
    }
  }

  lemma {:induction false} RunReceives(s: State, returned: string, ops: seq<Op>)
    requires Received(s, returned)
    ensures Received(End(s, ops), returned + AllReturned(s, ops))
    decreases |ops|
  {
    hide After, Returned;
    if ops == [] {
      assert returned + "" == returned;
    } else {
      StepReceives(s, returned, ops[0]);
      RunReceives(After(s, ops[0]), returned + Returned(s, ops[0]), ops[1..]);
      assert returned + Returned(s, ops[0]) + AllReturned(After(s, ops[0]), ops[1..]) == returned + AllReturned(s, ops);
    }
  }

  /** Over every run: what read and readString returned, and what is still buffered, is what the kernel
      delivered, in order. */
  lemma ReadStreamConserved(ops: seq<Op>)
    requires IsRun(INITIAL, ops)
    ensures var e := End(INITIAL, ops); e.received == AllReturned(INITIAL, ops) + e.buffer
  {
    RunReceives(INITIAL, "", ops);
    assert "" + AllReturned(INITIAL, ops) == AllReturned(INITIAL, ops);
  }

  /** A readable event keeps every byte that arrived, and destroys the context, so that its receive callback
      is not called, exactly when the read loop ended otherwise than by would-block. */
  lemma CallbackExactlyWhenBlocked(s: State, before: seq<Arrival>, last: Arrival, after: seq<Arrival>)
    requires s.status == Valid && !s.destroyed
    requires (forall i | 0 <= i < |before| :: Full(before[i])) && !Full(last)
    ensures var e := ReadableHandled(s, before + [last] + after);
            e.buffer == s.buffer + Concat(before) && (e.destroyed <==> !last.NothingYet?)
  {
    ReadsUntilBlocked(s, before, last, after);
  }

  /** Some run from `s` on returns just `text` to the user. */
  ghost predicate CanReturn(s: State, text: string) { exists ops :: IsRun(s, ops) && AllReturned(s, ops) == text }

  lemma ReadsAll(s: State)
    requires !s.destroyed
    ensures CanReturn(s, s.buffer)
  {
    assert [Read][1..] == [] && s.buffer + "" == s.buffer;
    assert IsRun(s, [Read]) && AllReturned(s, [Read]) == s.buffer;
  }

  lemma DestroyedReturnsNothing(s: State, text: string)
    requires s.destroyed && text != ""
    ensures !CanReturn(s, text)
  {
    hide After;
    forall ops | IsRun(s, ops) ensures AllReturned(s, ops) != text {
      assert ops == [];
    }
  }

  /** What a readable event leaves in the buffer can be returned later exactly when the event ended at
      would-block: with the end of the stream or an error all of it is lost. */
  lemma BytesBeforeEndAreLost(s: State, before: seq<Arrival>, last: Arrival, after: seq<Arrival>)
    requires s.status == Valid && !s.destroyed
    requires (forall i | 0 <= i < |before| :: Full(before[i])) && !Full(last) && s.buffer + Concat(before) != ""
    ensures CanReturn(After(s, Readable(before + [last] + after)), s.buffer + Concat(before)) <==> last.NothingYet?
  {
    hide CanReturn, ReadRounds;
    CallbackExactlyWhenBlocked(s, before, last, after);
    var e := After(s, Readable(before + [last] + after));
    if e.destroyed { DestroyedReturnsNothing(e, e.buffer); } else { ReadsAll(e); }
  }
}
