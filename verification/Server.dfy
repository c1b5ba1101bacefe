/** The life of a connection in the server: from accept through its reactor's epoll set to the close of
    its descriptor. Memory is explicit, so that a pointer may outlive what it points to. */
module Server {

  type Fd = nat
  type Pointer = nat

  /** EPOLLIN, EPOLLOUT, EPOLLET. */
  datatype Mask = Mask(read: bool, write: bool, et: bool)

  const NONE: Mask := Mask(false, false, false)
  const ALL: Mask := Mask(true, true, true)

  datatype IoContext = IoContext(fd: Fd, reactor: nat, events: Mask, revents: Mask, registered: bool)

  /** What epoll keeps for a descriptor. */
  datatype Entry = Entry(pointer: Pointer, events: Mask)

  /** Where a reactor is with the first context of its batch: before its readable or its writable handler,
      or past the destruction of its context but for closing the descriptor. */
  datatype Turn = Reading | Writing | Closing(fd: Fd)

  datatype Reactor = Reactor(interest: map<Fd, Entry>, batch: seq<Pointer>, turn: Turn)

  /** `fault`: an epoll call failed, a dead context was touched, or a live one dropped from the map. */
  datatype State = State(
    reactors: seq<Reactor>, contexts: map<Fd, Pointer>, memory: map<Pointer, IoContext>,
    open: set<Fd>, next: Pointer, fault: bool)

  function Initial(n: nat): State {
    State(seq(n, i => Reactor(map[], [], Reading)), map[], map[], {}, 0, false)
  }

  // ---------- Specification ----------

  function WithReactor(s: State, r: nat, reactor: Reactor): State
    requires r < |s.reactors|
    ensures |WithReactor(s, r, reactor).reactors| == |s.reactors|
  {
    s.(reactors := s.reactors[r := reactor])
  }

  function WithEntry(rs: seq<Reactor>, r: nat, fd: Fd, e: Entry): seq<Reactor>
    requires r < |rs|
  {
    rs[r := rs[r].(interest := rs[r].interest[fd := e])]
  }

  function Fault(s: State): State { s.(fault := true) }

  function CtlAdd(s: State, r: nat, fd: Fd, e: Entry): (t: State)
    ensures |t.reactors| == |s.reactors| && t.next == s.next
  {
    if r >= |s.reactors| || fd !in s.open || fd in s.reactors[r].interest then Fault(s)
    else s.(reactors := WithEntry(s.reactors, r, fd, e))
  }

  function CtlModify(s: State, r: nat, fd: Fd, e: Entry): (t: State)
    ensures |t.reactors| == |s.reactors| && t.next == s.next
  {
    if r >= |s.reactors| || fd !in s.open || fd !in s.reactors[r].interest then Fault(s)
    else s.(reactors := WithEntry(s.reactors, r, fd, e))
  }

  function CtlDelete(s: State, r: nat, fd: Fd): (t: State)
    ensures |t.reactors| == |s.reactors| && t.next == s.next
  {
    if r >= |s.reactors| || fd !in s.open || fd !in s.reactors[r].interest then Fault(s)
    else WithReactor(s, r, s.reactors[r].(interest := s.reactors[r].interest - {fd}))
  }

  /** `setEvents`: the first call registers, later ones modify. */
  function EventsSet(s: State, p: Pointer, ev: Mask): State {
    if p !in s.memory then Fault(s)
    else
      var c := s.memory[p].(events := ev);
      var t := s.(memory := s.memory[p := c.(registered := true)]);
      if c.registered then CtlModify(t, c.reactor, c.fd, Entry(p, ev)) else CtlAdd(t, c.reactor, c.fd, Entry(p, ev))
  }

  function Created(s: State, fd: Fd): State {
    if |s.reactors| == 0 then Fault(s)
    else
      var p := s.next;
      var c := IoContext(fd, fd % |s.reactors|, NONE, NONE, false);
      var s0 := s.(open := s.open + {fd}, next := p + 1, memory := s.memory[p := c]);
      var s1 := EventsSet(s0, p, Mask(true, false, false));
      var s2 := EventsSet(s1, p, Mask(true, true, false));
      var s3 := EventsSet(s2, p, ALL);
      if fd in s3.contexts then Fault(s3) else s3.(contexts := s3.contexts[fd := p])
  }

  /** The context leaves the map; its members go in reverse order, so its IOContext deregisters first and
      the close of the socket is still to come. */
  function Destroyed(s: State, r: nat, fd: Fd): State
    requires r < |s.reactors|
  {
    var t := WithReactor(s, r, s.reactors[r].(turn := Closing(fd)));
    if fd !in s.contexts then t
    else
      var p := s.contexts[fd];
      if p !in s.memory then Fault(t)
      else
        var c := s.memory[p];
        CtlDelete(t, c.reactor, c.fd).(contexts := s.contexts - {fd}, memory := s.memory - {p})
  }

  function Forgotten(rs: seq<Reactor>, fd: Fd): seq<Reactor> {
    seq(|rs|, i requires 0 <= i < |rs| => rs[i].(interest := rs[i].interest - {fd}))
  }

  /** The kernel takes a closed descriptor out of every epoll set. */
  function Closed(s: State, r: nat, fd: Fd): State
    requires r < |s.reactors|
  {
    var t := s.(open := s.open - {fd}, reactors := Forgotten(s.reactors, fd));
    WithReactor(t, r, t.reactors[r].(turn := Reading))
  }

  /** The contexts a poll returns, each told its events. */
  function Polled(s: State, r: nat, ready: seq<(Fd, Mask)>): State
    requires r < |s.reactors|
    decreases |ready|
  {
    if ready == [] then s
    else if ready[0].0 !in s.reactors[r].interest then Polled(s, r, ready[1..])
    else
      var p := s.reactors[r].interest[ready[0].0].pointer;
      var t := if p in s.memory then s.(memory := s.memory[p := s.memory[p].(revents := ready[0].1)]) else Fault(s);
      Polled(WithReactor(t, r, t.reactors[r].(batch := t.reactors[r].batch + [p])), r, ready[1..])
  }

  /** One half of `handleGeneral` on the first context of the batch; `negative` is what the handler, if
      it is called, returns. */
  function Handled(s: State, r: nat, negative: bool): State
    requires r < |s.reactors| && s.reactors[r].batch != []
  {
    var x := s.reactors[r];
    var p := x.batch[0];
    if p !in s.memory then Fault(s)
    else
      var c := s.memory[p];
      if negative && (if x.turn.Reading? then c.revents.read else c.revents.write) then
        Destroyed(WithReactor(s, r, x.(batch := x.batch[1..])), r, c.fd)
      else if x.turn.Reading? then WithReactor(s, r, x.(turn := Writing))
      else WithReactor(s, r, x.(batch := x.batch[1..], turn := Reading))
  }

  datatype Step =
    | Accept(fd: Fd)
    | SetEvents(pointer: Pointer, events: Mask)
    | Poll(r: nat, ready: seq<(Fd, Mask)>)
    | Handle(r: nat, negative: bool)
    | Close(r: nat)

  ghost predicate DistinctFds(ready: seq<(Fd, Mask)>) {
    forall i, j | 0 <= i < j < |ready| :: ready[i].0 != ready[j].0
  }

  /** Accept returns a descriptor that is not open; epoll reports each ready descriptor of its set once. */
  ghost predicate Enabled(s: State, t: Step) {
    match t
    case Accept(fd) => fd > 0 && fd !in s.open
    case SetEvents(p, _) => p in s.memory
    case Poll(r, ready) =>
      && r < |s.reactors| && s.reactors[r].batch == [] && s.reactors[r].turn.Reading?
      && DistinctFds(ready) && forall i | 0 <= i < |ready| :: ready[i].0 in s.reactors[r].interest
    case Handle(r, _) => r < |s.reactors| && s.reactors[r].batch != [] && !s.reactors[r].turn.Closing?
    case Close(r) => r < |s.reactors| && s.reactors[r].turn.Closing?
  }

  ghost function After(s: State, t: Step): State
    requires Enabled(s, t)
  {
    match t
    case Accept(fd) => Created(s, fd)
    case SetEvents(p, ev) => EventsSet(s, p, ev)
    case Poll(r, ready) => Polled(s, r, ready)
    case Handle(r, negative) => Handled(s, r, negative)
    case Close(r) => Closed(s, r, s.reactors[r].turn.fd)
  }

  // ---------- The invariant ----------

  /** The map and the memory hold the same contexts. */
  ghost predicate Mapped(s: State) {
    && (forall fd | fd in s.contexts :: s.contexts[fd] in s.memory && s.memory[s.contexts[fd]].fd == fd)
    && (forall p | p in s.memory :: p < s.next && s.memory[p].fd in s.contexts && s.contexts[s.memory[p].fd] == p)
  }

  /** Live contexts are registered, on an open descriptor, with the reactor their descriptor selects. */
  ghost predicate Registered(s: State) {
    forall p | p in s.memory ::
      var c := s.memory[p];
      c.registered && c.fd in s.open && c.fd > 0 && |s.reactors| > 0 && c.reactor == c.fd % |s.reactors|
  }

  /** The interest set of reactor `r` is exactly the live contexts of its descriptors, with their masks. */
  ghost predicate Interested(s: State, r: nat)
    requires r < |s.reactors|
  {
    forall fd: Fd ::
      && (fd in s.reactors[r].interest <==> fd in s.contexts && fd % |s.reactors| == r)
      && (fd in s.reactors[r].interest && s.contexts[fd] in s.memory ==>
            s.reactors[r].interest[fd] == Entry(s.contexts[fd], s.memory[s.contexts[fd]].events))
  }

  /** What a reactor still has to handle is alive, its own, and listed once; a descriptor it is closing is
      open and nobody's. */
  ghost predicate Handling(s: State, r: nat)
    requires r < |s.reactors|
  {
    var x := s.reactors[r];
    && (forall i | 0 <= i < |x.batch| :: x.batch[i] in s.memory && s.memory[x.batch[i]].reactor == r)
    && (forall i, j | 0 <= i < j < |x.batch| :: x.batch[i] != x.batch[j])
    && (x.turn.Closing? ==> x.turn.fd in s.open && x.turn.fd !in s.contexts && x.turn.fd % |s.reactors| == r)
  }

  /** No descriptor is left open without an owner. */
  ghost predicate Owned(s: State) {
    forall fd | fd in s.open :: fd in s.contexts || (|s.reactors| > 0 && s.reactors[fd % |s.reactors|].turn == Closing(fd))
  }

  ghost predicate Inv(s: State) {
    && !s.fault && |s.reactors| > 0 && Mapped(s) && Registered(s) && Owned(s)
    && forall r | 0 <= r < |s.reactors| :: Interested(s, r) && Handling(s, r)
  }

  // ---------- Every step keeps it ----------

  lemma InvParts(s: State, r: nat)
    requires Inv(s) && r < |s.reactors|
    ensures Interested(s, r) && Handling(s, r)
  {
  }

  lemma InitialInv(n: nat)
    requires n > 0
    ensures Inv(Initial(n))
  {
  }

  lemma OpenIfMapped(s: State, fd: Fd)
    requires Inv(s)
    ensures fd in s.contexts ==> fd in s.open
  {
  }

  /** On a fresh descriptor the three calls of `setEvents` come to one registration for all events. */
  lemma CreatedInOne(s: State, fd: Fd)
    requires Inv(s) && fd > 0 && fd !in s.open
    ensures var r := fd % |s.reactors|;
            Created(s, fd) == s.(
              open := s.open + {fd}, next := s.next + 1,
              memory := s.memory[s.next := IoContext(fd, r, ALL, NONE, true)],
              contexts := s.contexts[fd := s.next],
              reactors := WithEntry(s.reactors, r, fd, Entry(s.next, ALL)))
  {
    var p, r := s.next, fd % |s.reactors|;
    assert Interested(s, r);
    OpenIfMapped(s, fd);
    var s0 := s.(open := s.open + {fd}, next := p + 1, memory := s.memory[p := IoContext(fd, r, NONE, NONE, false)]);
    var s1 := EventsSet(s0, p, Mask(true, false, false));
    var s2 := EventsSet(s1, p, Mask(true, true, false));
    assert s1.memory == s.memory[p := IoContext(fd, r, Mask(true, false, false), NONE, true)];
    assert s1.reactors == WithEntry(s.reactors, r, fd, Entry(p, Mask(true, false, false)));
    SetAgain(s1, s, p, fd, Mask(true, false, false), Mask(true, true, false));
    SetAgain(s2, s, p, fd, Mask(true, true, false), ALL);
  }

  lemma SetAgain(t: State, s: State, p: Pointer, fd: Fd, was: Mask, ev: Mask)
    requires |s.reactors| > 0 && fd in t.open
    requires t.reactors == WithEntry(s.reactors, fd % |s.reactors|, fd, Entry(p, was))
    requires t.memory == s.memory[p := IoContext(fd, fd % |s.reactors|, was, NONE, true)]
    ensures EventsSet(t, p, ev) == t.(
              reactors := WithEntry(s.reactors, fd % |s.reactors|, fd, Entry(p, ev)),
              memory := s.memory[p := IoContext(fd, fd % |s.reactors|, ev, NONE, true)])
  {
    var r := fd % |s.reactors|;
    var x := s.reactors[r];
    assert x.interest[fd := Entry(p, was)][fd := Entry(p, ev)] == x.interest[fd := Entry(p, ev)];
    assert t.memory[p := IoContext(fd, r, ev, NONE, true)] == s.memory[p := IoContext(fd, r, ev, NONE, true)];
  }

  /** A new context in its own reactor's set, and no other. */
  lemma CreatedInterests(s: State, fd: Fd, r: nat)
    requires Inv(s) && fd > 0 && fd !in s.open && r < |s.reactors|
    ensures |Created(s, fd).reactors| == |s.reactors| && Interested(Created(s, fd), r)
  {
    hide Created, Handling, Registered, Owned;
    CreatedInOne(s, fd);
    InvParts(s, r);
  }

  lemma CreatedHandles(s: State, fd: Fd, r: nat)
    requires Inv(s) && fd > 0 && fd !in s.open && r < |s.reactors|
    ensures |Created(s, fd).reactors| == |s.reactors| && Handling(Created(s, fd), r)
  {
    hide Created, Interested, Owned;
    CreatedInOne(s, fd);
    InvParts(s, r);
  }

  lemma CreatedKeeps(s: State, fd: Fd)
    requires Inv(s) && fd > 0 && fd !in s.open
    ensures Inv(Created(s, fd))
  {
    hide Created, Interested, Handling;
    CreatedInOne(s, fd);
    var t := Created(s, fd);
    forall r | 0 <= r < |t.reactors| ensures Interested(t, r) && Handling(t, r) {
      CreatedInterests(s, fd, r);
      CreatedHandles(s, fd, r);
    }
  }

  lemma EventsSetInOne(s: State, p: Pointer, ev: Mask)
    requires Inv(s) && p in s.memory
    ensures var c := s.memory[p];
            && c.reactor < |s.reactors|
            && EventsSet(s, p, ev) == s.(memory := s.memory[p := c.(events := ev)],
                                         reactors := WithEntry(s.reactors, c.reactor, c.fd, Entry(p, ev)))
  {
    InvParts(s, s.memory[p].reactor);
  }

  lemma EventsSetParts(s: State, p: Pointer, ev: Mask, r: nat)
    requires Inv(s) && p in s.memory && r < |s.reactors|
    ensures var t := EventsSet(s, p, ev); |t.reactors| == |s.reactors| && Interested(t, r) && Handling(t, r)
  {
    hide EventsSet, Owned;
    EventsSetInOne(s, p, ev);
    InvParts(s, r);
  }

  lemma EventsSetKeeps(s: State, p: Pointer, ev: Mask)
    requires Inv(s) && p in s.memory
    ensures Inv(EventsSet(s, p, ev))
  {
    hide EventsSet, Interested, Handling;
    EventsSetInOne(s, p, ev);
    var t := EventsSet(s, p, ev);
    forall r | 0 <= r < |t.reactors| ensures Interested(t, r) && Handling(t, r) { EventsSetParts(s, p, ev, r); }
  }

  /** Telling one context its events, and listing it. */
  function PolledOne(s: State, r: nat, p: Pointer, revents: Mask): State
    requires r < |s.reactors| && p in s.memory
  {
    WithReactor(s.(memory := s.memory[p := s.memory[p].(revents := revents)]), r,
      s.reactors[r].(batch := s.reactors[r].batch + [p]))
  }

  lemma PolledOneParts(s: State, r: nat, p: Pointer, revents: Mask, i: nat)
    requires Inv(s) && r < |s.reactors| && p in s.memory && s.memory[p].reactor == r && p !in s.reactors[r].batch
    requires s.reactors[r].turn.Reading? && i < |s.reactors|
    ensures Interested(PolledOne(s, r, p, revents), i) && Handling(PolledOne(s, r, p, revents), i)
  {
    hide Owned, Mapped, Registered;
    InvParts(s, i);
  }

  lemma PolledOneKeeps(s: State, r: nat, p: Pointer, revents: Mask)
    requires Inv(s) && r < |s.reactors| && p in s.memory && s.memory[p].reactor == r && p !in s.reactors[r].batch
    requires s.reactors[r].turn.Reading?
    ensures Inv(PolledOne(s, r, p, revents))
  {
    hide Interested, Handling;
    var t := PolledOne(s, r, p, revents);
    forall i | 0 <= i < |t.reactors| ensures Interested(t, i) && Handling(t, i) { PolledOneParts(s, r, p, revents, i); }
  }

  /** The pointers of an interest set are live contexts of its reactor, each of one descriptor. */
  lemma InterestPointers(s: State, r: nat, fd: Fd, other: Fd)
    requires Inv(s) && r < |s.reactors| && fd in s.reactors[r].interest && other in s.reactors[r].interest
    ensures var p := s.reactors[r].interest[fd].pointer;
            && p in s.memory && s.memory[p].reactor == r
            && (fd != other ==> p != s.reactors[r].interest[other].pointer)
  {
    hide Owned, Handling;
    InvParts(s, r);
  }

  ghost predicate Unlisted(s: State, r: nat, ready: seq<(Fd, Mask)>)
    requires r < |s.reactors|
  {
    forall i | 0 <= i < |ready| ::
      ready[i].0 in s.reactors[r].interest && s.reactors[r].interest[ready[i].0].pointer !in s.reactors[r].batch
  }

  lemma {:induction false} PolledKeeps(s: State, r: nat, ready: seq<(Fd, Mask)>)
    requires Inv(s) && r < |s.reactors| && s.reactors[r].turn.Reading?
    requires DistinctFds(ready) && Unlisted(s, r, ready)
    ensures Inv(Polled(s, r, ready)) && |Polled(s, r, ready).reactors| == |s.reactors|
    ensures Polled(s, r, ready).reactors[r].batch ==
            s.reactors[r].batch + seq(|ready|, i requires 0 <= i < |ready| => s.reactors[r].interest[ready[i].0].pointer)
    decreases |ready|
  {
    if ready != [] {
      hide Inv;
      var p := s.reactors[r].interest[ready[0].0].pointer;
      InterestPointers(s, r, ready[0].0, ready[0].0);
      var t := PolledOne(s, r, p, ready[0].1);
      PolledOneKeeps(s, r, p, ready[0].1);
      forall i | 1 <= i < |ready| ensures s.reactors[r].interest[ready[i].0].pointer != p {
        InterestPointers(s, r, ready[0].0, ready[i].0);
      }
      PolledKeeps(t, r, ready[1..]);
    }
  }

  predicate Reported(s: State, r: nat, ready: seq<(Fd, Mask)>, p: Pointer)
    requires r < |s.reactors|
  {
    exists i :: 0 <= i < |ready| && ready[i].0 in s.reactors[r].interest && s.reactors[r].interest[ready[i].0].pointer == p
  }

  /** In `t` the context of each reported descriptor is that of `s` with just the events reported. */
  ghost predicate Told(s: State, t: State, r: nat, ready: seq<(Fd, Mask)>)
    requires r < |s.reactors|
  {
    forall i | 0 <= i < |ready| ::
      && ready[i].0 in s.reactors[r].interest
      && var p := s.reactors[r].interest[ready[i].0].pointer;
         p in s.memory && p in t.memory && t.memory[p] == s.memory[p].(revents := ready[i].1)
  }

  ghost predicate OthersKept(s: State, t: State, r: nat, ready: seq<(Fd, Mask)>)
    requires r < |s.reactors|
  {
    && t.memory.Keys == s.memory.Keys && t.contexts == s.contexts && t.open == s.open
    && forall p | p in s.memory && !Reported(s, r, ready, p) :: t.memory[p] == s.memory[p]
  }

  lemma PolledFirst(s: State, r: nat, ready: seq<(Fd, Mask)>)
    requires r < |s.reactors| && ready != [] && ready[0].0 in s.reactors[r].interest
    requires s.reactors[r].interest[ready[0].0].pointer in s.memory
    ensures var p := s.reactors[r].interest[ready[0].0].pointer;
            Polled(s, r, ready) == Polled(PolledOne(s, r, p, ready[0].1), r, ready[1..])
  {
  }

  lemma PolledNone(s: State, r: nat)
    requires r < |s.reactors|
    ensures Polled(s, r, []) == s
  {
  }

  lemma ToldFirst(s: State, u: State, r: nat, ready: seq<(Fd, Mask)>)
    requires r < |s.reactors| && ready != [] && ready[0].0 in s.reactors[r].interest
    requires s.reactors[r].interest[ready[0].0].pointer in s.memory
    requires !Reported(s, r, ready[1..], s.reactors[r].interest[ready[0].0].pointer)
    requires var t := PolledOne(s, r, s.reactors[r].interest[ready[0].0].pointer, ready[0].1);
             |t.reactors| == |s.reactors| && Told(t, u, r, ready[1..]) && OthersKept(t, u, r, ready[1..])
    ensures Told(s, u, r, ready) && OthersKept(s, u, r, ready)
  {
    var p := s.reactors[r].interest[ready[0].0].pointer;
    var t := PolledOne(s, r, p, ready[0].1);
    forall i | 1 <= i < |ready|
      ensures ready[i].0 in s.reactors[r].interest
      ensures var q := s.reactors[r].interest[ready[i].0].pointer;
              q in s.memory && q in u.memory && u.memory[q] == s.memory[q].(revents := ready[i].1)
    {
      assert ready[i] == ready[1..][i - 1];
    }
    forall q | q in s.memory && !Reported(s, r, ready, q) ensures u.memory[q] == s.memory[q] {
      assert s.reactors[r].interest[ready[0].0].pointer != q;
    }
  }

  /** After a poll each ready context knows just the events reported for its descriptor; the rest of it, and
      all other contexts, are as before. */
  lemma {:induction false} PolledTells(s: State, r: nat, ready: seq<(Fd, Mask)>)
    requires Inv(s) && r < |s.reactors| && s.reactors[r].turn.Reading?
    requires DistinctFds(ready) && Unlisted(s, r, ready)
    ensures Told(s, Polled(s, r, ready), r, ready) && OthersKept(s, Polled(s, r, ready), r, ready)
    decreases |ready|
  {
    hide Inv;
    if ready != [] {
      hide Polled, Told, OthersKept;
      var p := s.reactors[r].interest[ready[0].0].pointer;
      InterestPointers(s, r, ready[0].0, ready[0].0);
      var t := PolledOne(s, r, p, ready[0].1);
      PolledOneKeeps(s, r, p, ready[0].1);
      forall i | 1 <= i < |ready| ensures s.reactors[r].interest[ready[i].0].pointer != p {
        InterestPointers(s, r, ready[0].0, ready[i].0);
      }
      PolledTells(t, r, ready[1..]);
      PolledFirst(s, r, ready);
      ToldFirst(s, Polled(s, r, ready), r, ready);
    }
  }

  lemma DestroyedInOne(s: State, r: nat, fd: Fd)
    requires Inv(s) && r < |s.reactors| && fd in s.contexts && fd % |s.reactors| == r
    ensures Destroyed(s, r, fd) == s.(
              contexts := s.contexts - {fd}, memory := s.memory - {s.contexts[fd]},
              reactors := s.reactors[r := s.reactors[r].(turn := Closing(fd), interest := s.reactors[r].interest - {fd})])
  {
    InvParts(s, r);
  }

  lemma DestroyedKeeps(s: State, r: nat, fd: Fd)
    requires Inv(s) && r < |s.reactors| && fd in s.contexts && fd % |s.reactors| == r
    requires s.contexts[fd] !in s.reactors[r].batch && !s.reactors[r].turn.Closing?
    ensures Inv(Destroyed(s, r, fd))
  {
    hide Destroyed;
    DestroyedInOne(s, r, fd);
    var t := Destroyed(s, r, fd);
    forall i | 0 <= i < |t.reactors| ensures Interested(t, i) && Handling(t, i) {
      InvParts(s, i);
    }
  }

  lemma ClosedKeeps(s: State, r: nat)
    requires Inv(s) && r < |s.reactors| && s.reactors[r].turn.Closing?
    ensures Inv(Closed(s, r, s.reactors[r].turn.fd))
    ensures forall i | 0 <= i < |s.reactors| :: s.reactors[r].turn.fd !in s.reactors[i].interest
  {
    var fd := s.reactors[r].turn.fd;
    var t := Closed(s, r, fd);
    assert Handling(s, r);
    forall i | 0 <= i < |s.reactors|
      ensures fd !in s.reactors[i].interest && t.reactors[i].interest == s.reactors[i].interest
      ensures Interested(t, i) && Handling(t, i)
    {
      assert Interested(s, i) && Handling(s, i);
      assert s.reactors[i].interest - {fd} == s.reactors[i].interest;
    }
  }

  lemma HandledKeeps(s: State, r: nat, negative: bool)
    requires Inv(s) && Enabled(s, Handle(r, negative))
    ensures Inv(Handled(s, r, negative))
  {
    hide Destroyed;
    var x := s.reactors[r];
    assert Handling(s, r);
    var p := x.batch[0];
    assert p in s.memory;
    var c := s.memory[p];
    TurnKeeps(s, r, x.(turn := Writing));
    TurnKeeps(s, r, x.(batch := x.batch[1..], turn := Reading));
    TurnKeeps(s, r, x.(batch := x.batch[1..]));
    if negative && (if x.turn.Reading? then c.revents.read else c.revents.write) {
      var t := WithReactor(s, r, x.(batch := x.batch[1..]));
      assert p !in x.batch[1..];
      DestroyedKeeps(t, r, c.fd);
    }
  }

  lemma TurnKeeps(s: State, r: nat, x: Reactor)
    requires Inv(s) && r < |s.reactors| && !s.reactors[r].turn.Closing? && !x.turn.Closing?
    requires x.interest == s.reactors[r].interest
    requires x.batch == s.reactors[r].batch || (s.reactors[r].batch != [] && x.batch == s.reactors[r].batch[1..])
    ensures Inv(WithReactor(s, r, x))
  {
    var t := WithReactor(s, r, x);
    forall i | 0 <= i < |t.reactors| ensures Interested(t, i) && Handling(t, i) {
      assert Interested(s, i) && Handling(s, i);
    }
  }

  lemma StepKeeps(s: State, t: Step)
    requires Inv(s) && Enabled(s, t)
    ensures Inv(After(s, t))
  {
    hide Inv, Created, EventsSet, Polled, Handled, Closed;
    match t
    case Accept(fd) => CreatedKeeps(s, fd);
    case SetEvents(p, ev) => EventsSetKeeps(s, p, ev);
    case Poll(r, ready) => PolledKeeps(s, r, ready);
    case Handle(r, negative) => HandledKeeps(s, r, negative);
    case Close(r) => ClosedKeeps(s, r);
  }

  // ---------- Runs ----------

  ghost predicate IsRun(s: State, ts: seq<Step>)
    decreases |ts|
  {
    ts != [] ==> Enabled(s, ts[0]) && IsRun(After(s, ts[0]), ts[1..])
  }

  ghost function End(s: State, ts: seq<Step>): State
    requires IsRun(s, ts)
    decreases |ts|
  {
    if ts == [] then s else End(After(s, ts[0]), ts[1..])
  }

  lemma {:induction false} RunKeeps(s: State, ts: seq<Step>)
    requires Inv(s) && IsRun(s, ts)
    ensures Inv(End(s, ts))
    decreases |ts|
  {
    hide Inv, After, Enabled;
    if ts != [] {
      StepKeeps(s, ts[0]);
      RunKeeps(After(s, ts[0]), ts[1..]);
    }
  }

  /** Over every run: no epoll call fails, no dead context is touched and no live one dropped; and the
      interest set of each reactor is exactly the live contexts of its descriptors with their masks. */
  lemma InterestIsExactlyTheLive(n: nat, ts: seq<Step>, fd: Fd)
    requires n > 0 && IsRun(Initial(n), ts)
    ensures var s := End(Initial(n), ts);
            && !s.fault && |s.reactors| == n
            && (forall r | 0 <= r < n :: fd in s.reactors[r].interest <==> fd in s.contexts && fd % n == r)
            && (fd in s.contexts ==>
                  && s.contexts[fd] in s.memory && fd in s.open
                  && s.reactors[fd % n].interest[fd] == Entry(s.contexts[fd], s.memory[s.contexts[fd]].events))
  {
    hide Enabled, After;
    InitialInv(n);
    RunKeeps(Initial(n), ts);
    ReactorsStay(Initial(n), ts);
    var s := End(Initial(n), ts);
    forall r | 0 <= r < n ensures fd in s.reactors[r].interest <==> fd in s.contexts && fd % n == r { InvParts(s, r); }
    InvParts(s, fd % n);
  }

  lemma StepReactors(s: State, t: Step)
    requires Enabled(s, t)
    ensures |After(s, t).reactors| == |s.reactors| && After(s, t).next >= s.next
  {
    hide CtlAdd, CtlModify, CtlDelete, Polled;
    if t.Poll? { PolledReactors(s, t.r, t.ready); }
  }

  lemma {:induction false} PolledReactors(s: State, r: nat, ready: seq<(Fd, Mask)>)
    requires r < |s.reactors|
    ensures |Polled(s, r, ready).reactors| == |s.reactors| && Polled(s, r, ready).next == s.next
    ensures Polled(s, r, ready).memory.Keys == s.memory.Keys
    decreases |ready|
  {
    if ready != [] {
      if ready[0].0 !in s.reactors[r].interest {
        PolledReactors(s, r, ready[1..]);
      } else {
        var p := s.reactors[r].interest[ready[0].0].pointer;
        var t := if p in s.memory then s.(memory := s.memory[p := s.memory[p].(revents := ready[0].1)]) else Fault(s);
        assert t.memory.Keys == s.memory.Keys;
        PolledReactors(WithReactor(t, r, t.reactors[r].(batch := t.reactors[r].batch + [p])), r, ready[1..]);
      }
    }
  }

  lemma {:induction false} ReactorsStay(s: State, ts: seq<Step>)
    requires IsRun(s, ts)
    ensures |End(s, ts).reactors| == |s.reactors|
    decreases |ts|
  {
    hide After, Enabled;
    if ts != [] {
      StepReactors(s, ts[0]);
      ReactorsStay(After(s, ts[0]), ts[1..]);
    }
  }

  /** A descriptor that is about to be closed is in no interest set and belongs to no context; and nothing
      else is open that no context owns. */
  lemma DeregisteredBeforeClose(n: nat, ts: seq<Step>, fd: Fd)
    requires n > 0 && IsRun(Initial(n), ts)
    ensures var s := End(Initial(n), ts);
            && |s.reactors| == n
            && ((exists r :: 0 <= r < n && s.reactors[r].turn == Closing(fd)) <==> fd in s.open && fd !in s.contexts)
            && (fd in s.open && fd !in s.contexts ==> forall r | 0 <= r < n :: fd !in s.reactors[r].interest)
  {
    hide Enabled, After, Inv;
    InitialInv(n);
    RunKeeps(Initial(n), ts);
    ReactorsStay(Initial(n), ts);
    var s := End(Initial(n), ts);
    OpenIsOwned(s, fd);
    forall r | 0 <= r < n
      ensures s.reactors[r].turn == Closing(fd) ==> fd in s.open && fd !in s.contexts
      ensures fd !in s.contexts ==> fd !in s.reactors[r].interest
    {
      ReactorOwns(s, r, fd);
    }
  }

  lemma OpenIsOwned(s: State, fd: Fd)
    requires Inv(s)
    ensures fd in s.open ==> fd in s.contexts || s.reactors[fd % |s.reactors|].turn == Closing(fd)
  {
  }

  lemma ReactorOwns(s: State, r: nat, fd: Fd)
    requires Inv(s) && r < |s.reactors|
    ensures s.reactors[r].turn == Closing(fd) ==> fd in s.open && fd !in s.contexts
    ensures fd in s.reactors[r].interest ==> fd in s.contexts && s.reactors[r].interest[fd].pointer in s.memory
    ensures forall p | p in s.reactors[r].batch :: p in s.memory
  {
    InvParts(s, r);
  }

  /** A handler that returns negative leaves its context dead, off the batch, out of the map and out of
      the interest set, its descriptor still open. */
  lemma NegativeDestroys(s: State, r: nat)
    requires Inv(s) && Enabled(s, Handle(r, true))
    requires var x := s.reactors[r];
             && x.batch[0] in s.memory
             && var c := s.memory[x.batch[0]]; if x.turn.Reading? then c.revents.read else c.revents.write
    ensures var p, t := s.reactors[r].batch[0], After(s, Handle(r, true));
            var fd := s.memory[p].fd;
            && |t.reactors| == |s.reactors|
            && t.memory == s.memory - {p} && t.contexts == s.contexts - {fd} && fd in t.open
            && t.reactors[r] == Reactor(s.reactors[r].interest - {fd}, s.reactors[r].batch[1..], Closing(fd))
            && forall i | 0 <= i < |s.reactors| && i != r :: t.reactors[i] == s.reactors[i]
  {
    InvParts(s, r);
    var x, p := s.reactors[r], s.reactors[r].batch[0];
    assert s.memory[p].fd in x.interest;
  }

  lemma StepStaysDead(s: State, t: Step, p: Pointer)
    requires Inv(s) && Enabled(s, t) && p < s.next && p !in s.memory
    ensures p !in After(s, t).memory && p < After(s, t).next
  {
    StepReactors(s, t);
    match t
    case Accept(fd) => CreatedInOne(s, fd);
    case Poll(r, ready) => PolledReactors(s, r, ready);
    case _ =>
  }

  /** Nothing that is dead is ever polled, listed or registered again, whatever descriptor is reused. */
  lemma {:induction false} DeadStaysUntouched(s: State, ts: seq<Step>, p: Pointer)
    requires Inv(s) && IsRun(s, ts) && p < s.next && p !in s.memory
    ensures var e := End(s, ts);
            && p !in e.memory
            && forall r | 0 <= r < |e.reactors| ::
                 && p !in e.reactors[r].batch
                 && forall fd | fd in e.reactors[r].interest :: e.reactors[r].interest[fd].pointer != p
    decreases |ts|
  {
    hide Inv, After, Enabled;
    if ts == [] {
      forall r, fd: Fd | 0 <= r < |s.reactors|
        ensures p !in s.reactors[r].batch && (fd in s.reactors[r].interest ==> s.reactors[r].interest[fd].pointer != p)
      {
        ReactorOwns(s, r, fd);
      }
    } else {
      StepStaysDead(s, ts[0], p);
      StepKeeps(s, ts[0]);
      DeadStaysUntouched(After(s, ts[0]), ts[1..], p);
    }
  }

  // ---------- The server as it changes in place ----------

  class Server {
    var reactors: seq<Reactor>
    var contexts: map<Fd, Pointer>
    var memory: map<Pointer, IoContext>
    var open: set<Fd>
    var next: Pointer

    ghost function Value(): State
      reads this
    {
      State(reactors, contexts, memory, open, next, false)
    }

    constructor (n: nat)
      ensures Value() == Initial(n)
    {
      reactors := seq(n, i => Reactor(map[], [], Reading));
      contexts, memory, open, next := map[], map[], {}, 0;
    }

    method EpollAdd(r: nat, fd: Fd, e: Entry)
      requires r < |reactors| && fd in open && fd !in reactors[r].interest
      modifies `reactors
      ensures reactors == WithEntry(old(reactors), r, fd, e)
    {
      reactors := reactors[r := reactors[r].(interest := reactors[r].interest[fd := e])];
    }

    method EpollModify(r: nat, fd: Fd, e: Entry)
      requires r < |reactors| && fd in open && fd in reactors[r].interest
      modifies `reactors
      ensures reactors == WithEntry(old(reactors), r, fd, e)
    {
      reactors := reactors[r := reactors[r].(interest := reactors[r].interest[fd := e])];
    }

    method EpollDelete(r: nat, fd: Fd)
      requires r < |reactors| && fd in open && fd in reactors[r].interest
      modifies `reactors
      ensures |reactors| == |old(reactors)|
      ensures reactors == old(reactors)[r := old(reactors)[r].(interest := old(reactors)[r].interest - {fd})]
    {
      reactors := reactors[r := reactors[r].(interest := reactors[r].interest - {fd})];
    }

    /** The epoll set and the context agree on whether it is registered. */
    ghost predicate Registrable(p: Pointer)
      reads this
    {
      && p in memory && memory[p].reactor < |reactors| && memory[p].fd in open
      && (memory[p].registered <==> memory[p].fd in reactors[memory[p].reactor].interest)
    }

    method SetEvents(p: Pointer, ev: Mask)
      requires Registrable(p)
      modifies `memory, `reactors
      ensures Value() == EventsSet(old(Value()), p, ev)
      ensures Registrable(p) && memory[p].events == ev
    {
      var c := memory[p];
      memory := memory[p := c.(events := ev)];
      if c.registered {
        EpollModify(c.reactor, c.fd, Entry(p, ev));
      } else {
        EpollAdd(c.reactor, c.fd, Entry(p, ev));
        memory := memory[p := memory[p].(registered := true)];
      }
    }

    method ContextCreator(fd: Fd) returns (p: Pointer)
      requires Inv(Value()) && fd > 0 && fd !in open
      modifies this
      ensures Value() == After(old(Value()), Accept(fd)) && Inv(Value())
      ensures contexts == old(contexts)[fd := p] && p !in old(memory) && memory[p].events == ALL
    {
      hide Inv, EventsSet;
      CreatedInOne(Value(), fd);
      CreatedKeeps(Value(), fd);
      UnusedIsUnmapped(Value(), fd);
      p := next;
      next := next + 1;
      open := open + {fd};
      memory := memory[p := IoContext(fd, fd % |reactors|, NONE, NONE, false)];
      SetEvents(p, memory[p].events.(read := true));
      SetEvents(p, memory[p].events.(write := true));
      SetEvents(p, memory[p].events.(et := true));
      contexts := contexts[fd := p];
    }

    /** Erasing the context runs its destructors: EPOLL_CTL_DEL first, the descriptor still open. */
    method ContextDestroyer(r: nat, fd: Fd)
      requires Inv(Value()) && r < |reactors| && fd in contexts && fd % |reactors| == r
      modifies `contexts, `memory, `reactors
      ensures Value() == Destroyed(old(Value()), r, fd)
    {
      InvParts(Value(), r);
      var p := contexts[fd];
      var c := memory[p];
      contexts := contexts - {fd};
      EpollDelete(c.reactor, c.fd);
      memory := memory - {p};
      reactors := reactors[r := reactors[r].(turn := Closing(fd))];
    }

    method CloseSocket(r: nat)
      requires r < |reactors| && reactors[r].turn.Closing?
      modifies `open, `reactors
      ensures Value() == After(old(Value()), Close(r))
    {
      var fd := reactors[r].turn.fd;
      open := open - {fd};
      reactors := Forgotten(reactors, fd);
      reactors := reactors[r := reactors[r].(turn := Reading)];
    }

    method EpollPoll(r: nat, ready: seq<(Fd, Mask)>)
      requires Inv(Value()) && Enabled(Value(), Poll(r, ready))
      modifies `memory, `reactors
      ensures Value() == After(old(Value()), Poll(r, ready)) && Inv(Value())
      ensures Told(old(Value()), Value(), r, ready) && OthersKept(old(Value()), Value(), r, ready)
    {
      hide Inv, Polled, Told, OthersKept;
      ghost var before := Value();
      PolledKeeps(before, r, ready);
      PolledTells(before, r, ready);
      assert ready[0..] == ready;
      var i := 0;
      while i < |ready|
        invariant i <= |ready| && |reactors| == |before.reactors|
        invariant Polled(Value(), r, ready[i..]) == Polled(before, r, ready)
        invariant reactors[r].interest == before.reactors[r].interest && memory.Keys == before.memory.Keys
      {
        ReactorOwns(before, r, ready[i].0);
        var p := reactors[r].interest[ready[i].0].pointer;
        assert ready[i..][0] == ready[i] && ready[i..][1..] == ready[i + 1..];
        assert p in before.memory.Keys;
        PolledFirst(Value(), r, ready[i..]);
        memory := memory[p := memory[p].(revents := ready[i].1)];
        reactors := reactors[r := reactors[r].(batch := reactors[r].batch + [p])];
        i := i + 1;
      }
      assert ready[i..] == [];
      PolledNone(Value(), r);
    }

    /** One half of `handleGeneral`. `negative`: what the handler returns, if it is called. */
    method HandleHalf(r: nat, negative: bool) returns (called: bool)
      requires Inv(Value()) && Enabled(Value(), Handle(r, negative))
      modifies `contexts, `memory, `reactors
      ensures Value() == After(old(Value()), Handle(r, negative)) && Inv(Value())
      ensures var p := old(reactors)[r].batch[0];
              && p in old(memory)
              && var c := old(memory)[p];
                 called == if old(reactors)[r].turn.Reading? then c.revents.read else c.revents.write
    {
      hide Inv, Destroyed;
      HandledKeeps(Value(), r, negative);
      ReactorOwns(Value(), r, 0);
      var x := reactors[r];
      var p := x.batch[0];
      assert p in x.batch;
      var c := memory[p];
      called := if x.turn.Reading? then c.revents.read else c.revents.write;
      if negative && called {
        HandledOwn(Value(), r);
        reactors := reactors[r := x.(batch := x.batch[1..])];
        ContextDestroyer(r, c.fd);
      } else if x.turn.Reading? {
        reactors := reactors[r := x.(turn := Writing)];
      } else {
        reactors := reactors[r := x.(batch := x.batch[1..], turn := Reading)];
      }
    }

    /** `handleGeneral` on the first context of the batch: a readable handler that returns negative has
        destroyed the context, so the writable one is not called. */
    method HandleGeneral(r: nat, readNegative: bool, writeNegative: bool) returns (calledRead: bool, calledWrite: bool)
      requires Inv(Value()) && Enabled(Value(), Handle(r, readNegative)) && reactors[r].turn.Reading?
      modifies this
      ensures Inv(Value()) && |reactors| == |old(reactors)|
      ensures reactors[r].batch == old(reactors)[r].batch[1..] && reactors[r].turn == Reading
      ensures var p := old(reactors)[r].batch[0];
              && p in old(memory)
              && var c := old(memory)[p];
                 var gone := (c.revents.read && readNegative) || (calledWrite && writeNegative);
                 && calledRead == c.revents.read
                 && calledWrite == (c.revents.write && !(c.revents.read && readNegative))
                 && memory == (if gone then old(memory) - {p} else old(memory))
                 && contexts == (if gone then old(contexts) - {c.fd} else old(contexts))
                 && open == (if gone then old(open) - {c.fd} else old(open))
    {
      hide Inv;
      calledWrite := false;
      ghost var before := Value();
      calledRead := HandleHalf(r, readNegative);
      if calledRead && readNegative {
        NegativeDestroys(before, r);
        ClosedKeeps(Value(), r);
        CloseSocket(r);
        return;
      }
      before := Value();
      calledWrite := HandleHalf(r, writeNegative);
      if calledWrite && writeNegative {
        NegativeDestroys(before, r);
        ClosedKeeps(Value(), r);
        CloseSocket(r);
      }
    }
  }

  lemma UnusedIsUnmapped(s: State, fd: Fd)
    requires Inv(s) && fd !in s.open
    ensures |s.reactors| > 0 && fd !in s.contexts && s.next !in s.memory && fd !in s.reactors[fd % |s.reactors|].interest
  {
    InvParts(s, fd % |s.reactors|);
  }

  /** Taking the first context off the batch leaves it fit to be destroyed. */
  lemma HandledOwn(s: State, r: nat)
    requires Inv(s) && r < |s.reactors| && s.reactors[r].batch != [] && !s.reactors[r].turn.Closing?
    ensures var x, p := s.reactors[r], s.reactors[r].batch[0];
            && Inv(WithReactor(s, r, x.(batch := x.batch[1..])))
            && p in s.memory && s.memory[p].fd in s.contexts && s.memory[p].fd % |s.reactors| == r
  {
    InvParts(s, r);
    TurnKeeps(s, r, s.reactors[r].(batch := s.reactors[r].batch[1..]));
  }
}
