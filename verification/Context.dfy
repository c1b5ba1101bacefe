/** A connection: what is read off its socket and written to it, whatever the kernel answers. */
module Context {
  import opened B = Buffer
  import opened Options

  const READ_SIZE: nat := 1024

  /** `MOVED` only comes about by the move constructor. */
  datatype Status = Invalid | Valid | Closed

  /** The kernel's answer to one `read` or `write`: a count, `EAGAIN`, or another error. A count above
      what was asked for stands for all of it. */
  datatype Answer = Count(n: nat) | WouldBlock | Failed

  /** The answer to one `read` carries the bytes; no bytes is the end of the stream. */
  datatype Arrival = Bytes(bytes: string) | NothingYet | Broken

  datatype Result = Success | SocketError | FileError

  /** The context; `accepted` and `received` record what the kernel took and gave. `armed`: a write would
      have blocked, so the socket becoming writable raises an edge. `queued`: an edge waits to be polled. */
  datatype State = State(
    status: Status, wbuffer: string, buffer: string, destroyed: bool,
    accepted: string, received: string, armed: bool, queued: bool)

  const INITIAL: State := State(Valid, "", "", false, "", "", false, true)

  function Least(a: nat, b: nat): nat { if a < b then a else b }

  /** Scripted answers; when the script ends the call would block. */
  function First(answers: seq<Answer>): Answer { if answers == [] then WouldBlock else answers[0] }

  function Rest(answers: seq<Answer>): seq<Answer> { if answers == [] then [] else answers[1..] }

  // ---------- Specification ----------

  function Flushed(s: State, answers: seq<Answer>): State
    decreases |s.wbuffer|
  {
    if s.status != Valid || s.wbuffer == "" then s
    else match First(answers)
      case Count(n) =>
        if n == 0 then s.(status := Closed)
        else
          var k := Least(n, |s.wbuffer|);
          Flushed(s.(accepted := s.accepted + s.wbuffer[..k], wbuffer := s.wbuffer[k..]), Rest(answers))
      case WouldBlock => s.(armed := true)
      case Failed => s.(status := Invalid)
  }

  function AsyncWritten(s: State, data: string, answers: seq<Answer>): State {
    if s.status != Valid then s else Flushed(s.(wbuffer := s.wbuffer + data), answers)
  }

  /** Every round offers `data` from its first byte, whatever was taken before. */
  function SyncRounds(s: State, data: string, remaining: nat, answers: seq<Answer>): State
    requires remaining <= |data|
    decreases remaining
  {
    if remaining == 0 then s
    else match First(answers)
      case Count(n) =>
        if n == 0 then s.(status := Closed)
        else
          var k := Least(n, remaining);
          SyncRounds(s.(accepted := s.accepted + data[..k]), data, remaining - k, Rest(answers))
      case WouldBlock => AsyncWritten(s.(armed := true), data[|data| - remaining..], Rest(answers))
      case Failed => s.(status := Invalid)
  }

  function SyncWritten(s: State, data: string, answers: seq<Answer>): State {
    if s.status != Valid then s else SyncRounds(s, data, |data|, answers)
  }

  /** What the caller is told: a failure of the flush behind a blocked write is not reported. */
  function SyncResult(remaining: nat, answers: seq<Answer>): Result
    decreases remaining
  {
    if remaining == 0 then Success
    else match First(answers)
      case Count(n) => if n == 0 then SocketError else SyncResult(remaining - Least(n, remaining), Rest(answers))
      case WouldBlock => Success
      case Failed => SocketError
  }

  /** What the freads of a file give until one gives nothing. */
  function FileData(chunks: seq<string>): string {
    if chunks == [] || chunks[0] == "" then "" else chunks[0][..Least(|chunks[0]|, READ_SIZE)] + FileData(chunks[1..])
  }

  function FileWritten(s: State, chunks: seq<string>, answers: seq<Answer>): State {
    if s.status != Valid then s else Flushed(s.(wbuffer := s.wbuffer + FileData(chunks)), answers)
  }

  function ReadRounds(s: State, arrivals: seq<Arrival>): State
    decreases |arrivals|
  {
    if arrivals == [] then s
    else match arrivals[0]
      case Bytes(b) =>
        if b == "" then s.(status := Closed)
        else
          var got := b[..Least(|b|, READ_SIZE)];
          ReadRounds(s.(buffer := s.buffer + got, received := s.received + got), arrivals[1..])
      case NothingYet => s
      case Broken => s.(status := Invalid)
  }

  function CleanedUp(s: State): State { if s.status != Valid then s.(destroyed := true) else s }

  function WritableHandled(s: State, answers: seq<Answer>): State {
    var e := s.(queued := false);
    if e.status != Valid then CleanedUp(e) else CleanedUp(Flushed(e, answers))
  }

  /** Up to the call of the receive callback. */
  function ReadableHandled(s: State, arrivals: seq<Arrival>): State {
    if s.status != Valid then CleanedUp(s) else CleanedUp(ReadRounds(s, arrivals))
  }

  // ---------- The context as it changes in place ----------

  class Context {
    var status: Status
    const buffer: Buffer
    const wbuffer: Buffer
    var destroyed: bool
    ghost var accepted: string
    ghost var received: string
    ghost var armed: bool
    ghost var queued: bool

    ghost predicate Separate()
      reads this
    {
      buffer != wbuffer
    }

    ghost function Value(): State
      reads this, buffer, wbuffer
    {
      State(status, wbuffer.data, buffer.data, destroyed, accepted, received, armed, queued)
    }

    constructor ()
      ensures Separate() && Value() == INITIAL && fresh(buffer) && fresh(wbuffer)
    {
      buffer := new Buffer();
      wbuffer := new Buffer();
      status, destroyed, accepted, received, armed, queued := Valid, false, "", "", false, true;
    }

    method FlushWriteBuffer(answers: seq<Answer>)
      requires Separate()
      modifies this, wbuffer
      ensures Value() == Flushed(old(Value()), answers)
    {
      if status != Valid { return; }
      var a := answers;
      while wbuffer.data != ""
        invariant status == Valid && Flushed(Value(), a) == Flushed(old(Value()), answers)
        decreases |wbuffer.data|
      {
        match First(a) {
          case Count(n) =>
            if n > 0 {
              var k := Least(n, |wbuffer.data|);
              accepted := accepted + wbuffer.data[..k];
              wbuffer.MoveReadCursor(k);
            } else {
              status := Closed;
              break;
            }
          case WouldBlock =>
            armed := true;
            break;
          case Failed =>
            status := Invalid;
            break;
        }
        a := Rest(a);
      }
    }

    method AsyncWrite(data: string, answers: seq<Answer>)
      requires Separate()
      modifies this, wbuffer
      ensures Value() == AsyncWritten(old(Value()), data, answers)
    {
      if status != Valid { return; }
      wbuffer.Put(data);
      FlushWriteBuffer(answers);
    }

    method SyncWrite(data: string, answers: seq<Answer>) returns (r: Result)
      requires Separate()
      modifies this, wbuffer
      ensures Value() == SyncWritten(old(Value()), data, answers)
      ensures r == if old(status) == Valid then SyncResult(|data|, answers) else SocketError
    {
      if status != Valid { return SocketError; }
      var remaining: nat := |data|;
      var a := answers;
      while remaining > 0
        invariant status == Valid && remaining <= |data|
        invariant SyncResult(remaining, a) == SyncResult(|data|, answers)
        invariant SyncRounds(Value(), data, remaining, a) == SyncWritten(old(Value()), data, answers)
        decreases remaining
      {
        match First(a) {
          case Count(n) =>
            if n > 0 {
              var k := Least(n, remaining);
              accepted := accepted + data[..k];
              remaining := remaining - k;
            } else {
              status := Closed;
              return SocketError;
            }
          case WouldBlock =>
            armed := true;
            AsyncWrite(data[|data| - remaining..], Rest(a));
            return Success;
          case Failed =>
            status := Invalid;
            return SocketError;
        }
        a := Rest(a);
      }
      return Success;
    }

    /** A string is written with its terminating zero, a vector of bytes as it is. */
    method WriteString(data: string, answers: seq<Answer>) returns (r: Result)
      requires Separate()
      modifies this, wbuffer
      ensures Value() == SyncWritten(old(Value()), data + "\0", answers)
      ensures r == if old(status) == Valid then SyncResult(|data| + 1, answers) else SocketError
    {
      if status != Valid { return SocketError; }
      r := SyncWrite(data + "\0", answers);
    }

    /** `file` is what the freads of the opened file give; None when it does not open. */
    method WriteFile(file: Option<seq<string>>, answers: seq<Answer>) returns (r: Result)
      requires Separate()
      modifies this, wbuffer
      ensures Value() == if file.Some? then FileWritten(old(Value()), file.value, answers) else old(Value())
      ensures r == if old(status) != Valid then SocketError else if file.None? then FileError else Success
    {
      if status != Valid { return SocketError; }
      if file.None? { return FileError; }
      var i := 0;
      while true
        invariant i <= |file.value| && unchanged(this)
        invariant wbuffer.data + FileData(file.value[i..]) == old(wbuffer.data) + FileData(file.value)
        decreases |file.value| - i
      {
        var chunk := if i < |file.value| then file.value[i][..Least(|file.value[i]|, READ_SIZE)] else "";
        FillFrom(wbuffer, chunk);
        if chunk == "" { break; }
        assert file.value[i..][1..] == file.value[i + 1..];
        i := i + 1;
      }
      FlushWriteBuffer(answers);
      return Success;
    }

    method StateCleanup() returns (ret: int)
      modifies `destroyed
      ensures destroyed == (old(destroyed) || status != Valid)
      ensures ret == if status == Valid then 0 else -1
    {
      if status == Closed || status == Invalid {
        destroyed := true;
        return -1;
      }
      return 0;
    }

    method HandleWritableEvent(answers: seq<Answer>) returns (ret: int)
      requires Separate()
      modifies this, wbuffer
      ensures Value() == WritableHandled(old(Value()), answers)
      ensures ret == if status == Valid then 0 else -1
    {
      queued := false;
      ret := StateCleanup();
      if ret < 0 { return; }
      FlushWriteBuffer(answers);
      ret := StateCleanup();
    }

    /** Up to the receive callback, which is due when the result is 0. */
    method HandleReadableEvent(arrivals: seq<Arrival>) returns (ret: int)
      requires Separate()
      modifies this, buffer
      ensures Value() == ReadableHandled(old(Value()), arrivals)
      ensures ret == if status == Valid then 0 else -1
    {
      ret := StateCleanup();
      if ret < 0 { return; }
      var i := 0;
      while i < |arrivals|
        invariant i <= |arrivals| && status == Valid && destroyed == old(destroyed)
        invariant ReadRounds(Value(), arrivals[i..]) == ReadRounds(old(Value()), arrivals)
      {
        assert arrivals[i..][0] == arrivals[i] && arrivals[i..][1..] == arrivals[i + 1..];
        match arrivals[i] {
          case Bytes(b) =>
            var got := b[..Least(|b|, READ_SIZE)];
            FillFrom(buffer, got);
            if got == "" {
              status := Closed;
              break;
            }
            received := received + got;
          case NothingYet =>
            FillFrom(buffer, "");
            break;
          case Broken =>
            FillFrom(buffer, "");
            status := Invalid;
            break;
        }
        i := i + 1;
      }
      ret := StateCleanup();
    }

    method Read() returns (bytes: string)
      requires Separate()
      modifies buffer
      ensures bytes == old(Value()).buffer && Value() == old(Value()).(buffer := "")
    {
      bytes := buffer.Get();
    }

    method ReadString() returns (s: string)
      requires Separate()
      modifies buffer
      ensures old(status) == Valid ==> s == old(Value()).buffer && Value() == old(Value()).(buffer := "")
      ensures old(status) != Valid ==> s == "" && Value() == old(Value())
    {
      if status != Valid { return ""; }
      s := buffer.data;
      buffer.Clear();
    }
  }

  /** One read into room for READ_SIZE bytes, the unused room given back. */
  method FillFrom(b: Buffer, bytes: string)
    requires |bytes| <= READ_SIZE
    modifies b
    ensures b.data == old(b.data) + bytes
  {
    var at := b.GetWriter(READ_SIZE);
    b.Fill(at, bytes);
    GrowFillShrink(old(b.data), bytes, READ_SIZE);
    if |bytes| < READ_SIZE { b.Shrink(READ_SIZE - |bytes|); }
  }
}
