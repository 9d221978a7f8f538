/**
 The byte queues between OpenVPN Core and rustls. `Connection` is the backend's connection object;
 its methods are proved against `Next`, `Code` and `Bytes`, and the theorems range over every
 sequence of calls. What rustls decides is a parameter of each call.
 */
module TlsConnection {
  import opened Options

  type Byte = bv8

  const USIZE_MAX: nat := 0xFFFF_FFFF_FFFF_FFFF
  const ISIZE_MAX: nat := 0x7FFF_FFFF_FFFF_FFFF

  /** rustls, as far as it is visible here: bytes it wants to send, decrypted bytes nobody has read,
      and whether the peer sent close-notify. */
  datatype Rustls = Rustls(outgoing: seq<Byte>, unread: seq<Byte>, closed: bool)

  /** Processing input appends to both buffers; data after close-notify is ignored. */
  predicate Receives(before: Rustls, after: Rustls) {
    && before.outgoing <= after.outgoing && before.unread <= after.unread
    && (before.closed ==> after.closed && after.unread == before.unread)
  }

  /** Accepting plaintext only adds to what is to be sent. */
  predicate Sends(before: Rustls, after: Rustls) {
    before.outgoing <= after.outgoing && after.unread == before.unread && after.closed == before.closed
  }

  datatype Conn = Conn(rustls: Rustls, ciphertext: seq<Byte>, plaintextReady: nat, peerClosed: bool)

  /** One call, with what rustls does in it. `result` and `taken` are `None` where rustls fails;
      `broken` says whether an empty read fails rather than would block. */
  datatype Call =
    | WritePlaintext(after: Rustls, result: Option<nat>)
    | WriteCiphertext(after: Rustls, result: Option<nat>)
    | ReadCiphertext(capacity: nat, isNull: bool, taken: Option<nat>)
    | ReadPlaintext(capacity: nat, isNull: bool, broken: bool)

  /** `write_tls` is called when the queue is empty and there is something to send. */
  predicate Pulls(c: Conn) {
    c.ciphertext == [] && c.rustls.outgoing != []
  }

  /** `write_tls` into a vector takes a non-empty prefix or fails. */
  predicate Legal(c: Conn, call: Call) {
    match call
    case WritePlaintext(after, _) => Sends(c.rustls, after)
    case WriteCiphertext(after, _) => Receives(c.rustls, after)
    case ReadCiphertext(_, _, taken) => Pulls(c) && taken.Some? ==> 1 <= taken.value <= |c.rustls.outgoing|
    case ReadPlaintext(_, _, _) => true
  }

  function Min(a: nat, b: nat): nat {
    if a < b then a else b
  }

  /** The queue after `write_tls`, if it was called. */
  function Pull(c: Conn, taken: Option<nat>): Conn
    requires Pulls(c) && taken.Some? ==> 1 <= taken.value <= |c.rustls.outgoing|
  {
    if Pulls(c) && taken.Some? then
      var out := c.rustls.outgoing;
      c.(ciphertext := out[..taken.value], rustls := c.rustls.(outgoing := out[taken.value..]))
    else c
  }

  predicate NullOutput(capacity: nat, isNull: bool) {
    capacity > 0 && isNull
  }

  /** The bytes a call writes to its output buffer. */
  function Bytes(c: Conn, call: Call): seq<Byte>
    requires Legal(c, call)
  {
    match call
    case ReadCiphertext(capacity, isNull, taken) =>
      if (Pulls(c) && taken.None?) || NullOutput(capacity, isNull) then []
      else Pull(c, taken).ciphertext[..Min(capacity, |Pull(c, taken).ciphertext|)]
    case ReadPlaintext(capacity, isNull, _) =>
      if NullOutput(capacity, isNull) then [] else c.rustls.unread[..Min(capacity, |c.rustls.unread|)]
    case _ => []
  }

  /** The connection after a call. */
  function Next(c: Conn, call: Call): Conn
    requires Legal(c, call)
  {
    match call
    case WritePlaintext(after, _) => c.(rustls := after)
    case WriteCiphertext(after, result) =>
      if result.None? then c.(rustls := after)
      else c.(rustls := after, plaintextReady := |after.unread|, peerClosed := after.closed)
    case ReadCiphertext(_, _, taken) =>
      var p := Pull(c, taken);
      p.(ciphertext := p.ciphertext[|Bytes(c, call)|..])
    case ReadPlaintext(_, _, _) =>
      var n := |Bytes(c, call)|;
      c.(rustls := c.rustls.(unread := c.rustls.unread[n..]),
         plaintextReady := if n <= c.plaintextReady then c.plaintextReady - n else 0)
  }

  /** `ffi_io` */
  function FfiIo(result: Option<nat>): int {
    match result
    case None => -3
    case Some(n) => if n == USIZE_MAX then -2 else if n <= ISIZE_MAX then n else -1
  }

  /** rustls' reader: how many bytes, or would block, or an error. */
  datatype Read = Got(n: nat) | WouldBlock | Failed

  function Reader(r: Rustls, capacity: nat, broken: bool): Read {
    if r.unread != [] || capacity == 0 || r.closed then Got(Min(capacity, |r.unread|))
    else if broken then Failed
    else WouldBlock
  }

  /** What a call returns to Core. */
  function Code(c: Conn, call: Call): int
    requires Legal(c, call)
  {
    match call
    case WritePlaintext(_, result) => FfiIo(result)
    case WriteCiphertext(_, result) => FfiIo(result)
    case ReadCiphertext(capacity, isNull, taken) =>
      if (Pulls(c) && taken.None?) || NullOutput(capacity, isNull) then FfiIo(None)
      else FfiIo(Some(|Bytes(c, call)|))
    case ReadPlaintext(capacity, isNull, broken) =>
      if NullOutput(capacity, isNull) then FfiIo(None)
      else
        match Reader(c.rustls, capacity, broken)
        case Got(n) => FfiIo(Some(if n == 0 && c.peerClosed then USIZE_MAX else n))
        case WouldBlock => FfiIo(Some(0))
        case Failed => FfiIo(None)
  }

  predicate CiphertextReady(c: Conn) {
    c.ciphertext != [] || c.rustls.outgoing != []
  }

  predicate PlaintextReady(c: Conn) {
    c.plaintextReady != 0 || c.peerClosed
  }

  /** A new connection, with its first flight ready to be sent. */
  function New(hello: seq<Byte>): Conn {
    Conn(Rustls(hello, [], false), [], 0, false)
  }

  // ---------------------------------------------------------------- the object

  class Connection {
    var connection: Rustls
    var ciphertext: seq<Byte>
    var plaintextReady: nat
    var peerClosed: bool

    function State(): Conn
      reads this
    {
      Conn(connection, ciphertext, plaintextReady, peerClosed)
    }

    constructor (hello: seq<Byte>)
      ensures State() == New(hello)
    {
      connection, ciphertext, plaintextReady, peerClosed := Rustls(hello, [], false), [], 0, false;
    }

    method WritePlaintextBytes(after: Rustls, result: Option<nat>) returns (r: int)
      requires Sends(connection, after)
      modifies this`connection
      ensures State() == Next(old(State()), WritePlaintext(after, result))
      ensures r == Code(old(State()), WritePlaintext(after, result))
    {
      connection := after;
      r := FfiIo(result);
    }

    method WriteCiphertextBytes(after: Rustls, result: Option<nat>) returns (r: int)
      requires Receives(connection, after)
      modifies this
      ensures State() == Next(old(State()), WriteCiphertext(after, result))
      ensures r == Code(old(State()), WriteCiphertext(after, result))
    {
      connection := after;
      if result.None? {
        return FfiIo(None);
      }
      plaintextReady := |after.unread|;
      peerClosed := after.closed;
      r := FfiIo(result);
    }

    /** Output buffers are arrays, with a flag for a null pointer. */
    method ReadCiphertextBytes(output: array<Byte>, isNull: bool, taken: Option<nat>) returns (r: int)
      requires Legal(State(), ReadCiphertext(output.Length, isNull, taken))
      modifies this`connection, this`ciphertext, output
      ensures var call := ReadCiphertext(output.Length, isNull, taken);
              && State() == Next(old(State()), call) && r == Code(old(State()), call)
              && output[..] == Overwrite(old(output[..]), Bytes(old(State()), call))
    {
      var ok := Refill(taken);
      if !ok || (output.Length > 0 && isNull) {
        return FfiIo(None);
      }
      var length := Min(output.Length, |ciphertext|);
      PopInto(output, length);
      r := FfiIo(Some(length));
    }

    /** The queue is filled from rustls when it is empty. */
    method Refill(taken: Option<nat>) returns (ok: bool)
      requires Pulls(State()) && taken.Some? ==> 1 <= taken.value <= |connection.outgoing|
      modifies this`connection, this`ciphertext
      ensures State() == Pull(old(State()), taken) && ok == !(Pulls(old(State())) && taken.None?)
    {
      if ciphertext == [] && connection.outgoing != [] {
        if taken.None? {
          return false;
        }
        var out := connection.outgoing;
        connection := connection.(outgoing := out[taken.value..]);
        ciphertext := out[..taken.value];
      }
      ok := true;
    }

    /** The loop that moves bytes from the front of the queue to the output slots. */
    method PopInto(output: array<Byte>, length: nat)
      requires length <= output.Length && length <= |ciphertext|
      modifies this`ciphertext, output
      ensures ciphertext == old(ciphertext)[length..]
      ensures output[..] == Overwrite(old(output[..]), old(ciphertext)[..length])
    {
      ghost var queue := ciphertext;
      for slot := 0 to length
        invariant ciphertext == queue[slot..]
        invariant forall k :: 0 <= k < slot ==> output[k] == queue[k]
        invariant forall k :: slot <= k < output.Length ==> output[k] == old(output[k])
      {
        output[slot] := ciphertext[0];
        ciphertext := ciphertext[1..];
      }
    }

    method ReadPlaintextBytes(output: array<Byte>, isNull: bool, broken: bool) returns (r: int)
      modifies this`connection, this`plaintextReady, output
      ensures var call := ReadPlaintext(output.Length, isNull, broken);
              && State() == Next(old(State()), call) && r == Code(old(State()), call)
              && output[..] == Overwrite(old(output[..]), Bytes(old(State()), call))
    {
      if output.Length > 0 && isNull {
        return FfiIo(None);
      }
      var read := ReaderRead(output, broken);
      match read {
        case Got(n) =>
          if n == 0 && peerClosed {
            return FfiIo(Some(USIZE_MAX));
          }
          plaintextReady := if n <= plaintextReady then plaintextReady - n else 0;
          r := FfiIo(Some(n));
        case WouldBlock =>
          r := FfiIo(Some(0));
        case Failed =>
          r := FfiIo(None);
      }
    }

    /** rustls' reader copies what fits. */
    method ReaderRead(output: array<Byte>, broken: bool) returns (r: Read)
      modifies this`connection, output
      ensures var n := Min(output.Length, |old(connection).unread|);
              && r == Reader(old(connection), output.Length, broken)
              && connection == old(connection).(unread := old(connection).unread[n..])
              && output[..] == Overwrite(old(output[..]), old(connection).unread[..n])
    {
      var unread := connection.unread;
      var n := Min(output.Length, |unread|);
      r := Reader(connection, output.Length, broken);
      forall k | 0 <= k < n { output[k] := unread[k]; }
      connection := connection.(unread := unread[n..]);
    }
  }

  /** A buffer whose first bytes were replaced. */
  function Overwrite(buffer: seq<Byte>, bytes: seq<Byte>): seq<Byte> {
    if |bytes| <= |buffer| then bytes + buffer[|bytes|..] else bytes
  }

  // ---------------------------------------------------------------- runs

  predicate Possible(c: Conn, calls: seq<Call>)
    decreases |calls|
  {
    calls == [] || (Legal(c, calls[0]) && Possible(Next(c, calls[0]), calls[1..]))
  }

  function After(c: Conn, calls: seq<Call>): Conn
    requires Possible(c, calls)
    decreases |calls|
  {
    if calls == [] then c else After(Next(c, calls[0]), calls[1..])
  }

  /** The concatenation over a run of one byte string per call. */
  function Total(f: (Conn, Call) -> seq<Byte>, c: Conn, calls: seq<Call>): seq<Byte>
    requires Possible(c, calls)
    decreases |calls|
  {
    if calls == [] then [] else f(c, calls[0]) + Total(f, Next(c, calls[0]), calls[1..])
  }

  /** Ciphertext that a call returned to Core. */
  function Returned(c: Conn, call: Call): seq<Byte> {
    if Legal(c, call) && call.ReadCiphertext? then Bytes(c, call) else []
  }

  /** Ciphertext that `write_tls` handed over in a call. */
  function Emitted(c: Conn, call: Call): seq<Byte> {
    if call.ReadCiphertext? && Legal(c, call) && Pulls(c) && call.taken.Some?
    then c.rustls.outgoing[..call.taken.value] else []
  }

  /** Ciphertext that rustls produced in a call. */
  function Produced(c: Conn, call: Call): seq<Byte> {
    if (call.WriteCiphertext? || call.WritePlaintext?) && Legal(c, call)
    then call.after.outgoing[|c.rustls.outgoing|..] else []
  }

  /** Plaintext that a call delivered to Core. */
  function Delivered(c: Conn, call: Call): seq<Byte> {
    if Legal(c, call) && call.ReadPlaintext? then Bytes(c, call) else []
  }

  /** Plaintext that rustls decrypted in a call. */
  function Decrypted(c: Conn, call: Call): seq<Byte> {
    if call.WriteCiphertext? && Legal(c, call) then call.after.unread[|c.rustls.unread|..] else []
  }

  /** Ciphertext on its way to Core. */
  function Pending(c: Conn): seq<Byte> {
    c.ciphertext + c.rustls.outgoing
  }

  // ---------------------------------------------------------------- nothing is lost or reordered

  lemma Regroup(
    a: seq<Byte>, b: seq<Byte>, rest: seq<Byte>, x: seq<Byte>, y: seq<Byte>, total: seq<Byte>, end: seq<Byte>)
    requires a + b == x + y && y + rest == total + end
    ensures a + (b + rest) == (x + total) + end
  {
    calc {
      a + (b + rest);
      (a + b) + rest;
      (x + y) + rest;
      x + (y + rest);
      x + (total + end);
      (x + total) + end;
    }
  }

  /** In one call, what was pending and what is produced is what is returned and what stays pending. */
  lemma CallKeepsCiphertext(c: Conn, call: Call)
    requires Legal(c, call)
    ensures Pending(c) + Produced(c, call) == Returned(c, call) + Pending(Next(c, call))
    ensures c.ciphertext + Emitted(c, call) == Returned(c, call) + Next(c, call).ciphertext
  {
    if call.ReadCiphertext? {
      PullKeeps(c, call.taken);
      var p, bytes := Pull(c, call.taken), Bytes(c, call);
      assert p.ciphertext == bytes + p.ciphertext[|bytes|..];
    }
  }

  lemma PullKeeps(c: Conn, taken: Option<nat>)
    requires Pulls(c) && taken.Some? ==> 1 <= taken.value <= |c.rustls.outgoing|
    ensures Pending(Pull(c, taken)) == Pending(c)
  {
  }

  lemma {:induction false} CiphertextConserved(c: Conn, calls: seq<Call>)
    requires Possible(c, calls)
    ensures Pending(c) + Total(Produced, c, calls) == Total(Returned, c, calls) + Pending(After(c, calls))
    ensures c.ciphertext + Total(Emitted, c, calls) == Total(Returned, c, calls) + After(c, calls).ciphertext
    decreases |calls|
  {
    if calls != [] {
      var call, n := calls[0], Next(c, calls[0]);
      CallKeepsCiphertext(c, call);
      CiphertextConserved(n, calls[1..]);
      Regroup(Pending(c), Produced(c, call), Total(Produced, n, calls[1..]), Returned(c, call), Pending(n),
              Total(Returned, n, calls[1..]), Pending(After(c, calls)));
      Regroup(c.ciphertext, Emitted(c, call), Total(Emitted, n, calls[1..]), Returned(c, call), n.ciphertext,
              Total(Returned, n, calls[1..]), After(c, calls).ciphertext);
    }
  }

  lemma CallKeepsPlaintext(c: Conn, call: Call)
    requires Legal(c, call)
    ensures c.rustls.unread + Decrypted(c, call) == Delivered(c, call) + Next(c, call).rustls.unread
  {
  }

  lemma {:induction false} PlaintextConserved(c: Conn, calls: seq<Call>)
    requires Possible(c, calls)
    ensures c.rustls.unread + Total(Decrypted, c, calls) == Total(Delivered, c, calls) + After(c, calls).rustls.unread
    decreases |calls|
  {
    if calls != [] {
      var call, n := calls[0], Next(c, calls[0]);
      CallKeepsPlaintext(c, call);
      PlaintextConserved(n, calls[1..]);
      Regroup(c.rustls.unread, Decrypted(c, call), Total(Decrypted, n, calls[1..]), Delivered(c, call), n.rustls.unread,
              Total(Delivered, n, calls[1..]), After(c, calls).rustls.unread);
    }
  }

  // ---------------------------------------------------------------- draining the ciphertext

  /** A read with room for bytes in which rustls does not fail. */
  predicate Useful(call: Call) {
    call.ReadCiphertext? && call.taken.Some? && 0 < call.capacity <= ISIZE_MAX && !call.isNull
  }

  /** Readiness means exactly that such a read returns bytes; what is pending then shrinks. */
  lemma ReadyReadReturns(c: Conn, call: Call)
    requires Useful(call) && Legal(c, call)
    ensures CiphertextReady(c) <==> Returned(c, call) != []
    ensures Code(c, call) == |Returned(c, call)|
    ensures |Pending(Next(c, call))| == |Pending(c)| - |Returned(c, call)|
  {
    CallKeepsCiphertext(c, call);
  }

  /** As many such reads as there are pending bytes return all of them, in order. */
  lemma {:induction false} ReadsDrain(c: Conn, calls: seq<Call>)
    requires Possible(c, calls) && forall i :: 0 <= i < |calls| ==> Useful(calls[i])
    ensures |Total(Returned, c, calls)| >= Min(|calls|, |Pending(c)|)
    ensures Pending(c) == Total(Returned, c, calls) + Pending(After(c, calls))
    ensures |calls| >= |Pending(c)| ==> Total(Returned, c, calls) == Pending(c) && !CiphertextReady(After(c, calls))
    decreases |calls|
  {
    if calls != [] {
      var n := Next(c, calls[0]);
      ReadyReadReturns(c, calls[0]);
      CallKeepsCiphertext(c, calls[0]);
      ReadsDrain(n, calls[1..]);
      Regroup(Pending(c), [], [], Returned(c, calls[0]), Pending(n), Total(Returned, n, calls[1..]),
              Pending(After(c, calls)));
    }
  }

  // ---------------------------------------------------------------- the plaintext counter

  /** The counter is the number of unread bytes, and the flag is rustls' own. */
  predicate Exact(c: Conn) {
    c.plaintextReady == |c.rustls.unread| && c.peerClosed == c.rustls.closed
  }

  /** What holds even after failures. */
  predicate Behind(c: Conn) {
    c.plaintextReady <= |c.rustls.unread| && (c.peerClosed ==> c.rustls.closed)
  }

  /** Whether the last write of ciphertext, if any, succeeded. */
  predicate LastWriteSucceeded(calls: seq<Call>)
  {
    calls == []
    || var last := calls[|calls| - 1];
       if last.WriteCiphertext? then last.result.Some? else LastWriteSucceeded(calls[..|calls| - 1])
  }

  lemma {:induction false} RunSplit(c: Conn, calls: seq<Call>)
    requires Possible(c, calls) && calls != []
    ensures var front := calls[..|calls| - 1];
            Possible(c, front) && Legal(After(c, front), calls[|calls| - 1])
            && After(c, calls) == Next(After(c, front), calls[|calls| - 1])
    decreases |calls|
  {
    var front := calls[..|calls| - 1];
    if |calls| > 1 {
      RunSplit(Next(c, calls[0]), calls[1..]);
      assert calls[1..][..|calls| - 2] == front[1..];
    } else {
      assert calls[1..] == [] && front == [];
    }
  }

  /** On every run the counter never exceeds the unread bytes, and it is exact unless the last
      write of ciphertext failed. */
  lemma {:induction false} CounterExact(c: Conn, calls: seq<Call>)
    requires Possible(c, calls) && Exact(c)
    ensures Behind(After(c, calls))
    ensures LastWriteSucceeded(calls) ==> Exact(After(c, calls))
    decreases |calls|
  {
    if calls != [] {
      RunSplit(c, calls);
      CounterExact(c, calls[..|calls| - 1]);
    }
  }

  /** What failed writes hid since the last successful one: the bytes they decrypted, and whether
      one of them saw the close. */
  datatype Missed = Missed(bytes: seq<Byte>, close: bool)

  function MissedIn(c: Conn, call: Call, missed: Missed): Missed {
    if !call.WriteCiphertext? then missed
    else if call.result.Some? then Missed([], false)
    else Missed(missed.bytes + Decrypted(c, call), missed.close || (call.after.closed && !c.rustls.closed))
  }

  function MissedAfter(c: Conn, calls: seq<Call>, missed: Missed): Missed
    requires Possible(c, calls)
    decreases |calls|
  {
    if calls == [] then missed else MissedAfter(Next(c, calls[0]), calls[1..], MissedIn(c, calls[0], missed))
  }

  function Less(a: nat, b: nat): nat {
    if b <= a then a - b else 0
  }

  /** The counter leaves out what was missed, as far as it is still unread. */
  predicate Counted(c: Conn, missed: Missed) {
    && c.plaintextReady == Less(|c.rustls.unread|, |missed.bytes|)
    && c.peerClosed == (c.rustls.closed && !missed.close) && (missed.close ==> c.rustls.closed)
  }

  lemma CountedStep(c: Conn, call: Call, missed: Missed)
    requires Legal(c, call) && Counted(c, missed)
    ensures Counted(Next(c, call), MissedIn(c, call, missed))
  {
    CallKeepsPlaintext(c, call);
  }

  lemma {:induction false} RunCounted(c: Conn, calls: seq<Call>, missed: Missed)
    requires Possible(c, calls) && Counted(c, missed)
    ensures Counted(After(c, calls), MissedAfter(c, calls, missed))
    decreases |calls|
  {
    if calls != [] {
      CountedStep(c, calls[0], missed);
      RunCounted(Next(c, calls[0]), calls[1..], MissedIn(c, calls[0], missed));
    }
  }

  /** On every run, failures included, the counter is the number of unread bytes less those that
      failed writes decrypted since the last success; so it is exact again exactly when there were
      none or everything is read, and no failed write saw the close. */
  lemma CounterExactIff(c: Conn, calls: seq<Call>)
    requires Possible(c, calls) && Exact(c)
    ensures var z, missed := After(c, calls), MissedAfter(c, calls, Missed([], false));
            && z.plaintextReady == Less(|z.rustls.unread|, |missed.bytes|)
            && (Exact(z) <==> (missed.bytes == [] || z.rustls.unread == []) && !missed.close)
  {
    RunCounted(c, calls, Missed([], false));
  }

  /** A failed write that decrypted a byte hides it: the byte can be read and is not announced. */
  lemma FailedWriteHidesByte()
    ensures var calls := [WriteCiphertext(Rustls([], [1], true), None)];
            && Possible(New([]), calls)
            && var c := After(New([]), calls);
               !Exact(c) && !PlaintextReady(c) && Code(c, ReadPlaintext(1, false, false)) == 1
  {
    var call := WriteCiphertext(Rustls([], [1], true), None);
    assert [call][1..] == [];
    assert After(New([]), [call]) == Next(New([]), call);
  }

  /** A failed write keeps the counter exact only if rustls decrypted nothing and saw no close in it. */
  lemma FailedWriteExactIff(c: Conn, after: Rustls)
    requires Exact(c) && Receives(c.rustls, after)
    ensures Exact(Next(c, WriteCiphertext(after, None))) <==>
            after.unread == c.rustls.unread && after.closed == c.rustls.closed
  {
    if |after.unread| == |c.rustls.unread| { assert after.unread == c.rustls.unread; }
  }

  /** With an exact counter the subtraction does not saturate. */
  lemma NeverSaturates(c: Conn, calls: seq<Call>, call: Call)
    requires Possible(c, calls) && Exact(c) && LastWriteSucceeded(calls) && call.ReadPlaintext?
    ensures |Delivered(After(c, calls), call)| <= After(c, calls).plaintextReady
  {
    CounterExact(c, calls);
  }

  // ---------------------------------------------------------------- the end of the stream

  /** `SSL::read_cleartext` */
  datatype Cleartext = Data(n: nat) | Retry | PeerClosed | Throws

  function ReadCleartext(code: int): Cleartext {
    if code > 0 then Data(code) else if code == 0 then Retry else if code == -2 then PeerClosed else Throws
  }

  /** Every outcome of a plaintext read. A zero-capacity read reports close-notify even while
      decrypted bytes are unread. */
  lemma ReadOutcome(c: Conn, call: Call)
    requires call.ReadPlaintext? && call.capacity <= ISIZE_MAX && Exact(c)
    ensures ReadCleartext(Code(c, call)) ==
            if NullOutput(call.capacity, call.isNull) then Throws
            else if call.capacity > 0 && c.rustls.unread != [] then Data(|Delivered(c, call)|)
            else if c.rustls.closed then PeerClosed
            else if call.capacity > 0 && call.broken then Throws
            else Retry
    ensures ReadCleartext(Code(c, call)).Data? ==> Delivered(c, call) != []
    ensures !NullOutput(call.capacity, call.isNull) && call.capacity > 0 && !call.broken ==>
              (PlaintextReady(c) <==> ReadCleartext(Code(c, call)) != Retry)
  {
  }

  /** Close-notify hides unread bytes exactly from reads without room. */
  lemma EarlyCloseIff(c: Conn, call: Call)
    requires call.ReadPlaintext? && call.capacity <= ISIZE_MAX && Exact(c) && c.rustls.unread != []
    ensures ReadCleartext(Code(c, call)) == PeerClosed <==> call.capacity == 0 && c.rustls.closed
  {
    ReadOutcome(c, call);
  }

  /** A read without room reports close-notify while a byte is unread. */
  lemma EarlyCloseHappens()
    ensures var calls := [WriteCiphertext(Rustls([], [1], true), Some(20))];
            && Possible(New([]), calls)
            && var c := After(New([]), calls);
               c.rustls.unread == [1] && Code(c, ReadPlaintext(0, false, false)) == -2
  {
    var call := WriteCiphertext(Rustls([], [1], true), Some(20));
    assert [call][1..] == [];
    assert After(New([]), [call]) == Next(New([]), call);
  }

  lemma {:induction false} ClosedStays(c: Conn, calls: seq<Call>)
    requires Possible(c, calls) && c.rustls.closed && c.rustls.unread == []
    ensures After(c, calls).rustls.closed && After(c, calls).rustls.unread == []
    ensures Total(Decrypted, c, calls) == [] && Total(Delivered, c, calls) == []
    ensures c.peerClosed ==> After(c, calls).peerClosed
    decreases |calls|
  {
    if calls != [] {
      ClosedStays(Next(c, calls[0]), calls[1..]);
    }
  }

  /** On a run whose writes succeeded, a read with room that reports close-notify comes after every
      decrypted byte was delivered; whatever follows, failures included, neither decrypts nor
      delivers anything, and every later read that has a buffer reports close-notify again. */
  lemma CloseIsTheEnd(hello: seq<Byte>, calls: seq<Call>, call: Call, later: seq<Call>, again: Call)
    requires Possible(New(hello), calls) && LastWriteSucceeded(calls)
    requires call.ReadPlaintext? && 0 < call.capacity <= ISIZE_MAX && Code(After(New(hello), calls), call) == -2
    requires Possible(After(New(hello), calls), later) && again.ReadPlaintext? && !again.isNull
    ensures Total(Delivered, New(hello), calls) == Total(Decrypted, New(hello), calls)
    ensures Total(Decrypted, After(New(hello), calls), later) == []
            && Total(Delivered, After(New(hello), calls), later) == []
    ensures Code(After(After(New(hello), calls), later), again) == -2
  {
    var first, c := New(hello), After(New(hello), calls);
    CounterExact(first, calls);
    ReadOutcome(c, call);
    PlaintextConserved(first, calls);
    ClosedStays(c, later);
    assert Total(Delivered, first, calls) + [] == Total(Delivered, first, calls);
    assert [] + Total(Decrypted, first, calls) == Total(Decrypted, first, calls);
  }

  // ---------------------------------------------------------------- how much a read gives

  /** A ciphertext read fails exactly for a missing buffer or a failing rustls; otherwise it stops only
      at a full output or an empty queue, and asks rustls only when the queue was empty. */
  lemma ReadFills(c: Conn, call: Call)
    requires call.ReadCiphertext? && Legal(c, call) && call.capacity <= 0x7FFF_FFFF_FFFF_FFFF
    ensures var failed := || (c.ciphertext == [] && c.rustls.outgoing != [] && call.taken.None?)
                          || (call.capacity > 0 && call.isNull);
            && Code(c, call) == (if failed then -3 else |Returned(c, call)|)
            && (failed ==> Returned(c, call) == [])
            && (!failed ==>
                  || |Returned(c, call)| == call.capacity
                  || (|Returned(c, call)| < call.capacity && Next(c, call).ciphertext == []))
    ensures c.ciphertext != [] ==> Next(c, call).rustls == c.rustls
    ensures c.ciphertext == [] && c.rustls.outgoing != [] && call.taken.Some? ==>
              Next(c, call).rustls.outgoing == c.rustls.outgoing[call.taken.value..]
    ensures Next(c, call).rustls.unread == c.rustls.unread && Next(c, call).plaintextReady == c.plaintextReady
    ensures Next(c, call).peerClosed == c.peerClosed
  {
  }

  /** A plaintext read stops only at a full output or when nothing is unread; what it returns, whether
      or not the counter is exact. */
  lemma PlainReadFills(c: Conn, call: Call)
    requires call.ReadPlaintext? && call.capacity <= 0x7FFF_FFFF_FFFF_FFFF
    ensures !(call.capacity > 0 && call.isNull) ==>
              || |Delivered(c, call)| == call.capacity
              || (|Delivered(c, call)| < call.capacity && Next(c, call).rustls.unread == [])
    ensures Code(c, call) ==
            if call.capacity > 0 && call.isNull then -3
            else if Delivered(c, call) != [] then |Delivered(c, call)|
            else if (call.capacity == 0 || c.rustls.closed) && c.peerClosed then -2
            else if call.capacity > 0 && !c.rustls.closed && call.broken then -3
            else 0
    ensures Next(c, call).ciphertext == c.ciphertext && Next(c, call).rustls.outgoing == c.rustls.outgoing
    ensures Next(c, call).peerClosed == c.peerClosed
  {
  }

  /** What writes return: the count, or -3 if rustls failed; and the codes for counts that do not fit. */
  lemma WriteCodes(c: Conn, call: Call)
    requires (call.WriteCiphertext? || call.WritePlaintext?) && Legal(c, call)
    ensures Code(c, call) ==
            match call.result
            case None => -3
            case Some(n) =>
              if n <= 0x7FFF_FFFF_FFFF_FFFF then n else if n == 0xFFFF_FFFF_FFFF_FFFF then -2 else -1
    ensures Next(c, call).ciphertext == c.ciphertext
  {
  }
}
