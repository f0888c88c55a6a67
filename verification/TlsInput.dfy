/** The per-connection TLS input buffer of server.c: bytes read from the socket
    wait here until the TLS library takes them. */
module TlsInput {
  import opened Options

  const TLS_IN_BUF_SIZE: nat := 16896

  /** The buffer, with the bytes accepted and consumed since it was set up. */
  class TlsBuffer {
    const buf: array<Octet>
    var len: nat
    var pos: nat
    ghost var accepted: seq<Octet>
    ghost var consumed: seq<Octet>

    ghost predicate Valid()
      reads this, buf
    {
      && buf.Length == TLS_IN_BUF_SIZE
      && pos <= len <= TLS_IN_BUF_SIZE
      && consumed + buf[pos..len] == accepted
    }

    /** What is read but not yet taken. */
    ghost function Window(): seq<Octet>
      requires Valid()
      reads this, buf
    {
      buf[pos..len]
    }

    /** The queue this buffer stands for. */
    ghost function View(): Queue
      requires Valid()
      reads this, buf
    {
      Queue(Window(), consumed)
    }

    constructor ()
      ensures Valid() && fresh(buf) && Window() == accepted == consumed == []
    {
      buf := new Octet[TLS_IN_BUF_SIZE](_ => 0);
      len, pos := 0, 0;
      accepted, consumed := [], [];
    }

    /** conn_init_tls: a new TLS layer starts with an empty buffer. */
    method Reset()
      requires Valid()
      modifies this
      ensures Valid() && Window() == accepted == consumed == []
    {
      len, pos := 0, 0;
      accepted, consumed := [], [];
    }

    /** memmove of the unread bytes to the front. */
    method Compact()
      requires Valid()
      modifies this`len, this`pos, buf
      ensures Valid() && pos == 0 && Window() == old(Window())
      ensures accepted == old(accepted) && consumed == old(consumed)
    {
      if pos > 0 {
        var rem := len - pos;
        ghost var window := buf[pos..len];
        var k := 0;
        while k < rem
          invariant k <= rem
          invariant forall m :: 0 <= m < k ==> buf[m] == window[m]
          invariant forall m :: pos + k <= m < len ==> buf[m] == window[m - pos]
          modifies buf
        {
          buf[k] := buf[pos + k];
          k := k + 1;
        }
        assert buf[0..rem] == window;
        len := rem;
        pos := 0;
      }
    }

    /** The start of the TLS path of read_cb: compact, then append; false is the
        overflow that closes the connection. */
    method Accept(data: seq<Octet>) returns (ok: bool)
      requires Valid()
      modifies this, buf
      ensures Valid() && consumed == old(consumed)
      ensures ok <==> |old(Window())| + |data| <= 16896
      ensures View() == QueueStep(old(View()), Arrive(data))
      ensures accepted == old(accepted) + if ok then data else []
    {
      Compact();
      if len + |data| > TLS_IN_BUF_SIZE {
        return false;
      }
      ghost var window := buf[pos..len];
      var k := 0;
      while k < |data|
        invariant k <= |data| && pos == 0 && len + |data| <= buf.Length
        invariant buf[0..len] == window && buf[len..len + k] == data[..k]
        modifies buf
      {
        buf[len + k] := data[k];
        k := k + 1;
      }
      len := len + |data|;
      accepted := accepted + data;
      assert buf[pos..len] == window + data;
      assert consumed + (window + data) == (consumed + window) + data;
      return true;
    }

    /** bio_recv: at most `max` bytes from the front; None is WANT_READ. */
    method Receive(max: nat) returns (r: Option<seq<Octet>>)
      requires Valid()
      modifies this`pos, this`consumed
      ensures Valid() && accepted == old(accepted)
      ensures r.None? <==> old(Window()) == []
      ensures View() == QueueStep(old(View()), Take(max))
      ensures r.Some? ==> old(View()).taken + r.value == View().taken
    {
      var avail := len - pos;
      if avail == 0 {
        assert consumed + [] == consumed;
        return None;
      }
      var n := if avail < max then avail else max;
      ghost var window := buf[pos..len];
      r := Some(buf[pos..pos + n]);
      pos := pos + n;
      consumed := consumed + r.value;
      assert r.value == window[..n] && buf[pos..len] == window[n..];
      assert consumed + buf[pos..len] == old(consumed) + (r.value + buf[pos..len]);
    }
  }

  // ------------------------------------------------------------------- runs

  datatype Op = Arrive(data: seq<Octet>) | Take(max: nat)

  datatype Queue = Queue(pending: seq<Octet>, taken: seq<Octet>)

  /** The queue the buffer stands for, operation by operation. */
  function QueueStep(q: Queue, op: Op): Queue {
    match op
    case Arrive(data) => if |q.pending| + |data| <= TLS_IN_BUF_SIZE then q.(pending := q.pending + data) else q
    case Take(max) =>
      var n := if |q.pending| < max then |q.pending| else max;
      Queue(q.pending[n..], q.taken + q.pending[..n])
  }

  ghost function RunQueue(ops: seq<Op>): Queue {
    if ops == [] then Queue([], []) else QueueStep(RunQueue(ops[..|ops| - 1]), ops[|ops| - 1])
  }

  /** The bytes of the arrivals that fitted. */
  ghost function Arrived(ops: seq<Op>): seq<Octet> {
    if ops == [] then [] else
      var front, op := ops[..|ops| - 1], ops[|ops| - 1];
      Arrived(front)
      + if op.Arrive? && |RunQueue(front).pending| + |op.data| <= TLS_IN_BUF_SIZE then op.data else []
  }

  /** A lossless FIFO over any mix of arrivals and partial takes: what was taken
      followed by what waits is exactly what arrived, in order, and never more
      than the buffer waits. */
  lemma {:induction false} RunIsLossless(ops: seq<Op>)
    ensures var q := RunQueue(ops); q.taken + q.pending == Arrived(ops) && |q.pending| <= TLS_IN_BUF_SIZE
  {
    if ops != [] {
      var front, op := ops[..|ops| - 1], ops[|ops| - 1];
      RunIsLossless(front);
      var q, q' := RunQueue(front), RunQueue(ops);
      match op
      case Arrive(data) =>
        assert q.taken + (q.pending + data) == (q.taken + q.pending) + data;
      case Take(max) =>
        var n := if |q.pending| < max then |q.pending| else max;
        assert q.pending[..n] + q.pending[n..] == q.pending;
        assert q'.taken + q'.pending == q.taken + (q.pending[..n] + q.pending[n..]);
    }
  }
}
