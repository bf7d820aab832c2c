/** `_TermSession`: the scrollback ring, the attached socket and the parked writer. */
module TerminalRing {
  import opened Options

  type Socket = nat

  const RING_BYTES: nat := 256 * 1024

  function Flatten(chunks: seq<Bytes>): Bytes {
    if chunks == [] then [] else chunks[0] + Flatten(chunks[1..])
  }

  lemma {:induction false} FlattenAppend(chunks: seq<Bytes>, data: Bytes)
    ensures Flatten(chunks + [data]) == Flatten(chunks) + data
  {
    if chunks == [] {
      assert chunks + [data] == [data];
    } else {
      assert (chunks + [data])[1..] == chunks[1..] + [data];
      FlattenAppend(chunks[1..], data);
    }
  }

  /** Drops whole chunks from the front while the ring is too big and has more than one. */
  function Trim(chunks: seq<Bytes>): seq<Bytes> {
    if |Flatten(chunks)| > RING_BYTES && |chunks| > 1 then Trim(chunks[1..]) else chunks
  }

  ghost predicate IsSuffix(s: Bytes, of: Bytes) {
    |s| <= |of| && s == of[|of| - |s|..]
  }

  /** Trimming keeps a suffix, ends with the same chunk, and fits the bound if that chunk does. */
  lemma {:induction false} TrimKeepsSuffix(chunks: seq<Bytes>)
    requires chunks != []
    ensures Trim(chunks) != [] && Trim(chunks)[|Trim(chunks)| - 1] == chunks[|chunks| - 1]
    ensures IsSuffix(Flatten(Trim(chunks)), Flatten(chunks))
    ensures |chunks[|chunks| - 1]| <= RING_BYTES ==> |Flatten(Trim(chunks))| <= RING_BYTES
  {
    if |Flatten(chunks)| > RING_BYTES && |chunks| > 1 {
      TrimKeepsSuffix(chunks[1..]);
    } else if |chunks| == 1 {
      assert chunks[1..] == [];
    }
  }

  /** It drops no more than it must: one chunk more would not have fitted. */
  lemma {:induction false} TrimIsMaximal(chunks: seq<Bytes>)
    ensures exists k :: 0 <= k <= |chunks| && Trim(chunks) == chunks[k..] &&
              (k > 0 ==> |Flatten(chunks[k - 1..])| > RING_BYTES)
  {
    if |Flatten(chunks)| > RING_BYTES && |chunks| > 1 {
      TrimIsMaximal(chunks[1..]);
      var k :| 0 <= k <= |chunks[1..]| && Trim(chunks[1..]) == chunks[1..][k..] &&
        (k > 0 ==> |Flatten(chunks[1..][k - 1..])| > RING_BYTES);
      assert chunks[1..][k..] == chunks[k + 1..];
      assert k > 0 ==> chunks[1..][k - 1..] == chunks[k..];
      assert chunks[(k + 1) - 1..] == chunks[k..];
      assert k == 0 ==> chunks[k..] == chunks;
    } else {
      assert chunks[0..] == chunks;
    }
  }

  /** A chunk remembered after a history leaves the ring a suffix of the longer history. */
  lemma RememberKeepsSuffix(chunks: seq<Bytes>, history: Bytes, data: Bytes)
    requires IsSuffix(Flatten(chunks), history)
    ensures IsSuffix(Flatten(Trim(chunks + [data])), history + data)
  {
    FlattenAppend(chunks, data);
    TrimKeepsSuffix(chunks + [data]);
    var ring, all := Flatten(Trim(chunks + [data])), Flatten(chunks) + data;
    assert all == (history + data)[|history + data| - |all|..];
    assert ring == all[|all| - |ring|..];
  }

  /** All that `remember` needs to know of the trimmed ring. */
  lemma RememberFacts(chunks: seq<Bytes>, history: Bytes, data: Bytes)
    requires IsSuffix(Flatten(chunks), history)
    ensures |Flatten(chunks + [data])| == |Flatten(chunks)| + |data|
    ensures IsSuffix(Flatten(Trim(chunks + [data])), history + data)
    ensures |Flatten(Trim(chunks + [data]))| <= RING_BYTES || |Trim(chunks + [data])| == 1
    ensures |data| <= RING_BYTES ==> |Flatten(Trim(chunks + [data]))| <= RING_BYTES
  {
    FlattenAppend(chunks, data);
    RememberKeepsSuffix(chunks, history, data);
    TrimKeepsSuffix(chunks + [data]);
    TrimStops(chunks + [data]);
  }

  lemma {:induction false} TrimStops(chunks: seq<Bytes>)
    requires chunks != []
    ensures |Flatten(Trim(chunks))| <= RING_BYTES || |Trim(chunks)| == 1
  {
    if |Flatten(chunks)| > RING_BYTES && |chunks| > 1 {
      TrimStops(chunks[1..]);
    }
  }

  /** The loop of `remember`: whole chunks leave from the front and the size follows them. */
  method TrimRing(chunks: seq<Bytes>, bufLen: nat) returns (kept: seq<Bytes>, size: nat)
    requires chunks != [] && bufLen == |Flatten(chunks)|
    ensures kept == Trim(chunks) && size == |Flatten(kept)|
  {
    kept, size := chunks, bufLen;
    while size > RING_BYTES && |kept| > 1
      invariant kept != [] && size == |Flatten(kept)| && Trim(kept) == Trim(chunks)
      decreases |kept|
    {
      size := size - |kept[0]|;
      kept := kept[1..];
    }
  }

  /** How a parked write is woken: by the fd turning writable, or because it must give up. */
  datatype Wake = Pending | Ready | GiveUp

  class TermSession {
    var ws: Option<Socket>
    var chunks: seq<Bytes>
    var bufLen: nat
    var detachedAt: int
    var writerActive: bool
    var writerWaiter: Option<nat>
    var futures: map<nat, Wake>
    ghost var history: Bytes       // everything remembered since the session began

    ghost predicate Valid()
      reads this
    {
      && bufLen == |Flatten(chunks)|
      && IsSuffix(Flatten(chunks), history)
      && (bufLen <= RING_BYTES || |chunks| == 1)
      && (writerWaiter.Some? ==> writerWaiter.value in futures)
    }

    constructor ()
      ensures Valid() && ws == None && chunks == [] && history == [] && writerWaiter == None
    {
      ws, chunks, bufLen, detachedAt := None, [], 0, 0;
      writerActive, writerWaiter, futures, history := false, None, map[], [];
    }

    /** `remember`: the ring stays the newest whole chunks that fit, and `bufLen` their exact size. */
    method Remember(data: Bytes)
      requires Valid()
      modifies this`chunks, this`bufLen, this`history
      ensures Valid() && history == old(history) + data
      ensures chunks == Trim(old(chunks) + [data])
      ensures |data| <= RING_BYTES ==> bufLen <= RING_BYTES
    {
      RememberFacts(chunks, history, data);
      var kept, size := TrimRing(chunks + [data], bufLen + |data|);
      chunks, bufLen := kept, size;
      history := history + data;
    }

    /** `snapshot`: what a reattaching page is shown first. */
    method Snapshot() returns (snap: Bytes)
      requires Valid()
      ensures IsSuffix(snap, history) && |snap| == bufLen
    {
      snap := [];
      for i := 0 to |chunks|
        invariant snap + Flatten(chunks[i..]) == Flatten(chunks)
      {
        assert chunks[i..][0] == chunks[i] && chunks[i..][1..] == chunks[i + 1..];
        snap := snap + chunks[i];
      }
      assert chunks[|chunks|..] == [];
    }

    /** `attach`. */
    method Attach(w: Socket)
      requires Valid()
      modifies this`ws, this`detachedAt
      ensures Valid() && ws == Some(w) && detachedAt == 0
    {
      ws, detachedAt := Some(w), 0;
    }

    /** The stretch of the attach handler between two awaits: `snapshot` and `attach`. Whatever output follows,
        the snapshot and that output together are the newest bytes of the history, with no gap and no byte
        twice; nothing the ring still holds is missing. */
    method Reattach(w: Socket) returns (snap: Bytes)
      requires Valid()
      modifies this`ws, this`detachedAt
      ensures Valid() && ws == Some(w) && detachedAt == 0
      ensures IsSuffix(snap, history) && |snap| == bufLen
      ensures forall later: Bytes :: IsSuffix(snap + later, history + later)
    {
      snap := Snapshot();
      Attach(w);
      forall later: Bytes ensures IsSuffix(snap + later, history + later) {
        assert (history + later)[|history| - |snap|..] == history[|history| - |snap|..] + later;
      }
    }

    /** `_remove_writer`: no registration is left, and whoever was parked on it is woken. */
    method RemoveWriter(wake: Wake)
      requires Valid() && !wake.Pending?
      modifies this`writerActive, this`writerWaiter, this`futures
      ensures Valid() && !writerActive && writerWaiter == None && futures.Keys == old(futures.Keys)
      ensures forall f :: f in futures ==>
                (futures[f] == (if old(writerWaiter) == Some(f) && old(futures)[f].Pending? then wake
                                else old(futures)[f]))
    {
      writerActive := false;
      var waiter := writerWaiter;
      writerWaiter := None;
      if waiter.Some? && futures[waiter.value].Pending? {
        futures := futures[waiter.value := wake];
      }
    }

    /** `detach`: only the socket that is attached is let go, and its parked writer must give up. */
    method Detach(w: Socket, now: int)
      requires Valid()
      modifies this`ws, this`detachedAt, this`writerActive, this`writerWaiter, this`futures
      ensures Valid()
      ensures old(ws) != Some(w) ==> ws == old(ws) && writerWaiter == old(writerWaiter)
      ensures old(ws) == Some(w) ==> ws == None && detachedAt == now && writerWaiter == None
      ensures futures.Keys == old(futures.Keys)
      ensures forall f :: f in futures ==>
                (futures[f] == (if old(ws) == Some(w) && old(writerWaiter) == Some(f) && old(futures)[f].Pending?
                                then GiveUp else old(futures)[f]))
    {
      if ws == Some(w) {
        ws, detachedAt := None, now;
        RemoveWriter(GiveUp);
      }
    }
  }
}
