/** Cutting the input differently makes no difference: neither to what the endpoint
    does, nor to what it keeps. */
module Chunking {
  import opened Bytes
  import opened Wire
  import opened WebSocketSpec
  import opened WebSocketFacts

  /** One `receiveData` per chunk, in order, up to the first that rejects. */
  function FeedAll(env: Env, s: Socket, chunks: seq<seq<byte>>): Outcome
    decreases |chunks|
  {
    if chunks == [] then Outcome(s, false) else
    var o := ReceiveData(env, s, chunks[0]);
    if o.rejected then o else FeedAll(env, o.socket, chunks[1..])
  }

  /** Same effects, same state, same outcome; and while the socket lives, the same input
      still waiting. */
  ghost predicate Same(a: Outcome, b: Outcome) {
    && a.rejected == b.rejected
    && a.socket.core == b.socket.core
    && (!a.rejected && a.socket.core.ready != CLOSED ==> a.socket == b.socket)
  }

  /** No call is in progress: whatever is buffered is waiting for more input. */
  ghost predicate Settled(env: Env, s: Socket) {
    match s.core.ready
    case CONNECTING => s.buffer == [] && |s.pendingInput| <= env.maxMessageBytes + 14
    case CLOSED => true
    case _ => ReadFrame(s.buffer, env.maxMessageBytes).NeedMore?
  }

  // ---------------------------------------------------------------- one call

  /** Reading `a`, then `b`, is reading `a + b`. */
  lemma {:induction false} DrainSplit(env: Env, c: Core, a: seq<byte>, b: seq<byte>)
    requires c.ready != CLOSED
    ensures var first, whole := Drain(env, c, a), Drain(env, c, a + b);
            if first.rejected || first.core.ready == CLOSED
            then whole.core == first.core && whole.rejected == first.rejected
            else whole == Drain(env, first.core, first.buffer + b)
    decreases |a|
  {
    hide ReadFrame, HandleFrame;
    var parse := ReadFrame(a, env.maxMessageBytes);
    if parse != NeedMore {
      ReadFrameStable(a, b, env.maxMessageBytes);
      if parse.Parsed? {
        ReadFrameSizes(a, env.maxMessageBytes);
        assert (a + b)[parse.size..] == a[parse.size..] + b;
        var r := HandleFrame(env, c, parse.frame);
        if !r.rejected && r.core.ready != CLOSED {
          DrainSplit(env, r.core, a[parse.size..], b);
        }
      }
    }
  }

  /** A drained buffer of a live socket waits for more input. */
  lemma {:induction false} DrainSettles(env: Env, c: Core, a: seq<byte>)
    requires c.ready != CLOSED
    ensures var r := Drain(env, c, a);
            && c.ready.Rank() <= r.core.ready.Rank()
            && (!r.rejected && r.core.ready != CLOSED ==> ReadFrame(r.buffer, env.maxMessageBytes) == NeedMore)
    decreases |a|
  {
    var parse := ReadFrame(a, env.maxMessageBytes);
    if parse.Parsed? {
      ReadFrameSizes(a, env.maxMessageBytes);
      HandleFrameQuiet(env, c, parse.frame);
      hide HandleFrame;
      var r := HandleFrame(env, c, parse.frame);
      if !r.rejected && r.core.ready != CLOSED {
        DrainSettles(env, r.core, a[parse.size..]);
      }
    }
  }

  /** Every call that does not reject leaves the socket settled. */
  lemma {:induction false} ReceiveSettles(env: Env, s: Socket, x: seq<byte>)
    requires Settled(env, s)
    ensures var o := ReceiveData(env, s, x); !o.rejected ==> Settled(env, o.socket)
  {
    if s.core.ready == OPEN || s.core.ready == CLOSING {
      DrainSettles(env, s.core, s.buffer + x);
    }
  }

  /** Two calls do what one call with both chunks does. */
  lemma {:induction false} ReceiveSplit(env: Env, s: Socket, x: seq<byte>, y: seq<byte>)
    requires Settled(env, s)
    ensures var first, whole := ReceiveData(env, s, x), ReceiveData(env, s, x + y);
            Same(whole, if first.rejected then first else ReceiveData(env, first.socket, y))
  {
    match s.core.ready
    case CONNECTING =>
      Associate(s.pendingInput, x, y);
    case CLOSED =>
    case _ =>
      DrainSplit(env, s.core, s.buffer + x, y);
      DrainSettles(env, s.core, s.buffer + x);
      Associate(s.buffer, x, y);
  }

  lemma {:induction false} ReceiveNothing(env: Env, s: Socket)
    requires Settled(env, s)
    ensures Same(ReceiveData(env, s, []), Outcome(s, false))
  {
    assert s.pendingInput + [] == s.pendingInput;
    assert s.buffer + [] == s.buffer;
  }

  // ---------------------------------------------------------------- any partition

  lemma {:induction false} FeedAllIsOneCall(env: Env, s: Socket, chunks: seq<seq<byte>>)
    requires Settled(env, s)
    ensures Same(FeedAll(env, s, chunks), ReceiveData(env, s, Flatten(chunks)))
    ensures !FeedAll(env, s, chunks).rejected ==> Settled(env, FeedAll(env, s, chunks).socket)
    decreases |chunks|
  {
    if chunks == [] {
      ReceiveNothing(env, s);
    } else {
      var o := ReceiveData(env, s, chunks[0]);
      ReceiveSplit(env, s, chunks[0], Flatten(chunks[1..]));
      ReceiveSettles(env, s, chunks[0]);
      if !o.rejected {
        FeedAllIsOneCall(env, o.socket, chunks[1..]);
      }
    }
  }

  /** Any two partitions of the same bytes deliver the same messages, write the same
      frames, report the same errors and close alike; a socket still alive afterwards
      holds the same input and the same fragments. */
  lemma {:induction false} ChunkingIrrelevant(env: Env, s: Socket, xs: seq<seq<byte>>, ys: seq<seq<byte>>)
    requires Settled(env, s) && Flatten(xs) == Flatten(ys)
    ensures Same(FeedAll(env, s, xs), FeedAll(env, s, ys))
  {
    FeedAllIsOneCall(env, s, xs);
    FeedAllIsOneCall(env, s, ys);
  }

  /** Input that arrives before the handshake completes, within the limit, has the effect
      it would have had afterwards. */
  lemma {:induction false} AcceptTransparent(env: Env, early: seq<seq<byte>>, late: seq<seq<byte>>)
    requires |Flatten(early)| <= env.maxMessageBytes + 14
    ensures
      var waiting := FeedAll(env, Fresh(), early);
      var accepted := Accept(env, waiting.socket, true);
      && !waiting.rejected && waiting.socket.core == INITIAL
      && Same(if accepted.rejected then accepted else FeedAll(env, accepted.socket, late),
              FeedAll(env, Accept(env, Fresh(), true).socket, early + late))
  {
    FeedAllIsOneCall(env, Fresh(), early);
    var open := Accept(env, Fresh(), true).socket;
    assert Settled(env, open);
    FeedAllIsOneCall(env, open, early);
    FeedAllIsOneCall(env, open, early + late);
    var pending := Flatten(early);
    assert [] + pending == pending;
    var accepted := Accept(env, FeedAll(env, Fresh(), early).socket, true);
    ReceiveNothing(env, open);
    ReceiveSettles(env, open, pending);
    FlattenAppend(early, late);
    ReceiveSplit(env, open, pending, Flatten(late));
    if !accepted.rejected {
      FeedAllIsOneCall(env, accepted.socket, late);
    }
  }
}
