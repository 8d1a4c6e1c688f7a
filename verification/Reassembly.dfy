/** Fragmentation, section 5.4 of RFC 6455: what the handler sees of a client that sends
    whole messages in any number of frames with control frames in between. */
module Reassembly {
  import opened Bytes
  import opened Wire
  import opened WebSocketSpec
  import opened WebSocketFacts

  // ---------------------------------------------------------------- what a client may send

  /** A message and how the client cut it. */
  datatype Message = Message(text: bool, parts: seq<seq<byte>>) {
    ghost predicate Valid(limit: nat) {
      parts != [] && TotalLength(parts) <= limit
    }

    function Opcode(): nat {
      if text then 0x1 else 0x2
    }

    /** Section 5.4: the opcode on the first frame, FIN on the last. */
    function Frame(i: nat): Frame
      requires i < |parts|
    {
      Wire.Frame.Frame(i == |parts| - 1, if i == 0 then Opcode() else 0, parts[i])
    }

    function FramesFrom(i: nat): (frames: seq<Frame>)
      requires i <= |parts|
      ensures |frames| == |parts| - i
      decreases |parts| - i
    {
      if i == |parts| then [] else [Frame(i)] + FramesFrom(i + 1)
    }
  }

  function FramesOf(messages: seq<Message>): seq<Frame> {
    if messages == [] then [] else messages[0].FramesFrom(0) + FramesOf(messages[1..])
  }

  function DataFrames(frames: seq<Frame>): seq<Frame> {
    if frames == [] then []
    else (if frames[0].opcode < 8 then [frames[0]] else []) + DataFrames(frames[1..])
  }

  /** Any frame a client may send short of a Close. */
  ghost predicate Legal(f: Frame, limit: nat) {
    && |f.payload| <= limit
    && (f.opcode < 8 || (f.opcode in {0x9, 0xa} && f.fin && |f.payload| <= 125))
  }

  ghost predicate AllLegal(frames: seq<Frame>, limit: nat) {
    forall i | 0 <= i < |frames| :: Legal(frames[i], limit)
  }

  ghost predicate AllValid(messages: seq<Message>, limit: nat) {
    forall i | 0 <= i < |messages| :: messages[i].Valid(limit)
  }

  /** Masking keys, one for each of `n` frames. */
  ghost predicate Keys(keys: seq<seq<byte>>, n: nat) {
    |keys| == n && forall i | 0 <= i < n :: |keys[i]| == 4
  }

  /** What the application should see: whole messages, except text that is not text. */
  function Expected(messages: seq<Message>, utf8: seq<byte> -> bool): seq<(bool, seq<byte>)> {
    if messages == [] then [] else
    var whole := (messages[0].text, Flatten(messages[0].parts));
    (if whole.0 && !utf8(whole.1) then [] else [whole]) + Expected(messages[1..], utf8)
  }

  function Pings(frames: seq<Frame>): seq<seq<byte>> {
    if frames == [] then []
    else (if frames[0].opcode == 0x9 then [frames[0].payload] else []) + Pings(frames[1..])
  }

  // ---------------------------------------------------------------- what the endpoint did

  /** Frames handed to the endpoint one by one, until one rejects or closes it. */
  function HandleAll(env: Env, c: Core, frames: seq<Frame>): Result
    decreases |frames|
  {
    if frames == [] then Result(c, false) else
    var r := HandleFrame(env, c, frames[0]);
    if r.rejected || r.core.ready == CLOSED then r else HandleAll(env, r.core, frames[1..])
  }

  // ---------------------------------------------------------------- the loop reads frames

  function ClientLayout(frames: seq<Frame>, keys: seq<seq<byte>>): seq<byte>
    requires Keys(keys, |frames|)
    requires forall i | 0 <= i < |frames| :: frames[i].opcode < 16 && |frames[i].payload| <= MAX_SAFE_INTEGER
  {
    if frames == [] then []
    else Layout(RawFrame(frames[0].fin, 0, frames[0].opcode, Some(keys[0]), frames[0].payload))
         + ClientLayout(frames[1..], keys[1..])
  }

  /** On the wire form of legal frames, under any keys, the read loop is `HandleAll`. */
  lemma {:induction false} DrainHandlesFrames(env: Env, c: Core, frames: seq<Frame>, keys: seq<seq<byte>>)
    requires ValidEnv(env) && c.ready != CLOSED && Keys(keys, |frames|)
    requires AllLegal(frames, env.maxMessageBytes)
    ensures var r, h := Drain(env, c, ClientLayout(frames, keys)), HandleAll(env, c, frames);
            && r.core == h.core && r.rejected == h.rejected
            && (!r.rejected && r.core.ready != CLOSED ==> r.buffer == [])
    decreases |frames|
  {
    if frames != [] {
      var f, rest := frames[0], ClientLayout(frames[1..], keys[1..]);
      ClientFrameRoundTrip(f, keys[0], rest, env.maxMessageBytes);
      var wire := Layout(RawFrame(f.fin, 0, f.opcode, Some(keys[0]), f.payload));
      assert (wire + rest)[|wire|..] == rest;
      var r := HandleFrame(env, c, f);
      if !r.rejected && r.core.ready != CLOSED {
        DrainHandlesFrames(env, r.core, frames[1..], keys[1..]);
      }
    }
  }

  // ---------------------------------------------------------------- what one frame adds

  /** Between frames: the open message, if any, and how many of its parts have come. */
  ghost predicate MidMessage(c: Core, m: Message, seen: nat) {
    && seen < |m.parts|
    && c.fragments == m.parts[..seen]
    && c.fragmentOpcode == (if seen == 0 then 0 else m.Opcode())
    && c.fragmentBytes == TotalLength(m.parts[..seen])
  }

  ghost predicate Idle(c: Core) {
    c.fragments == [] && c.fragmentOpcode == 0 && c.fragmentBytes == 0
  }

  /** What reassembly decides about the next part: to keep it, or that the message is whole. */
  lemma {:induction false} PartDispatched(c: Core, m: Message, seen: nat, limit: nat)
    requires MidMessage(c, m, seen) && m.Valid(limit)
    ensures var (c1, next) := Dispatch(c, m.Frame(seen), limit);
            if seen + 1 < |m.parts| then next == Nothing && MidMessage(c1, m, seen + 1)
            else next == Deliver(m.text, Flatten(m.parts)) && Idle(c1)
  {
    hide Flatten, TotalLength;
    var f := m.Frame(seen);
    FlattenPrefix(m.parts, seen);
    assert m.parts[..seen + 1] == m.parts[..seen] + [m.parts[seen]];
    assert c.fragmentBytes + |f.payload| <= limit && (f.opcode == 0) == (c.fragmentOpcode != 0);
    if seen + 1 == |m.parts| {
      assert m.parts[..seen + 1] == m.parts;
      assert Dispatch(c, f, limit).1 == Deliver(m.text, Flatten(c.fragments + [f.payload]));
    }
  }

  /** The next part of the open message is kept, or completes it. */
  lemma {:induction false} NextPart(env: Env, c: Core, m: Message, seen: nat)
    requires MidMessage(c, m, seen) && m.Valid(env.maxMessageBytes) && c.ready != CLOSED
    ensures var c' := HandleFrame(env, c, m.Frame(seen)).core;
            && c'.ready != CLOSED && Pongs(c'.log) == Pongs(c.log)
            && if seen + 1 < |m.parts| then MidMessage(c', m, seen + 1) && Deliveries(c'.log) == Deliveries(c.log)
               else Idle(c') && Deliveries(c'.log) == Deliveries(c.log) + Expected([m], env.utf8)
  {
    hide HandleFrame, Deliveries, Pongs, Dispatch, Expected, Flatten, TotalLength;
    HandleFrameQuiet(env, c, m.Frame(seen));
    PartDispatched(c, m, seen, env.maxMessageBytes);
    ExpectedOne(m, env.utf8);
    var pongs, deliveries := Pongs(c.log), Deliveries(c.log);
    assert pongs + [] == pongs && deliveries + [] == deliveries;
  }

  lemma {:induction false} ExpectedOne(m: Message, utf8: seq<byte> -> bool)
    ensures Expected([m], utf8) == if m.text && !utf8(Flatten(m.parts)) then [] else [(m.text, Flatten(m.parts))]
  {
    assert [m][1..] == [] && Expected([], utf8) == [];
    var first := if m.text && !utf8(Flatten(m.parts)) then [] else [(m.text, Flatten(m.parts))];
    assert first + [] == first;
  }

  /** What is still to come when `seen` parts of the first message have been read. */
  function Remaining(messages: seq<Message>, seen: nat): seq<Frame>
    requires if messages == [] then seen == 0 else seen <= |messages[0].parts|
  {
    if messages == [] then [] else messages[0].FramesFrom(seen) + FramesOf(messages[1..])
  }

  ghost predicate Between(c: Core, messages: seq<Message>, seen: nat) {
    && c.ready != CLOSED
    && if messages == [] then seen == 0 && Idle(c)
       else MidMessage(c, messages[0], seen)
  }

  /** The message position after one more part. */
  function Advance(messages: seq<Message>, seen: nat): (seq<Message>, nat)
    requires messages != [] && seen < |messages[0].parts|
  {
    if seen + 1 < |messages[0].parts| then (messages, seen + 1) else (messages[1..], 0)
  }

  lemma {:induction false} RemainingUnfolds(messages: seq<Message>, seen: nat)
    requires messages != [] && seen < |messages[0].parts|
    ensures var (messages', seen') := Advance(messages, seen);
            Remaining(messages, seen) == [messages[0].Frame(seen)] + Remaining(messages', seen')
  {
    var rest := if messages[1..] == [] then [] else messages[1..][0].FramesFrom(0) + FramesOf(messages[1..][1..]);
    Associate([messages[0].Frame(seen)], messages[0].FramesFrom(seen + 1), FramesOf(messages[1..]));
    assert seen + 1 == |messages[0].parts| ==> messages[0].FramesFrom(seen) == [messages[0].Frame(seen)];
    assert FramesOf(messages[1..]) == rest;
  }

  lemma {:induction false} ExpectedUnfolds(messages: seq<Message>, utf8: seq<byte> -> bool)
    requires messages != []
    ensures Expected(messages, utf8) == Expected([messages[0]], utf8) + Expected(messages[1..], utf8)
  {
    var m := messages[0];
    assert [m][1..] == [];
    var first := if m.text && !utf8(Flatten(m.parts)) then [] else [(m.text, Flatten(m.parts))];
    assert Expected([m], utf8) == first + [] == first;
  }

  lemma {:induction false} DispatchControl(c: Core, f: Frame, limit: nat)
    requires Legal(f, limit) && f.opcode >= 8
    ensures Dispatch(c, f, limit) == (c, if f.opcode == 0x9 then SendPong(f.payload) else Nothing)
  {
  }

  lemma {:induction false} ControlStep(env: Env, c: Core, frames: seq<Frame>)
    requires frames != [] && Legal(frames[0], env.maxMessageBytes) && frames[0].opcode >= 8 && c.ready != CLOSED
    ensures var c' := HandleFrame(env, c, frames[0]).core;
            && c'.ready != CLOSED && SameFragments(c, c') && Deliveries(c'.log) == Deliveries(c.log)
            && Pongs(c'.log) + Pings(frames[1..]) == Pongs(c.log) + Pings(frames)
            && DataFrames(frames[1..]) == DataFrames(frames)
  {
    hide HandleFrame, Deliveries, Pongs, Dispatch;
    HandleFrameQuiet(env, c, frames[0]);
    DispatchControl(c, frames[0], env.maxMessageBytes);
    assert DataFrames(frames) == [] + DataFrames(frames[1..]);
    var own := if frames[0].opcode == 0x9 then [frames[0].payload] else [];
    Associate(Pongs(c.log), own, Pings(frames[1..]));
  }

  lemma {:induction false} DataStep(env: Env, c: Core, messages: seq<Message>, seen: nat)
    requires messages != [] && AllValid(messages, env.maxMessageBytes) && Between(c, messages, seen)
    ensures var c', (messages', seen') := HandleFrame(env, c, messages[0].Frame(seen)).core, Advance(messages, seen);
            && Between(c', messages', seen') && AllValid(messages', env.maxMessageBytes)
            && Deliveries(c'.log) + Expected(messages', env.utf8) == Deliveries(c.log) + Expected(messages, env.utf8)
            && Pongs(c'.log) == Pongs(c.log)
  {
    hide HandleFrame, Deliveries, Pongs, Flatten, TotalLength;
    NextPart(env, c, messages[0], seen);
    ExpectedUnfolds(messages, env.utf8);
    hide Expected;
    Associate(Deliveries(c.log), Expected([messages[0]], env.utf8), Expected(messages[1..], env.utf8));
    if seen + 1 == |messages[0].parts| && messages[1..] != [] {
      assert messages[1..][0] == messages[1] && messages[1].Valid(env.maxMessageBytes);
      EmptyPrefix(messages[1].parts);
    }
  }

  lemma {:induction false} EmptyPrefix(parts: seq<seq<byte>>)
    ensures parts[..0] == [] && TotalLength(parts[..0]) == 0
  {
  }

  lemma {:induction false} ValidFrom(messages: seq<Message>, k: nat, limit: nat)
    requires AllValid(messages, limit) && k <= |messages|
    ensures AllValid(messages[k..], limit)
  {
  }

  /** What handling some of the frames still to come leaves: a position further on in the
      messages, everything before it delivered. When no frame rejects, all were handled. */
  lemma {:induction false} Assembles(env: Env, c: Core, frames: seq<Frame>, all: seq<Message>, k: nat, seen: nat)
    returns (k': nat, seen': nat)
    requires AllLegal(frames, env.maxMessageBytes)
    requires AllValid(all, env.maxMessageBytes) && k <= |all|
    requires Between(c, all[k..], seen) && DataFrames(frames) <= Remaining(all[k..], seen)
    ensures var r := HandleAll(env, c, frames);
            && k <= k' <= |all| && Between(r.core, all[k'..], seen')
            && Deliveries(r.core.log) + Expected(all[k'..], env.utf8)
               == Deliveries(c.log) + Expected(all[k..], env.utf8)
            && |Remaining(all[k..], seen)| <= |Remaining(all[k'..], seen')| + |DataFrames(frames)|
            && (!r.rejected ==> Remaining(all[k..], seen) == DataFrames(frames) + Remaining(all[k'..], seen'))
            && (!r.rejected ==> Pongs(r.core.log) == Pongs(c.log) + Pings(frames))
    decreases |frames|
  {
    hide HandleFrame, Deliveries, Pongs;
    if frames == [] {
      k', seen' := k, seen;
      assert [] + Remaining(all[k..], seen) == Remaining(all[k..], seen);
    } else {
      var r := HandleFrame(env, c, frames[0]);
      var k1, seen1 := k, seen;
      if frames[0].opcode >= 8 {
        ControlStep(env, c, frames);
      } else {
        ValidFrom(all, k, env.maxMessageBytes);
        DataIsToCome(frames, all, k, c, seen);
        FramesStep(frames, all, k, seen);
        PartStep(env, c, all, k, seen);
        k1, seen1 := Next(all, k, seen).0, Next(all, k, seen).1;
      }
      if r.rejected {
        k', seen' := k1, seen1;
      } else {
        hide Remaining, DataFrames, Expected, Pings, Between, Next;
        k', seen' := Assembles(env, r.core, frames[1..], all, k1, seen1);
        if frames[0].opcode < 8 {
          Associate([frames[0]], DataFrames(frames[1..]), Remaining(all[k'..], seen'));
        }
      }
    }
  }

  /** The position after one more part. */
  function Next(all: seq<Message>, k: nat, seen: nat): (nat, nat)
    requires k < |all|
  {
    if seen + 1 < |all[k].parts| then (k, seen + 1) else (k + 1, 0)
  }

  lemma {:induction false} NextIsAdvance(all: seq<Message>, k: nat, seen: nat)
    requires k < |all| && seen < |all[k].parts|
    ensures var (k1, seen1) := Next(all, k, seen); Advance(all[k..], seen) == (all[k1..], seen1)
    ensures all[k..][0] == all[k]
  {
    assert all[k + 1..] == all[k..][1..];
  }

  /** One data frame, by position: the frames still to come. */
  lemma {:induction false} FramesStep(frames: seq<Frame>, all: seq<Message>, k: nat, seen: nat)
    requires frames != [] && frames[0].opcode < 8 && k < |all| && seen < |all[k].parts|
    requires DataFrames(frames) <= Remaining(all[k..], seen)
    ensures var (k1, seen1) := Next(all, k, seen);
            && (all[k1..] != [] ==> |all[k1..][0].parts| >= seen1)
            && (all[k1..] == [] ==> seen1 == 0)
            && frames[0] == all[k].Frame(seen)
            && Remaining(all[k..], seen) == [frames[0]] + Remaining(all[k1..], seen1)
            && DataFrames(frames) == [frames[0]] + DataFrames(frames[1..])
            && DataFrames(frames[1..]) <= Remaining(all[k1..], seen1)
    ensures Pings(frames) == Pings(frames[1..])
  {
    NextIsAdvance(all, k, seen);
    RemainingUnfolds(all[k..], seen);
    assert DataFrames(frames) == [frames[0]] + DataFrames(frames[1..]);
    assert Pings(frames) == [] + Pings(frames[1..]);
    var (k1, seen1) := Next(all, k, seen);
    hide Remaining, DataFrames, Pings, Advance, Next;
    PrefixTail(frames[0], DataFrames(frames[1..]), all[k].Frame(seen), Remaining(all[k1..], seen1));
  }

  /** And what handling it leaves. */
  lemma {:induction false} PartStep(env: Env, c: Core, all: seq<Message>, k: nat, seen: nat)
    requires k < |all| && AllValid(all[k..], env.maxMessageBytes) && Between(c, all[k..], seen)
    ensures seen < |all[k].parts|
    ensures var c', (k1, seen1) := HandleFrame(env, c, all[k].Frame(seen)).core, Next(all, k, seen);
            && Between(c', all[k1..], seen1)
            && Deliveries(c'.log) + Expected(all[k1..], env.utf8) == Deliveries(c.log) + Expected(all[k..], env.utf8)
            && Pongs(c'.log) == Pongs(c.log)
  {
    hide HandleFrame, Deliveries, Pongs, AllValid, Expected, Advance, Next;
    NextIsAdvance(all, k, seen);
    DataStep(env, c, all[k..], seen);
    hide Between;
  }

  lemma {:induction false} DataIsToCome(frames: seq<Frame>, all: seq<Message>, k: nat, c: Core, seen: nat)
    requires frames != [] && frames[0].opcode < 8 && k <= |all| && Between(c, all[k..], seen)
    requires DataFrames(frames) <= Remaining(all[k..], seen)
    ensures k < |all| && seen < |all[k].parts|
  {
  }

  lemma {:induction false} PrefixTail<T>(x: T, xs: seq<T>, y: T, ys: seq<T>)
    requires [x] + xs <= [y] + ys
    ensures x == y && xs <= ys
  {
    assert ([x] + xs)[0] == ([y] + ys)[0];
    assert ([x] + xs)[1..] == xs && ([y] + ys)[1..] == ys;
  }

  lemma {:induction false} FramesAppend(messages: seq<Message>, last: Message)
    ensures FramesOf(messages + [last]) == FramesOf(messages) + last.FramesFrom(0)
  {
    if messages == [] {
      assert [] + [last] == [last] && [last][1..] == [];
      assert last.FramesFrom(0) + [] == last.FramesFrom(0) == [] + last.FramesFrom(0);
    } else {
      FramesAppend(messages[1..], last);
      assert (messages + [last])[1..] == messages[1..] + [last];
      Associate(messages[0].FramesFrom(0), FramesOf(messages[1..]), last.FramesFrom(0));
    }
  }

  lemma {:induction false} ExpectedSplits(xs: seq<Message>, ys: seq<Message>, utf8: seq<byte> -> bool)
    ensures Expected(xs + ys, utf8) == Expected(xs, utf8) + Expected(ys, utf8)
  {
    if xs == [] {
      assert xs + ys == ys;
    } else {
      ExpectedSplits(xs[1..], ys, utf8);
      assert (xs + ys)[1..] == xs[1..] + ys;
      var whole := (xs[0].text, Flatten(xs[0].parts));
      var own := if whole.0 && !utf8(whole.1) then [] else [whole];
      Associate(own, Expected(xs[1..], utf8), Expected(ys, utf8));
    }
  }

  lemma {:induction false} RemainingLength(messages: seq<Message>, open: Message, k: nat, seen: nat)
    requires k <= |messages| + 1
    requires var rest := (messages + [open])[k..]; if rest == [] then seen == 0 else seen < |rest[0].parts|
    ensures var n := |Remaining((messages + [open])[k..], seen)|;
            if k < |messages| then n > |open.parts|
            else if k == |messages| then n == |open.parts| - seen else n == 0
  {
    var all := messages + [open];
    if k < |messages| {
      var rest := messages[k + 1..];
      assert all[k..][1..] == rest + [open];
      FramesAppend(rest, open);
    } else if k == |messages| {
      assert all[k..] == [open] && [open][1..] == [];
    }
  }

  /** The same about the frames themselves, handled one after another. */
  lemma {:induction false} HandledMessages(env: Env, c: Core, messages: seq<Message>, open: Message, seen: nat,
                                           frames: seq<Frame>) returns (k: nat)
    requires c.ready == OPEN || c.ready == CLOSING
    requires Idle(c)
    requires AllValid(messages, env.maxMessageBytes) && open.Valid(env.maxMessageBytes) && seen < |open.parts|
    requires AllLegal(frames, env.maxMessageBytes)
    requires DataFrames(frames) == FramesOf(messages) + open.FramesFrom(0)[..seen]
    ensures var r := HandleAll(env, c, frames);
            && r.core.ready != CLOSED && k <= |messages|
            && Deliveries(r.core.log) == Deliveries(c.log) + Expected(messages[..k], env.utf8)
            && (!r.rejected ==>
                  && k == |messages| && r.core.fragments == open.parts[..seen]
                  && Pongs(r.core.log) == Pongs(c.log) + Pings(frames))
  {
    var all := messages + [open];
    FramesAppend(messages, open);
    StartsBetween(c, all);
    assert FramesOf(all) == Remaining(all, 0) && all[0..] == all;
    var at;
    k, at := Assembles(env, c, frames, all, 0, 0);
    var r := HandleAll(env, c, frames);
    assert Between(r.core, all[k..], at);
    PositionIsUnique(messages, open, seen, frames, k, at, r.rejected);
    assert all == all[..k] + all[k..] && all[..k] == messages[..k];
    ExpectedSplits(all[..k], all[k..], env.utf8);
    CancelSuffix(Deliveries(r.core.log), Deliveries(c.log), Expected(all[..k], env.utf8), Expected(all[k..], env.utf8));
    if !r.rejected {
      assert all[k..] == [open] && messages[..k] == messages;
    }
  }

  // ---------------------------------------------------------------- the theorems

  /** Section 5.4: a client that sends whole messages and part of one more, fragmented and
      interleaved with pings and pongs as it likes and under any keys, has exactly the whole
      ones delivered, in order, and every ping answered; the parts of the open message are
      kept and nothing else is left over. When the transport refuses a write, what was
      delivered is still the first of those messages, in order. */
  lemma {:induction false} ReassemblyRefinesMessages(env: Env, c: Core, messages: seq<Message>, open: Message,
                                                     seen: nat,
                                                     frames: seq<Frame>, keys: seq<seq<byte>>) returns (k: nat)
    requires ValidEnv(env) && (c.ready == OPEN || c.ready == CLOSING)
    requires Idle(c)
    requires AllValid(messages, env.maxMessageBytes) && open.Valid(env.maxMessageBytes) && seen < |open.parts|
    requires AllLegal(frames, env.maxMessageBytes)
    requires DataFrames(frames) == FramesOf(messages) + open.FramesFrom(0)[..seen]
    requires Keys(keys, |frames|)
    ensures var r := Drain(env, c, ClientLayout(frames, keys));
            && r.core.ready != CLOSED && k <= |messages|
            && Deliveries(r.core.log) == Deliveries(c.log) + Expected(messages[..k], env.utf8)
            && (!r.rejected ==>
                  && k == |messages| && r.buffer == [] && r.core.fragments == open.parts[..seen]
                  && Pongs(r.core.log) == Pongs(c.log) + Pings(frames))
  {
    DrainHandlesFrames(env, c, frames, keys);
    k := HandledMessages(env, c, messages, open, seen, frames);
    hide Drain, HandleAll, Deliveries, Pongs, ClientLayout;
  }

  lemma {:induction false} StartsBetween(c: Core, all: seq<Message>)
    requires c.ready != CLOSED && all != [] && all[0].parts != []
    requires Idle(c)
    ensures Between(c, all[0..], 0)
  {
    EmptyPrefix(all[0].parts);
  }

  lemma {:induction false} PositionIsUnique(messages: seq<Message>, open: Message, seen: nat, frames: seq<Frame>,
                                            k: nat, at: nat, rejected: bool)
    requires seen < |open.parts| && k <= |messages| + 1
    requires DataFrames(frames) == FramesOf(messages) + open.FramesFrom(0)[..seen]
    requires var rest := (messages + [open])[k..]; if rest == [] then at == 0 else at < |rest[0].parts|
    requires var all := messages + [open];
             && |FramesOf(all)| <= |Remaining(all[k..], at)| + |DataFrames(frames)|
             && (!rejected ==> FramesOf(all) == DataFrames(frames) + Remaining(all[k..], at))
    ensures k <= |messages|
    ensures !rejected ==> k == |messages| && at == seen
  {
    FramesAppend(messages, open);
    RemainingLength(messages, open, k, at);
    hide Remaining, FramesOf, DataFrames;
  }

  lemma {:induction false} CancelSuffix<T>(a: seq<T>, b: seq<T>, c: seq<T>, d: seq<T>)
    requires a + d == b + (c + d)
    ensures a == b + c
  {
    assert |a| == |b + c|;
    assert (a + d)[..|a|] == a && (b + (c + d))[..|a|] == b + c;
  }

  /** A continuation with nothing to continue, or a new message inside another, ends the
      socket, whatever the transport does. */
  lemma {:induction false} MisplacedFrameCloses(env: Env, c: Core, f: Frame)
    requires f.opcode in {0, 0x1, 0x2}
    requires (f.opcode == 0) == (c.fragmentOpcode == 0)
    requires c.ready != CLOSED
    ensures var r := HandleFrame(env, c, f);
            && !r.rejected && r.core.ready == CLOSED
            && r.core.log != [] && r.core.log[|r.core.log| - 1] == Closed(1006, [])
            && Deliveries(r.core.log) == Deliveries(c.log)
  {
    hide HandleFrame, ProtocolFailure, Deliveries;
    HandleFrameQuiet(env, c, f);
    var cause := if f.opcode == 0 then UnexpectedContinuation else IncompleteMessage;
    FailureCloses(env, c, cause, 1002);
  }
}
