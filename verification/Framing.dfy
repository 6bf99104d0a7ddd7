/** Multipart messages on the wire and the broker's forwarding loop (zmqmsg.cc, judgeserver.cc). */
module Framing {
  import opened Sequences

  /** One part as a socket carries it, with its MORE flag. */
  datatype Part<T> = Part(data: T, more: bool)

  /** The two directions of a socket. */
  class Socket<T> {
    var incoming: seq<Part<T>>
    var outgoing: seq<Part<T>>

    constructor ()
      ensures incoming == [] && outgoing == []
    {
      incoming, outgoing := [], [];
    }
  }

  /** A message as parts: MORE on all but the last. */
  function Encode<T>(frames: seq<T>): (parts: seq<Part<T>>)
    ensures |parts| == |frames|
    ensures forall i | 0 <= i < |frames| :: parts[i] == Part(frames[i], i < |frames| - 1)
  {
    seq(|frames|, i requires 0 <= i < |frames| => Part(frames[i], i < |frames| - 1))
  }

  function DataOf<T>(parts: seq<Part<T>>): (frames: seq<T>)
    ensures |frames| == |parts|
    ensures forall i | 0 <= i < |parts| :: frames[i] == parts[i].data
  {
    seq(|parts|, i requires 0 <= i < |parts| => parts[i].data)
  }

  /** ZeroMQ delivers whole messages only. */
  predicate Whole<T>(parts: seq<Part<T>>) {
    parts == [] || !parts[|parts| - 1].more
  }

  /** The number of parts of the first message. */
  function FirstLength<T>(parts: seq<Part<T>>): (n: nat)
    requires Whole(parts) && parts != []
    ensures 1 <= n <= |parts|
    ensures !parts[n - 1].more && forall i | 0 <= i < n - 1 :: parts[i].more
  {
    if !parts[0].more then 1 else 1 + FirstLength(parts[1..])
  }

  /** Sending what was received: the parts of the first message are those of its frames. */
  lemma FirstIsEncoded<T>(parts: seq<Part<T>>)
    requires Whole(parts) && parts != []
    ensures parts[..FirstLength(parts)] == Encode(DataOf(parts[..FirstLength(parts)]))
  {
  }

  /** Decoding finds the frames that were sent, whatever follows them. */
  lemma {:induction false} DecodeEncode<T>(frames: seq<T>, rest: seq<Part<T>>)
    requires frames != [] && Whole(rest)
    ensures Whole(Encode(frames) + rest)
    ensures FirstLength(Encode(frames) + rest) == |frames|
    ensures DataOf((Encode(frames) + rest)[..|frames|]) == frames
  {
    var parts := Encode(frames) + rest;
    assert forall i | 0 <= i < |frames| :: parts[i] == Part(frames[i], i < |frames| - 1);
    assert parts[..|frames|] == Encode(frames);
    assert Whole(parts) && !parts[|frames| - 1].more;
    assert |frames| - 1 <= FirstLength(parts) - 1;
  }

  class ZmqMutiMsg<T> {
    var msgs: seq<T>

    constructor ()
      ensures msgs == []
    {
      msgs := [];
    }

    /** Receives one message, part by part. */
    method RecvMutiMsg(sock: Socket<T>)
      requires Whole(sock.incoming) && sock.incoming != []
      modifies this, sock`incoming
      ensures var n := FirstLength(old(sock.incoming));
        && msgs == old(msgs) + DataOf(old(sock.incoming)[..n])
        && sock.incoming == old(sock.incoming)[n..]
    {
      ghost var all := sock.incoming;
      ghost var i := 0;
      var more := true;
      while more
        invariant 0 <= i <= FirstLength(all) && more == (i < FirstLength(all))
        invariant sock.incoming == all[i..]
        invariant msgs == old(msgs) + DataOf(all[..i])
        decreases |all| - i
      {
        var part := sock.incoming[0];
        sock.incoming := sock.incoming[1..];
        assert DataOf(all[..i + 1]) == DataOf(all[..i]) + [part.data];
        msgs := msgs + [part.data];
        more := part.more;
        i := i + 1;
      }
    }

    /** Sends every frame with MORE except the last. */
    method SendMutiMsg(sock: Socket<T>)
      requires msgs != []
      modifies sock`outgoing
      ensures sock.outgoing == old(sock.outgoing) + Encode(msgs)
    {
      var iter := 0;
      while iter != |msgs| - 1
        invariant 0 <= iter <= |msgs| - 1
        invariant sock.outgoing == old(sock.outgoing) + Encode(msgs)[..iter]
      {
        sock.outgoing := sock.outgoing + [Part(msgs[iter], true)];
        iter := iter + 1;
      }
      sock.outgoing := sock.outgoing + [Part(msgs[iter], false)];
      assert Encode(msgs) == Encode(msgs)[..iter] + [Part(msgs[iter], false)];
    }
  }

  // ---------- streams of messages ----------

  /** Messages one after the other on the wire. */
  function EncodeAll<T>(messages: seq<seq<T>>): seq<Part<T>> {
    if messages == [] then [] else Encode(messages[0]) + EncodeAll(messages[1..])
  }

  /** The messages that a receiver makes of the parts it gets. */
  function Messages<T>(parts: seq<Part<T>>): seq<seq<T>>
    requires Whole(parts)
  {
    if parts == [] then []
    else
      var n := FirstLength(parts);
      [DataOf(parts[..n])] + Messages(parts[n..])
  }

  ghost predicate NoEmpty<T>(messages: seq<seq<T>>) {
    forall i | 0 <= i < |messages| :: messages[i] != []
  }

  lemma FirstMessage<T>(head: seq<T>, rest: seq<Part<T>>)
    requires head != [] && Whole(rest)
    ensures Whole(Encode(head) + rest) && Messages(Encode(head) + rest) == [head] + Messages(rest)
  {
    DecodeEncode(head, rest);
    assert (Encode(head) + rest)[|head|..] == rest;
  }

  /** The receiver gets back the very messages that were sent, with their boundaries. */
  lemma {:induction false} MessagesRoundTrip<T>(messages: seq<seq<T>>)
    requires NoEmpty(messages)
    ensures Whole(EncodeAll(messages)) && Messages(EncodeAll(messages)) == messages
  {
    if messages != [] {
      var head, rest := messages[0], messages[1..];
      MessagesRoundTrip(rest);
      FirstMessage(head, EncodeAll(rest));
      assert messages == [head] + rest;
    }
  }

  /** And the parts of a stream are those of its messages. */
  lemma {:induction false} PartsRoundTrip<T>(parts: seq<Part<T>>)
    requires Whole(parts)
    ensures NoEmpty(Messages(parts)) && EncodeAll(Messages(parts)) == parts
  {
    if parts != [] {
      var n := FirstLength(parts);
      var head, rest := DataOf(parts[..n]), parts[n..];
      PartsRoundTrip(rest);
      NoEmptyCons(head, Messages(rest));
      calc {
        EncodeAll([head] + Messages(rest));
        { EncodeAllCons(head, Messages(rest)); }
        Encode(head) + EncodeAll(Messages(rest));
        { FirstIsEncoded(parts); }
        parts[..n] + rest;
        { SplitJoin(parts, n); }
        parts;
      }
    }
  }

  lemma EncodeAllCons<T>(head: seq<T>, rest: seq<seq<T>>)
    ensures EncodeAll([head] + rest) == Encode(head) + EncodeAll(rest)
  {
    assert ([head] + rest)[1..] == rest;
  }

  lemma NoEmptyCons<T>(head: seq<T>, rest: seq<seq<T>>)
    requires head != [] && NoEmpty(rest)
    ensures NoEmpty([head] + rest)
  {
  }

  lemma FirstInFront<T>(a: seq<Part<T>>, b: seq<Part<T>>)
    requires Whole(a) && a != [] && Whole(b)
    ensures Whole(a + b) && FirstLength(a + b) == FirstLength(a)
  {
    var s, n := a + b, FirstLength(a);
    assert b == [] ==> s == a;
    assert b != [] ==> s[|s| - 1] == b[|b| - 1];
    assert forall i | 0 <= i < n :: s[i] == a[i];
    assert FirstLength(s) >= n;
    assert !s[n - 1].more;
  }

  /** Streams that follow each other keep their messages. */
  lemma {:induction false} MessagesAppend<T>(a: seq<Part<T>>, b: seq<Part<T>>)
    requires Whole(a) && Whole(b)
    ensures Whole(a + b) && Messages(a + b) == Messages(a) + Messages(b)
    decreases |a|
  {
    if a == [] {
      assert a + b == b;
    } else {
      var n := FirstLength(a);
      FirstInFront(a, b);
      SplitAppend(a, b, n);
      calc {
        Messages(a + b);
        [DataOf(a[..n])] + Messages(a[n..] + b);
        { MessagesAppend(a[n..], b); }
        [DataOf(a[..n])] + (Messages(a[n..]) + Messages(b));
        { Assoc([DataOf(a[..n])], Messages(a[n..]), Messages(b)); }
        ([DataOf(a[..n])] + Messages(a[n..])) + Messages(b);
        Messages(a) + Messages(b);
      }
    }
  }

  // ---------- the broker ----------

  /** Sending on what was received moves the first message of one stream to the end of the other. */
  lemma MovedMessage<T>(sent: seq<Part<T>>, all: seq<Part<T>>)
    requires Whole(sent) && Whole(all) && all != []
    ensures var n := FirstLength(all);
      && Whole(sent + all[..n]) && Whole(all[n..])
      && Messages(sent + all[..n]) == Messages(sent) + [Messages(all)[0]]
      && Messages(all[n..]) == Messages(all)[1..]
  {
    var n := FirstLength(all);
    var first := all[..n];
    assert FirstLength(first) == n && first[..n] == first && first[n..] == [];
    assert Messages(first) == [DataOf(first)];
    MessagesAppend(sent, first);
  }

  /** One half of the broker's loop body: one message, unchanged, goes from one socket to the other. */
  method Forward<T>(source: Socket<T>, target: Socket<T>)
    requires source != target && Whole(source.incoming) && source.incoming != []
    modifies source`incoming, target`outgoing
    ensures Whole(source.incoming)
    ensures Messages(source.incoming) == Messages(old(source.incoming))[1..]
    ensures target.outgoing + source.incoming == old(target.outgoing + source.incoming)
    ensures Whole(old(target.outgoing)) ==>
      && Whole(target.outgoing)
      && Messages(target.outgoing) == Messages(old(target.outgoing)) + [Messages(old(source.incoming))[0]]
  {
    var msgs := new ZmqMutiMsg();
    ghost var all, sent := source.incoming, target.outgoing;
    ghost var n := FirstLength(all);
    msgs.RecvMutiMsg(source);
    assert msgs.msgs == DataOf(all[..n]);
    FirstIsEncoded(all);
    msgs.SendMutiMsg(target);
    assert target.outgoing == sent + all[..n];
    MovedMessage([], all);
    if Whole(sent) {
      MovedMessage(sent, all);
    }
    Assoc(sent, all[..n], all[n..]);
    SplitJoin(all, n);
  }

  /** All messages that arrived on one side, batch by batch. */
  function Flatten<T>(batches: seq<seq<seq<T>>>): seq<seq<T>> {
    if batches == [] then [] else Flatten(batches[..|batches| - 1]) + batches[|batches| - 1]
  }

  /** How many of them have gone out when each poll serves at most one. */
  function SentCount<T>(batches: seq<seq<seq<T>>>): (n: nat)
    ensures n <= |Flatten(batches)|
  {
    if batches == [] then 0
    else
      var n := SentCount(batches[..|batches| - 1]);
      if n < |Flatten(batches)| then n + 1 else n
  }

  /** Of these messages, in order, the first `n` have been sent on, and the rest still wait. */
  ghost predicate Relayed<T>(sent: seq<Part<T>>, waiting: seq<Part<T>>, messages: seq<seq<T>>, n: nat) {
    && Whole(sent) && Whole(waiting) && n <= |messages|
    && Messages(sent) == messages[..n]
    && Messages(waiting) == messages[n..]
  }

  lemma RelayedParts<T>(sent: seq<Part<T>>, waiting: seq<Part<T>>, messages: seq<seq<T>>, n: nat)
    requires Relayed(sent, waiting, messages, n)
    ensures sent + waiting == EncodeAll(messages)
  {
    MessagesAppend(sent, waiting);
    SplitJoin(messages, n);
    PartsRoundTrip(sent + waiting);
  }

  lemma RelayedArrival<T>(sent: seq<Part<T>>, waiting: seq<Part<T>>, messages: seq<seq<T>>, n: nat, batch: seq<seq<T>>)
    requires Relayed(sent, waiting, messages, n) && NoEmpty(batch)
    ensures Relayed(sent, waiting + EncodeAll(batch), messages + batch, n)
  {
    MessagesRoundTrip(batch);
    MessagesAppend(waiting, EncodeAll(batch));
    SplitAppend(messages, batch, n);
  }

  /** A batch of messages reaches a socket. */
  method Arrive<T>(source: Socket<T>, target: Socket<T>, batch: seq<seq<T>>, ghost messages: seq<seq<T>>, ghost n: nat)
    requires NoEmpty(batch) && Relayed(target.outgoing, source.incoming, messages, n)
    modifies source`incoming
    ensures source.incoming == old(source.incoming) + EncodeAll(batch)
    ensures Relayed(target.outgoing, source.incoming, messages + batch, n)
  {
    RelayedArrival(target.outgoing, source.incoming, messages, n, batch);
    source.incoming := source.incoming + EncodeAll(batch);
  }

  /** Serving one side: if anything waits there, its first message is sent on. */
  method Serve<T>(ready: bool, source: Socket<T>, target: Socket<T>, ghost messages: seq<seq<T>>, ghost n: nat)
    requires source != target && Relayed(target.outgoing, source.incoming, messages, n)
    requires ready == (source.incoming != [])
    modifies source`incoming, target`outgoing
    ensures Relayed(target.outgoing, source.incoming, messages, if n < |messages| then n + 1 else n)
  {
    if ready {
      OneMore(messages, n);
      Forward(source, target);
    }
  }

  lemma OneMoreBatch<T>(batches: seq<seq<seq<T>>>, i: nat)
    requires i < |batches|
    ensures var messages, n := Flatten(batches[..i]) + batches[i], SentCount(batches[..i]);
      && Flatten(batches[..i + 1]) == messages
      && SentCount(batches[..i + 1]) == if n < |messages| then n + 1 else n
  {
    assert batches[..i + 1][..i] == batches[..i];
  }

  /** After the given arrivals one side has relayed what one message a poll allows. */
  ghost predicate SideOk<T>(source: Socket<T>, target: Socket<T>, batches: seq<seq<seq<T>>>)
    reads source, target
  {
    Relayed(target.outgoing, source.incoming, Flatten(batches), SentCount(batches))
  }

  /** One turn of the broker's loop: messages arrive, the poll returns, each side is served. */
  method Turn<T>(front: Socket<T>, back: Socket<T>, fronts: seq<seq<seq<T>>>, backs: seq<seq<seq<T>>>, i: nat)
    requires front != back && i < |fronts| == |backs|
    requires NoEmpty(fronts[i]) && NoEmpty(backs[i])
    requires SideOk(front, back, fronts[..i]) && SideOk(back, front, backs[..i])
    modifies front, back
    ensures SideOk(front, back, fronts[..i + 1]) && SideOk(back, front, backs[..i + 1])
  {
    OneMoreBatch(fronts, i);
    OneMoreBatch(backs, i);
    Arrive(front, back, fronts[i], Flatten(fronts[..i]), SentCount(fronts[..i]));
    Arrive(back, front, backs[i], Flatten(backs[..i]), SentCount(backs[..i]));
    var frontReady, backReady := front.incoming != [], back.incoming != [];
    Serve(frontReady, front, back, Flatten(fronts[..i + 1]), SentCount(fronts[..i]));
    Serve(backReady, back, front, Flatten(backs[..i + 1]), SentCount(backs[..i]));
  }

  /**
   The broker's loop over any number of polls; before poll `i` returns, the messages `fronts[i]` and
   `backs[i]` arrive on its sockets.  On each side the messages sent on are the first ones of those
   that arrived, one for each poll that found any, and the others still wait: nothing lost, doubled,
   changed, split or reordered.
   */
  method RunBroker<T>(front: Socket<T>, back: Socket<T>, fronts: seq<seq<seq<T>>>, backs: seq<seq<seq<T>>>)
    requires front != back && |fronts| == |backs|
    requires front.incoming == [] && front.outgoing == [] && back.incoming == [] && back.outgoing == []
    requires forall i | 0 <= i < |fronts| :: NoEmpty(fronts[i]) && NoEmpty(backs[i])
    modifies front, back
    ensures Relayed(back.outgoing, front.incoming, Flatten(fronts), SentCount(fronts))
    ensures Relayed(front.outgoing, back.incoming, Flatten(backs), SentCount(backs))
    ensures Messages(back.outgoing) <= Flatten(fronts) && Messages(front.outgoing) <= Flatten(backs)
    ensures back.outgoing + front.incoming == EncodeAll(Flatten(fronts))
    ensures front.outgoing + back.incoming == EncodeAll(Flatten(backs))
  {
    var i := 0;
    while i < |fronts|
      invariant 0 <= i <= |fronts|
      invariant SideOk(front, back, fronts[..i]) && SideOk(back, front, backs[..i])
    {
      Turn(front, back, fronts, backs, i);
      i := i + 1;
    }
    assert fronts[..i] == fronts && backs[..i] == backs;
    RelayedParts(back.outgoing, front.incoming, Flatten(fronts), SentCount(fronts));
    RelayedParts(front.outgoing, back.incoming, Flatten(backs), SentCount(backs));
  }

  /** Once nothing more arrives, as many polls as there are messages waiting send on all of them. */
  lemma {:induction false} BacklogDrains<T>(batches: seq<seq<seq<T>>>, polls: nat)
    ensures var later := batches + seq(polls, i => []);
      && Flatten(later) == Flatten(batches)
      && SentCount(later) == if SentCount(batches) + polls < |Flatten(batches)| then SentCount(batches) + polls
                             else |Flatten(batches)|
  {
    var later := batches + seq(polls, i => []);
    if polls == 0 {
      assert later == batches;
    } else {
      var before := batches + seq(polls - 1, i => []);
      BacklogDrains(batches, polls - 1);
      assert later[..|later| - 1] == before && later[|later| - 1] == [];
    }
  }
}
