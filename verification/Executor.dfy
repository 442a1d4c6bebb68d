/** The LogBroker class and the executor's read loop (services/log_broker.py,
    runner/executor.py): queues and channels updated in place, each call a move of one run's
    stream. */
module Executor {
  import opened Prelude
  import opened LogStream

  /** What readline() yields: any chunks; the first empty one is the end of the output. */
  type Chunk = seq<bv8>

  class LogBroker {
    var channels: map<nat, Channel>
    var nextQueue: nat
    ghost var streams: map<nat, Stream>

    constructor ()
      ensures Valid() && channels == map[] && forall run: nat :: StreamOf(run) == FRESH
    {
      channels, nextQueue, streams := map[], 0, map[];
    }

    ghost function StreamOf(run: nat): Stream
      reads this
    {
      if run in streams then streams[run] else FRESH
    }

    /** The channels are those of the streams, and queue identities are new. */
    ghost predicate Valid()
      reads this
    {
      forall run: nat :: ChannelFine(run)
    }

    ghost predicate ChannelFine(run: nat)
      reads this
    {
      && StreamOf(run).channel == (if run in channels then channels[run] else FRESH.channel)
      && Inv(StreamOf(run))
      && forall x | x in StreamOf(run).subscribers :: x < nextQueue
    }

    twostate predicate OnlyChanged(run: nat)
      reads this
    {
      forall other: nat | other != run :: StreamOf(other) == old(StreamOf(other))
    }

    /** put_nowait on each queue in turn; a full queue loses the frame. */
    method PutAllQueues(queues: map<nat, seq<Frame>>, f: Frame) returns (r: map<nat, seq<Frame>>)
      ensures r == PutAll(queues, f)
    {
      r := queues;
      var todo := queues.Keys;
      while todo != {}
        invariant r.Keys == queues.Keys && todo <= queues.Keys
        invariant forall x | x in queues :: r[x] == if x in todo then queues[x] else Put(queues[x], f)
        decreases todo
      {
        var x :| x in todo;
        if |r[x]| < QUEUE_SIZE {
          r := r[x := r[x] + [f]];
        }
        todo := todo - {x};
      }
    }

    /** An ended channel replays its end frame and is left at once; otherwise a new queue. */
    method Subscribe(run: nat) returns (x: nat, replay: Option<Frame>)
      requires Valid()
      modifies this
      ensures Valid() && OnlyChanged(run)
      ensures x == old(nextQueue) && replay == old(StreamOf(run)).channel.end
      ensures StreamOf(run) == ApplySubscribe(old(StreamOf(run)), x)
    {
      assert ChannelFine(run);
      var ch := if run in channels then channels[run] else Channel(map[], None);
      channels := channels[run := ch];
      x, replay := nextQueue, ch.end;
      nextQueue := nextQueue + 1;
      ghost var s := StreamOf(run);
      if replay.None? {
        channels := channels[run := ch.(queues := ch.queues[x := []])];
      }
      MoveKeeps(s, LogStream.Move.Subscribe(x));
      streams := streams[run := ApplySubscribe(s, x)];
      OthersFine(run);
    }

    twostate lemma OthersFine(run: nat)
      requires old(Valid()) && old(nextQueue) <= nextQueue && ChannelFine(run)
      requires forall other: nat | other != run ::
                 && (other in channels <==> other in old(channels))
                 && (other in channels ==> channels[other] == old(channels)[other])
                 && StreamOf(other) == old(StreamOf(other))
      ensures Valid()
    {
      forall other: nat ensures ChannelFine(other) {
        assert old(ChannelFine(other));
      }
    }

    method Publish(run: nat, text: string, offset: nat)
      requires Valid()
      modifies this
      ensures Valid() && OnlyChanged(run)
      ensures StreamOf(run) == ApplyPublish(old(StreamOf(run)), Line(offset, text))
    {
      assert ChannelFine(run);
      ghost var s := StreamOf(run);
      if run in channels && channels[run].end.None? {
        var queues := PutAllQueues(channels[run].queues, Line(offset, text));
        channels := channels[run := channels[run].(queues := queues)];
      }
      MoveKeeps(s, LogStream.Move.Publish(Line(offset, text)));
      PublishSubscribers(s, Line(offset, text));
      streams := streams[run := ApplyPublish(s, Line(offset, text))];
      OthersFine(run);
    }

    static lemma PublishSubscribers(s: Stream, line: Frame)
      ensures ApplyPublish(s, line).subscribers.Keys == s.subscribers.Keys
      ensures s.channel == FRESH.channel ==> ApplyPublish(s, line).channel == FRESH.channel
    {
      assert PutAll(map[], line) == map[];
    }

    method Close(run: nat, status: string, exitCode: int)
      requires Valid()
      modifies this
      ensures Valid() && OnlyChanged(run)
      ensures StreamOf(run) == ApplyClose(old(StreamOf(run)), End(status, exitCode))
      ensures StreamOf(run).channel.end.Some?
    {
      assert ChannelFine(run);
      ghost var s := StreamOf(run);
      var ch := if run in channels then channels[run] else Channel(map[], None);
      channels := channels[run := ch];
      if ch.end.None? {
        var queues := PutAllQueues(ch.queues, End(status, exitCode));
        channels := channels[run := Channel(queues, Some(End(status, exitCode)))];
      }
      MoveKeeps(s, LogStream.Move.Close(End(status, exitCode)));
      streams := streams[run := ApplyClose(s, End(status, exitCode))];
      OthersFine(run);
    }

    /** A subscriber's q.get() when there is something to get. */
    method Get(run: nat, x: nat) returns (f: Frame)
      requires Valid() && Can(StreamOf(run), LogStream.Move.Get(x))
      modifies this
      ensures Valid() && OnlyChanged(run)
      ensures f == Queued(old(StreamOf(run)), x)[0] && StreamOf(run) == ApplyGet(old(StreamOf(run)), x)
    {
      assert ChannelFine(run);
      ghost var s := StreamOf(run);
      var ch := channels[run];
      f := ch.queues[x][0];
      channels := channels[run := ch.(queues := ch.queues[x := ch.queues[x][1..]])];
      MoveKeeps(s, LogStream.Move.Get(x));
      streams := streams[run := ApplyGet(s, x)];
      OthersFine(run);
    }

    method Unsubscribe(run: nat, x: nat)
      requires Valid() && Can(StreamOf(run), LogStream.Move.Unsubscribe(x))
      modifies this
      ensures Valid() && OnlyChanged(run)
      ensures StreamOf(run) == ApplyUnsubscribe(old(StreamOf(run)), x)
    {
      assert ChannelFine(run);
      ghost var s := StreamOf(run);
      var ch := channels[run];
      channels := channels[run := ch.(queues := ch.queues - {x})];
      MoveKeeps(s, LogStream.Move.Unsubscribe(x));
      streams := streams[run := ApplyUnsubscribe(s, x)];
      OthersFine(run);
    }
  }

  // ---- the read loop ----

  /** Everything written to the log by these chunks. */
  function Joined(chunks: seq<Chunk>): seq<bv8> {
    if |chunks| == 0 then [] else Joined(chunks[..|chunks| - 1]) + chunks[|chunks| - 1]
  }

  /** What the loop publishes for these chunks: each with the offset of its first byte. */
  function FramesOf(decode: Chunk -> string, chunks: seq<Chunk>): seq<Frame> {
    if |chunks| == 0 then []
    else
      var front := chunks[..|chunks| - 1];
      FramesOf(decode, front) + [Line(|Joined(front)|, decode(chunks[|chunks| - 1]))]
  }

  /** The chunks before the first empty one. */
  function Output(chunks: seq<Chunk>): seq<Chunk> {
    if |chunks| == 0 || chunks[0] == [] then [] else [chunks[0]] + Output(chunks[1..])
  }

  lemma {:induction false} OutputIs(chunks: seq<Chunk>, i: nat)
    requires i <= |chunks| && forall k | 0 <= k < i :: chunks[k] != []
    requires i == |chunks| || chunks[i] == []
    ensures Output(chunks) == chunks[..i]
    decreases i
  {
    if i > 0 {
      OutputIs(chunks[1..], i - 1);
      assert chunks[..i] == [chunks[0]] + chunks[1..][..i - 1];
    }
  }

  /** One more line is one more publish. */
  ghost predicate SentAlso(before: Stream, after: Stream, lines: seq<Frame>) {
    after.sent == before.sent + lines
  }

  method StreamOutput(broker: LogBroker, run: nat, decode: Chunk -> string, chunks: seq<Chunk>)
    returns (log: seq<bv8>)
    requires broker.Valid()
    modifies broker
    ensures broker.Valid() && broker.OnlyChanged(run)
    ensures log == Joined(Output(chunks))
    ensures SentAlso(old(broker.StreamOf(run)), broker.StreamOf(run), FramesOf(decode, Output(chunks)))
    ensures broker.StreamOf(run).channel.end == old(broker.StreamOf(run)).channel.end
  {
    log := [];
    var offset := 0;
    var i := 0;
    while i < |chunks| && chunks[i] != []
      invariant 0 <= i <= |chunks| && forall k | 0 <= k < i :: chunks[k] != []
      invariant log == Joined(chunks[..i]) && offset == |log|
      invariant broker.Valid() && broker.OnlyChanged(run)
      invariant SentAlso(old(broker.StreamOf(run)), broker.StreamOf(run), FramesOf(decode, chunks[..i]))
      invariant broker.StreamOf(run).channel.end == old(broker.StreamOf(run)).channel.end
    {
      var chunk := chunks[i];
      assert chunks[..i + 1][..i] == chunks[..i];
      log := log + chunk;
      broker.Publish(run, decode(chunk), offset);
      offset := offset + |chunk|;
      i := i + 1;
    }
    OutputIs(chunks, i);
  }

  /** The channel passed on exactly these lines. */
  ghost predicate FirstAttemptPassedOn(s: Stream, lines: seq<Frame>) {
    Horizon(s) <= |s.sent| && s.sent[..Horizon(s)] == lines
  }

  /** How the process ended: with an exit code, or with an exception anywhere in run_script's
      inner block. */
  datatype Ending = Exited(code: int) | Threw

  /** run_script, the part under the locks: whatever happens, the channel is closed, and the
      caller gets -1 for an exception, which it will take for a failure although subscribers
      were told "error". */
  method RunScript(broker: LogBroker, run: nat, decode: Chunk -> string, chunks: seq<Chunk>, ending: Ending)
    returns (exitCode: int, log: seq<bv8>)
    requires broker.Valid()
    modifies broker
    ensures broker.Valid() && broker.OnlyChanged(run)
    ensures exitCode == if ending.Exited? then ending.code else -1
    ensures log == Joined(Output(chunks))
    ensures broker.StreamOf(run).channel.end ==
            if old(broker.StreamOf(run)).channel.end.Some? then old(broker.StreamOf(run)).channel.end
            else match ending
                 case Exited(code) => Some(if code == 0 then End("success", 0) else End("failure", code))
                 case Threw => Some(End("error", -1))
    ensures old(broker.StreamOf(run)).channel.end.None? && old(broker.StreamOf(run)).sent == [] ==>
              FirstAttemptPassedOn(broker.StreamOf(run), FramesOf(decode, Output(chunks)))
  {
    log := StreamOutput(broker, run, decode, chunks);
    var status := "error";
    exitCode := -1;
    if ending.Exited? {
      exitCode := ending.code;
      status := if exitCode == 0 then "success" else "failure";
    }
    broker.Close(run, status, exitCode);
  }

  // ---- offsets tile the log ----

  lemma {:induction false} JoinedSplit(chunks: seq<Chunk>, k: nat)
    requires k <= |chunks|
    ensures |Joined(chunks[..k])| <= |Joined(chunks)|
    ensures Joined(chunks)[..|Joined(chunks[..k])|] == Joined(chunks[..k])
    decreases |chunks|
  {
    if k < |chunks| {
      var front := chunks[..|chunks| - 1];
      JoinedSplit(front, k);
      assert front[..k] == chunks[..k];
    } else {
      assert chunks[..k] == chunks;
    }
  }

  lemma {:induction false} FramesAt(decode: Chunk -> string, chunks: seq<Chunk>, i: nat)
    requires i < |chunks|
    ensures |FramesOf(decode, chunks)| == |chunks|
    ensures FramesOf(decode, chunks)[i] == Line(|Joined(chunks[..i])|, decode(chunks[i]))
    decreases |chunks|
  {
    var front := chunks[..|chunks| - 1];
    if |front| > 0 {
      FramesAt(decode, front, if i < |front| then i else 0);
      assert i < |front| ==> front[..i] == chunks[..i];
    }
  }

  lemma {:induction false} ChunkInLog(chunks: seq<Chunk>, i: nat)
    requires i < |chunks|
    ensures var from := |Joined(chunks[..i])|;
            && |Joined(chunks[..i + 1])| == from + |chunks[i]| <= |Joined(chunks)|
            && Joined(chunks)[from..from + |chunks[i]|] == chunks[i]
  {
    JoinedSplit(chunks, i + 1);
    var upto := chunks[..i + 1];
    assert upto[..i] == chunks[..i];
    assert Joined(upto) == Joined(chunks[..i]) + chunks[i];
    var from, to := |Joined(chunks[..i])|, |Joined(upto)|;
    assert Joined(chunks)[from..to] == Joined(chunks)[..to][from..];
  }

  predicate LostNothing(s: Stream, x: nat) {
    x in s.subscribers && s.subscribers[x].dropped == 0 && s.subscribers[x].abandoned == 0
  }

  lemma GotIsPublished(s: Stream, x: nat)
    requires Inv(s) && LostNothing(s, x)
    ensures Got(s, x) == s.subscribers[x].published
    ensures Horizon(s) <= |s.sent| && Gapless(s.subscribers[x], s.sent, Horizon(s))
    ensures x in s.channel.queues ==> s.subscribers[x].joined + LineCount(Got(s, x)) == Horizon(s)
  {
    assert SubscriberFine(s, x);
  }

  lemma StretchAt(u: Subscriber, sent: seq<Frame>, horizon: nat, i: nat)
    requires Gapless(u, sent, horizon) && horizon <= |sent| && i < LineCount(u.published)
    ensures u.joined + i < horizon && u.published[i] == sent[..horizon][u.joined + i]
  {
    var n := LineCount(u.published);
    assert u.published[..n][i] == sent[u.joined..u.joined + n][i];
  }

  /** A subscriber that lost nothing and stayed has a contiguous stretch of what was sent: all
      of it from where it joined, if it joined before the end; one more frame may be the end.
      (One that joined after the end has the replayed end alone.) */
  lemma {:induction false} NothingLost(s: Stream, x: nat)
    requires Inv(s) && LostNothing(s, x)
    ensures Horizon(s) <= |s.sent|
    ensures var joined, got, passed := s.subscribers[x].joined, Got(s, x), s.sent[..Horizon(s)];
            && (x in s.channel.queues ==> joined + LineCount(got) == |passed|)
            && forall i | 0 <= i < LineCount(got) :: joined + i < |passed| && got[i] == passed[joined + i]
  {
    GotIsPublished(s, x);
    forall i | 0 <= i < LineCount(Got(s, x))
      ensures s.subscribers[x].joined + i < Horizon(s)
      ensures Got(s, x)[i] == s.sent[..Horizon(s)][s.subscribers[x].joined + i]
    {
      StretchAt(s.subscribers[x], s.sent, Horizon(s), i);
    }
  }

  /** What the channel passed on, before it ended, is the beginning of `lines`. */
  ghost predicate PassedOnFrom(s: Stream, lines: seq<Frame>) {
    Horizon(s) <= |s.sent| && s.sent[..Horizon(s)] <= lines
  }

  /** The lines handed over so far, in order. */
  function Published(moves: seq<Move>): seq<Frame> {
    if |moves| == 0 then []
    else
      var n := |moves| - 1;
      Published(moves[..n]) + if moves[n].Publish? then [moves[n].line] else []
  }

  lemma {:induction false} SentIsPublished(moves: seq<Move>)
    requires Possible(moves)
    ensures After(moves).sent == Published(moves)
    decreases |moves|
  {
    if |moves| > 0 {
      SentIsPublished(moves[..|moves| - 1]);
    }
  }

  /** An attempt that has handed over the beginning of its output, wherever the channel was
      closed, and by whomever. */
  lemma {:induction false} AttemptPassesOn(moves: seq<Move>, lines: seq<Frame>)
    requires Possible(moves) && Published(moves) <= lines
    ensures PassedOnFrom(After(moves), lines)
  {
    SentIsPublished(moves);
    EveryReachableStream(moves);
    var s := After(moves);
    assert s.sent[..Horizon(s)] <= s.sent;
  }

  lemma StillPassedOn(s: Stream, move: Move, lines: seq<Frame>)
    requires Inv(s) && Can(s, move) && s.channel.end.Some? && PassedOnFrom(s, lines)
    ensures PassedOnFrom(Apply(s, move), lines)
  {
    if move.Publish? {
      assert (s.sent + [move.line])[..s.closedAt] == s.sent[..s.closedAt];
    }
  }

  /** Whatever later attempts hand over, an ended channel has passed on the same. */
  lemma {:induction false} LaterAttemptsPassNothing(moves: seq<Move>, more: seq<Move>, lines: seq<Frame>)
    requires Possible(moves) && Possible(moves + more) && After(moves).channel.end.Some?
    requires PassedOnFrom(After(moves), lines)
    ensures PassedOnFrom(After(moves + more), lines)
    decreases |more|
  {
    if |more| == 0 {
      assert moves + more == moves;
    } else {
      var m := |more| - 1;
      LastMove(moves, more);
      LaterAttemptsPassNothing(moves, more[..m], lines);
      EndStays(moves, more[..m]);
      EveryReachableStream(moves + more[..m]);
      StillPassedOn(After(moves + more[..m]), more[m], lines);
    }
  }

  lemma TileAt(decode: Chunk -> string, chunks: seq<Chunk>, k: nat)
    requires k < |chunks|
    ensures |FramesOf(decode, chunks)| == |chunks|
    ensures var from := |Joined(chunks[..k])|;
            && FramesOf(decode, chunks)[k] == Line(from, decode(chunks[k]))
            && |Joined(chunks[..k + 1])| == from + |chunks[k]| <= |Joined(chunks)|
            && Joined(chunks)[from..from + |chunks[k]|] == chunks[k]
  {
    FramesAt(decode, chunks, k);
    ChunkInLog(chunks, k);
  }

  lemma GotFrom(s: Stream, x: nat, i: nat, lines: seq<Frame>)
    requires Inv(s) && LostNothing(s, x) && PassedOnFrom(s, lines) && i < LineCount(Got(s, x))
    ensures s.subscribers[x].joined + i < |lines| && Got(s, x)[i] == lines[s.subscribers[x].joined + i]
  {
    GotIsPublished(s, x);
    StretchAt(s.subscribers[x], s.sent, Horizon(s), i);
    assert s.sent[..Horizon(s)][s.subscribers[x].joined + i] == lines[s.subscribers[x].joined + i];
  }

  /** For every interleaving in which the first attempt has handed over some beginning of its
      output `chunks`: line `i` of a subscriber that lost nothing carries chunk joined + i of the
      output, with the offset at which that chunk stands in the attempt's log.  With
      `NothingLost`, its lines tile a contiguous stretch of that log, up to where the channel
      was closed. */
  lemma {:induction false} OffsetsTileTheLog(decode: Chunk -> string, chunks: seq<Chunk>, moves: seq<Move>,
                                             s: Stream, x: nat, i: nat)
    requires Possible(moves) && s == After(moves) && LostNothing(s, x)
    requires PassedOnFrom(s, FramesOf(decode, chunks))
    requires i < LineCount(Got(s, x))
    ensures var k := s.subscribers[x].joined + i;
            && k < |chunks|
            && var from := |Joined(chunks[..k])|;
               && Got(s, x)[i] == Line(from, decode(chunks[k]))
               && |Joined(chunks[..k + 1])| == from + |chunks[k]| <= |Joined(chunks)|
               && Joined(chunks)[from..from + |chunks[k]|] == chunks[k]
  {
    EveryReachableStream(moves);
    GotFrom(s, x, i, FramesOf(decode, chunks));
    FramesLength(decode, chunks);
    TileAt(decode, chunks, s.subscribers[x].joined + i);
  }

  lemma FramesLength(decode: Chunk -> string, chunks: seq<Chunk>)
    ensures |FramesOf(decode, chunks)| == |chunks|
  {
    if |chunks| > 0 {
      FramesAt(decode, chunks, 0);
    }
  }
}
