/** services/log_broker.py, one run's channel: what each subscriber gets, over every
    interleaving of publishing, closing, joining, reading and leaving. */
module LogStream {
  import opened Prelude

  datatype Frame = Line(offset: nat, text: string) | End(status: string, exitCode: int)

  const QUEUE_SIZE: nat := 1024

  /** _RunChannel; `end` is its end_status and end_exit once it has ended. */
  datatype Channel = Channel(queues: map<nat, seq<Frame>>, end: Option<Frame>)

  /** What happened to one subscriber.  `published` is every frame the channel took since the
      subscriber joined and until it left, or for a latecomer the replayed end. */
  datatype Subscriber = Subscriber(
    joined: nat,              // how many lines had been sent by then
    published: seq<Frame>,
    delivered: seq<Frame>,
    dropped: nat,
    abandoned: nat            // still queued when it left
  )

  /** A channel and its history; `sent` is every line the executor handed over, and
      `closedAt` how many it had handed over when the channel ended. */
  datatype Stream = Stream(channel: Channel, subscribers: map<nat, Subscriber>, sent: seq<Frame>, closedAt: nat)

  const FRESH: Stream := Stream(Channel(map[], None), map[], [], 0)

  datatype Move =
    | Subscribe(x: nat)
    | Publish(line: Frame)
    | Close(end: Frame)
    | Get(x: nat)
    | Unsubscribe(x: nat)

  // ---- put_nowait on every queue ----

  function Put(q: seq<Frame>, f: Frame): seq<Frame> {
    if |q| < QUEUE_SIZE then q + [f] else q
  }

  function PutAll(queues: map<nat, seq<Frame>>, f: Frame): map<nat, seq<Frame>> {
    map x | x in queues :: Put(queues[x], f)
  }

  function Noted(u: Subscriber, q: seq<Frame>, f: Frame): Subscriber {
    u.(published := u.published + [f], dropped := u.dropped + if |q| < QUEUE_SIZE then 0 else 1)
  }

  function Offer(s: Stream, f: Frame): Stream {
    s.(channel := s.channel.(queues := PutAll(s.channel.queues, f)),
       subscribers := map x | x in s.subscribers ::
         if x in s.channel.queues then Noted(s.subscribers[x], s.channel.queues[x], f) else s.subscribers[x])
  }

  // ---- the moves ----

  predicate Can(s: Stream, move: Move) {
    match move
    case Subscribe(x) => x !in s.subscribers
    case Publish(line) => line.Line?
    case Close(end) => end.End?
    case Get(x) => x in s.channel.queues && |s.channel.queues[x]| > 0 && x in s.subscribers
    case Unsubscribe(x) => x in s.channel.queues && x in s.subscribers
  }

  function ApplySubscribe(s: Stream, x: nat): Stream {
    match s.channel.end
    case Some(end) => s.(subscribers := s.subscribers[x := Subscriber(|s.sent|, [end], [end], 0, 0)])
    case None =>
      s.(channel := s.channel.(queues := s.channel.queues[x := []]),
         subscribers := s.subscribers[x := Subscriber(|s.sent|, [], [], 0, 0)])
  }

  function ApplyPublish(s: Stream, line: Frame): Stream {
    var sent := s.(sent := s.sent + [line]);
    if s.channel.end.Some? then sent else Offer(sent, line)
  }

  function ApplyClose(s: Stream, end: Frame): Stream {
    if s.channel.end.Some? then s
    else
      var offered := Offer(s, end);
      offered.(channel := offered.channel.(end := Some(end)), closedAt := |s.sent|)
  }

  function ApplyGet(s: Stream, x: nat): Stream
    requires Can(s, Get(x))
  {
    var q, u := s.channel.queues[x], s.subscribers[x];
    s.(channel := s.channel.(queues := s.channel.queues[x := q[1..]]),
       subscribers := s.subscribers[x := u.(delivered := u.delivered + [q[0]])])
  }

  function ApplyUnsubscribe(s: Stream, x: nat): Stream
    requires Can(s, Unsubscribe(x))
  {
    var q, u := s.channel.queues[x], s.subscribers[x];
    s.(channel := s.channel.(queues := s.channel.queues - {x}),
       subscribers := s.subscribers[x := u.(abandoned := |q|)])
  }

  function Apply(s: Stream, move: Move): Stream
    requires Can(s, move)
  {
    match move
    case Subscribe(x) => ApplySubscribe(s, x)
    case Publish(line) => ApplyPublish(s, line)
    case Close(end) => ApplyClose(s, end)
    case Get(x) => ApplyGet(s, x)
    case Unsubscribe(x) => ApplyUnsubscribe(s, x)
  }

  predicate Possible(moves: seq<Move>)
    decreases |moves|, 0
  {
    |moves| == 0 ||
    var n := |moves| - 1;
    Possible(moves[..n]) && Can(After(moves[..n]), moves[n])
  }

  function After(moves: seq<Move>): Stream
    requires Possible(moves)
    decreases |moves|, 1
  {
    if |moves| == 0 then FRESH else Apply(After(moves[..|moves| - 1]), moves[|moves| - 1])
  }

  // ---- what a subscriber gets ----

  /** `a` is `b` with some frames left out. */
  predicate Subsequence(a: seq<Frame>, b: seq<Frame>) {
    |a| == 0 ||
    (|b| > 0 &&
     var m, n := |a| - 1, |b| - 1;
     ((a[m] == b[n] && Subsequence(a[..m], b[..n])) || Subsequence(a, b[..n])))
  }

  lemma SubsequenceTake(a: seq<Frame>, b: seq<Frame>, f: Frame)
    requires Subsequence(a, b)
    ensures Subsequence(a + [f], b + [f])
  {
    assert (a + [f])[..|a|] == a && (b + [f])[..|b|] == b;
  }

  lemma SubsequenceSkip(a: seq<Frame>, b: seq<Frame>, f: Frame)
    requires Subsequence(a, b)
    ensures Subsequence(a, b + [f])
  {
    assert (b + [f])[..|b|] == b;
  }

  /** Lines only, except that the last frame may be the end. */
  predicate EndsOnce(fs: seq<Frame>) {
    forall i | 0 <= i < |fs| - 1 :: fs[i].Line?
  }

  predicate LinesOnly(fs: seq<Frame>) {
    forall i | 0 <= i < |fs| :: fs[i].Line?
  }

  lemma {:induction false} SubsequenceLines(a: seq<Frame>, b: seq<Frame>)
    requires Subsequence(a, b) && LinesOnly(b)
    ensures LinesOnly(a)
    decreases |b|
  {
    if |a| > 0 {
      var m, n := |a| - 1, |b| - 1;
      if a[m] == b[n] && Subsequence(a[..m], b[..n]) {
        SubsequenceLines(a[..m], b[..n]);
        assert forall i | 0 <= i < m :: a[i] == a[..m][i];
      } else {
        SubsequenceLines(a, b[..n]);
      }
    }
  }

  lemma SubsequenceEnds(a: seq<Frame>, b: seq<Frame>)
    requires Subsequence(a, b) && EndsOnce(b)
    ensures EndsOnce(a)
  {
    if |a| > 0 {
      var m, n := |a| - 1, |b| - 1;
      if a[m] == b[n] && Subsequence(a[..m], b[..n]) {
        SubsequenceLines(a[..m], b[..n]);
        assert forall i | 0 <= i < m :: a[i] == a[..m][i];
      } else {
        SubsequenceLines(a, b[..n]);
      }
    }
  }

  function Queued(s: Stream, x: nat): seq<Frame> {
    if x in s.channel.queues then s.channel.queues[x] else []
  }

  /** Delivered and still queued. */
  function Got(s: Stream, x: nat): seq<Frame>
    requires x in s.subscribers
  {
    s.subscribers[x].delivered + Queued(s, x)
  }

  /** How many of the published frames are lines. */
  function LineCount(fs: seq<Frame>): nat {
    if |fs| > 0 && fs[|fs| - 1].End? then |fs| - 1 else |fs|
  }

  /** How far `sent` was ever passed on. */
  function Horizon(s: Stream): nat {
    if s.channel.end.Some? then s.closedAt else |s.sent|
  }

  /** Everything published since it joined is delivered, queued, dropped or abandoned. */
  predicate Conserved(u: Subscriber, q: seq<Frame>) {
    && Subsequence(u.delivered + q, u.published)
    && |u.published| == |u.delivered| + |q| + u.dropped + u.abandoned
    && (u.dropped == 0 && u.abandoned == 0 ==> u.delivered + q == u.published)
    && |q| <= QUEUE_SIZE
  }

  /** The lines it was offered are a gapless stretch of what was sent, from where it joined. */
  predicate Gapless(u: Subscriber, sent: seq<Frame>, horizon: nat) {
    var n := LineCount(u.published);
    && EndsOnce(u.published)
    && (n > 0 ==> u.joined + n <= horizon)
    && u.joined + n <= |sent|
    && u.published[..n] == sent[u.joined..u.joined + n]
  }

  predicate SubscriberFine(s: Stream, x: nat) {
    && (x in s.channel.queues ==> x in s.subscribers)
    && (x in s.subscribers ==>
          var u := s.subscribers[x];
          && Conserved(u, Queued(s, x))
          && Horizon(s) <= |s.sent|
          && Gapless(u, s.sent, Horizon(s))
          && (x in s.channel.queues ==> u.abandoned == 0 && u.joined + LineCount(u.published) == Horizon(s))
          && (x in s.channel.queues && s.channel.end.None? ==> u.published == s.sent[u.joined..]))
  }

  ghost predicate Inv(s: Stream) {
    && LinesOnly(s.sent)
    && (s.channel.end.Some? ==> s.channel.end.value.End? && s.closedAt <= |s.sent|)
    && forall x: nat :: SubscriberFine(s, x)
  }

  lemma OfferConserved(u: Subscriber, q: seq<Frame>, f: Frame)
    requires Conserved(u, q) && u.abandoned == 0
    ensures Conserved(Noted(u, q, f), Put(q, f))
  {
    if |q| < QUEUE_SIZE {
      SubsequenceTake(u.delivered + q, u.published, f);
      assert u.delivered + (q + [f]) == (u.delivered + q) + [f];
    } else {
      SubsequenceSkip(u.delivered + q, u.published, f);
    }
  }

  /** Sending more lines takes nothing away from a stretch. */
  lemma GaplessGrows(u: Subscriber, sent: seq<Frame>, horizon: nat, line: Frame, further: nat)
    requires Gapless(u, sent, horizon) && horizon <= further
    ensures Gapless(u, sent + [line], further)
  {
    var n := LineCount(u.published);
    assert (sent + [line])[u.joined..u.joined + n] == sent[u.joined..u.joined + n];
  }

  /** A subscriber of an open channel takes the next line. */
  lemma GaplessTakes(u: Subscriber, sent: seq<Frame>, line: Frame)
    requires u.joined <= |sent| && u.published == sent[u.joined..] && LinesOnly(sent) && line.Line?
    ensures u.published + [line] == (sent + [line])[u.joined..]
    ensures Gapless(u.(published := u.published + [line]), sent + [line], |sent| + 1)
  {
    var all := sent + [line];
    assert u.published + [line] == all[u.joined..];
    assert LinesOnly(all);
    assert all[u.joined..] == all[u.joined..|all|];
  }

  /** ... or the end. */
  lemma GaplessEnds(u: Subscriber, sent: seq<Frame>, end: Frame)
    requires u.joined <= |sent| && u.published == sent[u.joined..] && LinesOnly(sent) && end.End?
    ensures Gapless(u.(published := u.published + [end]), sent, |sent|)
  {
    var n := |u.published|;
    assert (u.published + [end])[..n] == u.published;
    assert sent[u.joined..u.joined + n] == sent[u.joined..];
  }

  lemma GaplessIgnores(u: Subscriber, v: Subscriber, sent: seq<Frame>, horizon: nat)
    requires Gapless(u, sent, horizon) && v.joined == u.joined && v.published == u.published
    ensures Gapless(v, sent, horizon)
  {
  }

  lemma PublishFine(s: Stream, line: Frame, x: nat)
    requires Inv(s) && line.Line?
    ensures SubscriberFine(ApplyPublish(s, line), x)
  {
    assert SubscriberFine(s, x);
    if x in s.subscribers {
      var u := s.subscribers[x];
      if s.channel.end.Some? {
        GaplessGrows(u, s.sent, Horizon(s), line, Horizon(s));
      } else if x in s.channel.queues {
        OfferConserved(u, s.channel.queues[x], line);
        GaplessTakes(u, s.sent, line);
        GaplessIgnores(u.(published := u.published + [line]), Noted(u, s.channel.queues[x], line),
                       s.sent + [line], |s.sent| + 1);
      } else {
        GaplessGrows(u, s.sent, Horizon(s), line, |s.sent| + 1);
      }
    }
  }

  lemma CloseFine(s: Stream, end: Frame, x: nat)
    requires Inv(s) && end.End?
    ensures SubscriberFine(ApplyClose(s, end), x)
  {
    assert SubscriberFine(s, x);
    if s.channel.end.None? && x in s.subscribers && x in s.channel.queues {
      var u := s.subscribers[x];
      OfferConserved(u, s.channel.queues[x], end);
      GaplessEnds(u, s.sent, end);
      GaplessIgnores(u.(published := u.published + [end]), Noted(u, s.channel.queues[x], end), s.sent, |s.sent|);
    }
  }

  lemma LatecomerFine(end: Frame, sent: seq<Frame>, horizon: nat)
    requires end.End?
    ensures Conserved(Subscriber(|sent|, [end], [end], 0, 0), [])
    ensures Gapless(Subscriber(|sent|, [end], [end], 0, 0), sent, horizon)
  {
    SubsequenceTake([], [], end);
    assert [] + [end] == [end] + [] == [end];
    assert [end][..0] == sent[|sent|..|sent|];
  }

  lemma SubscribeFine(s: Stream, y: nat, x: nat)
    requires Inv(s) && y !in s.subscribers
    ensures SubscriberFine(ApplySubscribe(s, y), x)
  {
    assert SubscriberFine(s, x);
    if x == y {
      if s.channel.end.Some? {
        LatecomerFine(s.channel.end.value, s.sent, Horizon(s));
      }
    }
  }

  lemma GetFine(s: Stream, y: nat, x: nat)
    requires Inv(s) && Can(s, Get(y))
    ensures SubscriberFine(ApplyGet(s, y), x)
  {
    assert SubscriberFine(s, x);
    if x == y {
      var q, u := s.channel.queues[x], s.subscribers[x];
      assert (u.delivered + [q[0]]) + q[1..] == u.delivered + q;
      GaplessIgnores(u, u.(delivered := u.delivered + [q[0]]), s.sent, Horizon(s));
    }
  }

  lemma {:induction false} SubsequencePrefix(a: seq<Frame>, b: seq<Frame>, n: nat)
    requires Subsequence(a, b) && n <= |a|
    ensures Subsequence(a[..n], b)
    decreases |b|
  {
    if n < |a| {
      var l, k := |a| - 1, |b| - 1;
      if Subsequence(a, b[..k]) {
        SubsequencePrefix(a, b[..k], n);
      } else {
        SubsequencePrefix(a[..l], b[..k], n);
        assert a[..l][..n] == a[..n];
      }
      if n > 0 {
        assert Subsequence(a[..n], b[..k]);
      }
    } else {
      assert a[..n] == a;
    }
  }

  lemma LeaveConserved(u: Subscriber, q: seq<Frame>)
    requires Conserved(u, q) && u.abandoned == 0
    ensures Conserved(u.(abandoned := |q|), [])
  {
    SubsequencePrefix(u.delivered + q, u.published, |u.delivered|);
    assert (u.delivered + q)[..|u.delivered|] == u.delivered == u.delivered + [];
    assert |q| == 0 ==> u.delivered + q == u.delivered;
  }

  lemma UnsubscribeFine(s: Stream, y: nat, x: nat)
    requires Inv(s) && Can(s, Unsubscribe(y))
    ensures SubscriberFine(ApplyUnsubscribe(s, y), x)
  {
    assert SubscriberFine(s, x);
    if x == y {
      var q, u := s.channel.queues[x], s.subscribers[x];
      LeaveConserved(u, q);
      GaplessIgnores(u, u.(abandoned := |q|), s.sent, Horizon(s));
    }
  }

  lemma MoveKeeps(s: Stream, move: Move)
    requires Inv(s) && Can(s, move)
    ensures Inv(Apply(s, move))
  {
    forall x: nat ensures SubscriberFine(Apply(s, move), x) {
      match move
      case Subscribe(y) => SubscribeFine(s, y, x);
      case Publish(line) => PublishFine(s, line, x);
      case Close(end) => CloseFine(s, end, x);
      case Get(y) => GetFine(s, y, x);
      case Unsubscribe(y) => UnsubscribeFine(s, y, x);
    }
  }

  lemma {:induction false} EveryReachableStream(moves: seq<Move>)
    requires Possible(moves)
    ensures Inv(After(moves))
    decreases |moves|
  {
    if |moves| == 0 {
      forall x: nat ensures SubscriberFine(FRESH, x) {}
    } else {
      var n := |moves| - 1;
      EveryReachableStream(moves[..n]);
      MoveKeeps(After(moves[..n]), moves[n]);
    }
  }

  /** For every subscriber over every interleaving: delivered plus queued is an in-order
      subsequence of what was published since it joined; published is delivered plus queued
      plus dropped plus what it walked away from; and at most one end frame comes out, with
      nothing after it. */
  lemma {:induction false} EverySubscriber(moves: seq<Move>, x: nat)
    requires Possible(moves) && x in After(moves).subscribers
    ensures var s := After(moves);
            var u, q := s.subscribers[x], Queued(s, x);
            && Subsequence(u.delivered + q, u.published)
            && |u.published| == |u.delivered| + |q| + u.dropped + u.abandoned
            && EndsOnce(u.delivered + q)
  {
    EveryReachableStream(moves);
    var s := After(moves);
    assert SubscriberFine(s, x);
    SubsequenceEnds(s.subscribers[x].delivered + Queued(s, x), s.subscribers[x].published);
  }

  /** A frame is dropped exactly by a publish or close on an open channel that finds the
      subscriber's queue holding 1024 frames. */
  lemma {:induction false} DropsExactlyWhenFull(s: Stream, move: Move, x: nat)
    requires Inv(s) && Can(s, move) && x in s.subscribers
    ensures x in Apply(s, move).subscribers
    ensures Apply(s, move).subscribers[x].dropped ==
            s.subscribers[x].dropped +
            (if (move.Publish? || move.Close?) && s.channel.end.None? && |Queued(s, x)| == 1024 then 1 else 0)
  {
    assert SubscriberFine(s, x);
  }

  lemma EndedStep(s: Stream, move: Move, x: nat)
    requires Inv(s) && Can(s, move) && s.channel.end.Some? && x in s.subscribers
    ensures Apply(s, move).channel.end == s.channel.end
    ensures x in Apply(s, move).subscribers && Apply(s, move).subscribers[x].published == s.subscribers[x].published
  {
    assert SubscriberFine(s, x);
  }

  lemma LastMove(moves: seq<Move>, more: seq<Move>)
    requires Possible(moves + more) && |more| > 0
    ensures var front := moves + more[..|more| - 1];
            && Possible(front) && Can(After(front), more[|more| - 1])
            && After(moves + more) == Apply(After(front), more[|more| - 1])
  {
    var all := moves + more;
    assert all[..|all| - 1] == moves + more[..|more| - 1];
  }

  /** Once a channel has ended it stays ended, with the same end frame, and offers nobody
      anything again, whatever follows: a retry's output and a second close reach no one, and
      who joins later is replayed that end frame alone. */
  lemma {:induction false} EndedForGood(moves: seq<Move>, more: seq<Move>, x: nat)
    requires Possible(moves) && Possible(moves + more) && After(moves).channel.end.Some?
    requires x in After(moves + more).subscribers
    ensures After(moves + more).channel.end == After(moves).channel.end
    ensures After(moves + more).subscribers[x].published ==
            if x in After(moves).subscribers then After(moves).subscribers[x].published
            else [After(moves).channel.end.value]
    decreases |more|
  {
    if |more| == 0 {
      assert moves + more == moves;
    } else {
      var m := |more| - 1;
      LastMove(moves, more);
      EveryReachableStream(moves + more[..m]);
      EndStays(moves, more[..m]);
      if x in After(moves + more[..m]).subscribers {
        EndedForGood(moves, more[..m], x);
        EndedStep(After(moves + more[..m]), more[m], x);
      } else {
        if x in After(moves).subscribers {
          SubscribersStay(moves, more[..m], x);
        }
        LatecomerReplay(After(moves + more[..m]), more[m], x);
      }
    }
  }

  lemma LatecomerReplay(s: Stream, move: Move, x: nat)
    requires Inv(s) && Can(s, move) && s.channel.end.Some?
    requires x !in s.subscribers && x in Apply(s, move).subscribers
    ensures Apply(s, move).channel.end == s.channel.end
    ensures Apply(s, move).subscribers[x].published == [s.channel.end.value]
  {
  }

  lemma {:induction false} EndStays(moves: seq<Move>, more: seq<Move>)
    requires Possible(moves) && Possible(moves + more) && After(moves).channel.end.Some?
    ensures After(moves + more).channel.end == After(moves).channel.end
    decreases |more|
  {
    if |more| == 0 {
      assert moves + more == moves;
    } else {
      LastMove(moves, more);
      EndStays(moves, more[..|more| - 1]);
    }
  }

  lemma {:induction false} SubscribersStay(moves: seq<Move>, more: seq<Move>, x: nat)
    requires Possible(moves) && Possible(moves + more) && x in After(moves).subscribers
    ensures x in After(moves + more).subscribers
    decreases |more|
  {
    if |more| == 0 {
      assert moves + more == moves;
    } else {
      LastMove(moves, more);
      SubscribersStay(moves, more[..|more| - 1], x);
    }
  }

  // ---- who gets the end frame ----

  lemma NoEndYet(s: Stream, x: nat)
    requires Inv(s) && x in s.channel.queues && s.channel.end.None?
    ensures x in s.subscribers && LinesOnly(Got(s, x))
  {
    assert SubscriberFine(s, x);
    var u := s.subscribers[x];
    assert LinesOnly(s.sent[u.joined..]);
    SubsequenceLines(Got(s, x), u.published);
  }

  lemma CloseAppends(s: Stream, end: Frame, x: nat)
    requires Inv(s) && x in s.channel.queues && s.channel.end.None? && end.End?
    ensures x in s.subscribers && x in ApplyClose(s, end).subscribers && x in ApplyClose(s, end).channel.queues
    ensures Got(ApplyClose(s, end), x) ==
            if |Queued(s, x)| < QUEUE_SIZE then Got(s, x) + [end] else Got(s, x)
  {
    assert SubscriberFine(s, x);
  }

  lemma EndedKeepsGot(s: Stream, move: Move, x: nat)
    requires Inv(s) && Can(s, move) && s.channel.end.Some? && x in s.channel.queues && move != Unsubscribe(x)
    ensures x in s.subscribers && x in Apply(s, move).channel.queues && x in Apply(s, move).subscribers
    ensures Got(Apply(s, move), x) == Got(s, x)
  {
    assert SubscriberFine(s, x);
    if move == Get(x) {
      var q, u := s.channel.queues[x], s.subscribers[x];
      assert (u.delivered + [q[0]]) + q[1..] == u.delivered + q;
    }
  }

  lemma {:induction false} GotStays(moves: seq<Move>, more: seq<Move>, x: nat)
    requires Possible(moves) && Possible(moves + more) && After(moves).channel.end.Some?
    requires x in After(moves).channel.queues && x in After(moves).subscribers && Unsubscribe(x) !in more
    ensures x in After(moves + more).channel.queues && x in After(moves + more).subscribers
    ensures Got(After(moves + more), x) == Got(After(moves), x)
    decreases |more|
  {
    if |more| == 0 {
      assert moves + more == moves;
    } else {
      var m := |more| - 1;
      LastMove(moves, more);
      GotStays(moves, more[..m], x);
      EndStays(moves, more[..m]);
      EveryReachableStream(moves + more[..m]);
      EndedKeepsGot(After(moves + more[..m]), more[m], x);
    }
  }

  /** Over every history: a subscriber that is there when the channel is closed, and does not
      leave, gets the end frame, sooner or later, if and only if its queue had room then. */
  lemma {:induction false} EndArrivesExactlyWhen(moves: seq<Move>, end: Frame, more: seq<Move>, x: nat)
    requires Possible(moves) && Possible((moves + [Close(end)]) + more)
    requires x in After(moves).channel.queues && After(moves).channel.end.None? && Unsubscribe(x) !in more
    ensures x in After((moves + [Close(end)]) + more).subscribers
    ensures end in Got(After((moves + [Close(end)]) + more), x) <==> |Queued(After(moves), x)| < 1024
  {
    var closed := moves + [Close(end)];
    PossiblePrefix(closed, more);
    assert closed[..|moves|] == moves;
    EveryReachableStream(moves);
    NoEndYet(After(moves), x);
    CloseAppends(After(moves), end, x);
    GotStays(closed, more, x);
  }

  lemma {:induction false} PossiblePrefix(moves: seq<Move>, more: seq<Move>)
    requires Possible(moves + more)
    ensures Possible(moves)
    decreases |more|
  {
    if |more| == 0 {
      assert moves + more == moves;
    } else {
      LastMove(moves, more);
      PossiblePrefix(moves, more[..|more| - 1]);
    }
  }

  // ---- a subscriber that never learns of the end ----

  /** Subscriber 0 joins, and `n` lines are published while it reads nothing. */
  function Unread(n: nat): seq<Move> {
    if n == 0 then [Subscribe(0)] else Unread(n - 1) + [Publish(Line(n - 1, ""))]
  }

  lemma MoveAdd(moves: seq<Move>, move: Move)
    requires Possible(moves) && Can(After(moves), move)
    ensures Possible(moves + [move]) && After(moves + [move]) == Apply(After(moves), move)
  {
    assert (moves + [move])[..|moves|] == moves;
  }

  lemma {:induction false} UnreadFills(n: nat)
    requires n <= QUEUE_SIZE
    ensures Possible(Unread(n))
    ensures var s := After(Unread(n));
            s.channel.end.None? && 0 in s.channel.queues && |Queued(s, 0)| == n
  {
    if n == 0 {
      MoveAdd([], Subscribe(0));
      assert [] + [Subscribe(0)] == [Subscribe(0)];
    } else {
      UnreadFills(n - 1);
      MoveAdd(Unread(n - 1), Publish(Line(n - 1, "")));
    }
  }

  /** 1024 unread lines, and the end frame is not among what the subscriber gets, however long it
      goes on reading. */
  lemma {:induction false} FullQueueMissesTheEnd(end: Frame, more: seq<Move>)
    requires end.End? && Unsubscribe(0) !in more
    ensures var closed := Unread(1024) + [Close(end)];
            && Possible(closed)
            && (Possible(closed + more) ==>
                  0 in After(closed + more).subscribers && end !in Got(After(closed + more), 0))
  {
    UnreadFills(1024);
    MoveAdd(Unread(1024), Close(end));
    if Possible((Unread(1024) + [Close(end)]) + more) {
      EndArrivesExactlyWhen(Unread(1024), end, more, 0);
    }
  }
}
