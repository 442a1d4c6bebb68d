/** A schedule's occurrences as a set of instants, and the search for the next one inside
    the seven-day horizon, independent of where the set comes from. */
module FireSearch {
  import opened Prelude

  const HORIZON: int := 7 * DAY

  /** `t` is the first member of `occ` after `after`, and no more than seven days away. */
  ghost predicate IsNext(occ: iset<Instant>, after: Instant, t: Instant) {
    && t in occ
    && after < t <= after + HORIZON
    && forall u | after < u < t :: u !in occ
  }

  ghost function Next(occ: iset<Instant>, after: Instant): (r: Option<Instant>)
    ensures r.Some? ==> IsNext(occ, after, r.value)
  {
    if t: Instant :| IsNext(occ, after, t) then Some(t) else None
  }

  lemma NextIs(occ: iset<Instant>, after: Instant, t: Instant)
    requires IsNext(occ, after, t)
    ensures Next(occ, after) == Some(t)
  {
    var u := Next(occ, after).value;
    assert !(t < u) && !(u < t);
  }

  /** Any member inside the horizon makes the search succeed, so a failure means that there
      is none. */
  lemma {:induction false} NextExists(occ: iset<Instant>, after: Instant, t: Instant)
    requires t in occ && after < t <= after + HORIZON
    ensures Next(occ, after).Some? && Next(occ, after).value <= t
    decreases t - after
  {
    if u: Instant :| after < u < t && u in occ {
      NextExists(occ, after, u);
    } else {
      NextIs(occ, after, t);
    }
  }

  /** Inside the gap before the next occurrence, the search finds that same occurrence. */
  lemma NextSteady(occ: iset<Instant>, after: Instant, later: Instant)
    requires Next(occ, after).Some?
    requires after <= later < Next(occ, after).value
    ensures Next(occ, later) == Next(occ, after)
  {
    NextIs(occ, later, Next(occ, after).value);
  }

  function LastOr(after: Instant, fires: seq<Instant>): Instant {
    if |fires| == 0 then after else fires[|fires| - 1]
  }

  ghost predicate NoneBetween(occ: iset<Instant>, from: Instant, to: Instant) {
    forall u | from < u < to :: u !in occ
  }

  /** The first |fires| members after `after`, in order and with none left out.  It says
      nothing about horizons or about how they were found. */
  ghost predicate FirstMembers(occ: iset<Instant>, after: Instant, fires: seq<Instant>) {
    && (forall i | 0 <= i < |fires| :: after < fires[i] && fires[i] in occ)
    && (forall i, j | 0 <= i < j < |fires| :: fires[i] < fires[j])
    && (forall t | t in occ && after < t <= LastOr(after, fires) :: t in fires)
  }

  lemma FirstMembersAdd(occ: iset<Instant>, after: Instant, front: seq<Instant>, last: Instant)
    requires FirstMembers(occ, after, front)
    requires last in occ && LastOr(after, front) < last && NoneBetween(occ, LastOr(after, front), last)
    ensures FirstMembers(occ, after, front + [last])
  {
    var fires := front + [last];
    forall t | t in occ && after < t <= last ensures t in fires {
      if t <= LastOr(after, front) {
        assert t in front;
      } else if t == last {
        assert fires[|front|] == t;
      }
    }
  }

  lemma FirstMembersPrefix(occ: iset<Instant>, after: Instant, fires: seq<Instant>, n: nat)
    requires FirstMembers(occ, after, fires) && n <= |fires|
    ensures FirstMembers(occ, after, fires[..n])
  {
    forall t | t in occ && after < t <= LastOr(after, fires[..n]) ensures t in fires[..n] {
      var i :| 0 <= i < |fires| && fires[i] == t;
      assert i < n;
      assert fires[..n][i] == t;
    }
  }

  lemma FirstMembersRemove(occ: iset<Instant>, after: Instant, front: seq<Instant>, last: Instant)
    requires FirstMembers(occ, after, front + [last])
    ensures FirstMembers(occ, after, front)
    ensures last in occ && LastOr(after, front) < last && NoneBetween(occ, LastOr(after, front), last)
  {
    var fires := front + [last];
    FirstMembersPrefix(occ, after, fires, |front|);
    assert fires[..|front|] == front;
    assert fires[|front|] == last;
    assert |front| > 0 ==> fires[|front| - 1] == LastOr(after, front);
    forall u | LastOr(after, front) < u < last ensures u !in fires {
      forall i | 0 <= i < |fires| ensures fires[i] != u {
        assert i < |front| - 1 ==> fires[i] < fires[|front| - 1];
      }
    }
    assert LastOr(after, fires) == last;
  }

  /** `to` is the first member after `from`. */
  ghost predicate Follows(occ: iset<Instant>, from: Instant, to: Instant) {
    to in occ && from < to && NoneBetween(occ, from, to)
  }

  /** One pass over the set, member after member. */
  ghost predicate Pass(occ: iset<Instant>, after: Instant, fires: seq<Instant>) {
    |fires| == 0 ||
    var n := |fires| - 1;
    Pass(occ, after, fires[..n]) && Follows(occ, LastOr(after, fires[..n]), fires[n])
  }

  lemma PassAdd(occ: iset<Instant>, after: Instant, fires: seq<Instant>, t: Instant)
    requires Pass(occ, after, fires) && Follows(occ, LastOr(after, fires), t)
    ensures Pass(occ, after, fires + [t])
  {
    assert (fires + [t])[..|fires|] == fires;
  }

  /** A pass leaves nothing out: it is the list of the first members. */
  lemma {:induction false} PassMeans(occ: iset<Instant>, after: Instant, fires: seq<Instant>)
    ensures Pass(occ, after, fires) <==> FirstMembers(occ, after, fires)
    decreases |fires|
  {
    if |fires| > 0 {
      var n := |fires| - 1;
      assert fires == fires[..n] + [fires[n]];
      PassMeans(occ, after, fires[..n]);
      if FirstMembers(occ, after, fires) {
        FirstMembersRemove(occ, after, fires[..n], fires[n]);
      }
      if Pass(occ, after, fires) {
        FirstMembersAdd(occ, after, fires[..n], fires[n]);
      }
    }
  }

  /** Two passes agree as far as both reach. */
  lemma {:induction false} PassUnique(occ: iset<Instant>, after: Instant, a: seq<Instant>, b: seq<Instant>)
    requires Pass(occ, after, a) && Pass(occ, after, b)
    requires |a| <= |b|
    ensures a == b[..|a|]
    decreases |b|
  {
    if |a| > 0 {
      var n, m := |a| - 1, |b| - 1;
      if |a| < |b| {
        PassUnique(occ, after, a, b[..m]);
        assert b[..m][..|a|] == b[..|a|];
      } else {
        PassUnique(occ, after, a[..n], b[..n]);
        assert b[..n][..n] == b[..n];
        assert !(a[n] < b[n]) && !(b[n] < a[n]);
        assert a == a[..n] + [a[n]] && b == b[..n] + [b[n]];
      }
    }
  }

  /** Repeating the search: each result is where the next search starts. */
  ghost function Cursors(occ: iset<Instant>, cursor: Instant, k: nat): (r: Option<seq<Instant>>)
    ensures r.Some? ==> |r.value| == k
    decreases k
  {
    if k == 0 then Some([])
    else
      var front := Cursors(occ, cursor, k - 1);
      if front.None? then None
      else
        var next := Next(occ, LastOr(cursor, front.value));
        if next.None? then None else Some(front.value + [next.value])
  }

  lemma {:induction false} CursorsNever(occ: iset<Instant>, cursor: Instant, k: nat, more: nat)
    requires k <= more && Cursors(occ, cursor, k).None?
    ensures Cursors(occ, cursor, more).None?
    decreases more - k
  {
    if k < more {
      CursorsNever(occ, cursor, k + 1, more);
    }
  }

  /** Restarting the search from each fire gives one pass over the set. */
  lemma {:induction false} CursorsAreFirst(occ: iset<Instant>, cursor: Instant, k: nat)
    requires Cursors(occ, cursor, k).Some?
    ensures Pass(occ, cursor, Cursors(occ, cursor, k).value)
    decreases k
  {
    if k > 0 {
      CursorsAreFirst(occ, cursor, k - 1);
      var fires := Cursors(occ, cursor, k - 1).value;
      PassAdd(occ, cursor, fires, Next(occ, LastOr(cursor, fires)).value);
    }
  }

  /** How long before fires[i] the previous one was. */
  ghost function Gap(after: Instant, fires: seq<Instant>, i: nat): int
    requires i < |fires|
  {
    fires[i] - LastOr(after, fires[..i])
  }

  ghost predicate GapsWithinHorizon(after: Instant, fires: seq<Instant>) {
    forall i: nat | i < |fires| :: Gap(after, fires, i) <= HORIZON
  }

  lemma GapsAdd(after: Instant, front: seq<Instant>, last: Instant)
    ensures GapsWithinHorizon(after, front + [last]) <==>
            GapsWithinHorizon(after, front) && last - LastOr(after, front) <= HORIZON
  {
    var fires := front + [last];
    forall i: nat | i < |front| ensures Gap(after, fires, i) == Gap(after, front, i) {
      assert fires[..i] == front[..i];
    }
    assert fires[..|front|] == front;
    assert Gap(after, fires, |front|) == last - LastOr(after, front);
  }

  /** With nothing between, the search finds `last` exactly when it is near enough. */
  lemma NextAcrossGap(occ: iset<Instant>, from: Instant, last: Instant)
    requires Follows(occ, from, last)
    ensures Next(occ, from) == if last - from <= HORIZON then Some(last) else None
  {
    if last - from <= HORIZON {
      NextIs(occ, from, last);
    }
  }

  /** Every pass is found by restarts, provided no gap exceeds the horizon; with a longer gap
      the restarts fail. */
  lemma {:induction false} OnePassEqualsRestarts(occ: iset<Instant>, after: Instant, fires: seq<Instant>)
    requires Pass(occ, after, fires)
    ensures Cursors(occ, after, |fires|) == if GapsWithinHorizon(after, fires) then Some(fires) else None
    decreases |fires|
  {
    if |fires| > 0 {
      var front, last := fires[..|fires| - 1], fires[|fires| - 1];
      assert fires == front + [last];
      OnePassEqualsRestarts(occ, after, front);
      GapsAdd(after, front, last);
      NextAcrossGap(occ, LastOr(after, front), last);
    }
  }

  /** Started anywhere inside the first gap, the repeated search lists the same members. */
  lemma {:induction false} CursorsSteady(occ: iset<Instant>, cursor: Instant, now: Instant, k: nat)
    requires Next(occ, cursor).Some? && cursor <= now < Next(occ, cursor).value
    ensures Cursors(occ, now, k) == Cursors(occ, cursor, k)
    decreases k
  {
    if k > 0 {
      CursorsSteady(occ, cursor, now, k - 1);
      NextSteady(occ, cursor, now);
    }
  }

  /** Started in the gap before `first`, the search lists `first` and then goes on from there. */
  lemma {:induction false} CursorsThrough(occ: iset<Instant>, now: Instant, first: Instant, k: nat)
    requires Next(occ, now) == Some(first)
    ensures Cursors(occ, now, k + 1) ==
            match Cursors(occ, first, k)
            case None => None
            case Some(rest) => Some([first] + rest)
    decreases k
  {
    if k == 0 {
      assert Cursors(occ, now, 0) == Some([]);
      assert [] + [first] == [first] + [];
    } else {
      CursorsThrough(occ, now, first, k - 1);
      ListedAfter(occ, now, first, k);
    }
  }

  lemma ListedAfter(occ: iset<Instant>, now: Instant, first: Instant, k: nat)
    requires k > 0
    requires Cursors(occ, now, k) ==
             match Cursors(occ, first, k - 1)
             case None => None
             case Some(rest) => Some([first] + rest)
    ensures Cursors(occ, now, k + 1) ==
            match Cursors(occ, first, k)
            case None => None
            case Some(rest) => Some([first] + rest)
  {
    if Cursors(occ, first, k - 1).Some? {
      var rest := Cursors(occ, first, k - 1).value;
      assert LastOr(now, [first] + rest) == LastOr(first, rest);
      var next := Next(occ, LastOr(first, rest));
      if next.Some? {
        assert ([first] + rest) + [next.value] == [first] + (rest + [next.value]);
      }
    }
  }

  /** Every list starts with what a single search finds. */
  lemma {:induction false} CursorsHead(occ: iset<Instant>, now: Instant, k: nat)
    requires k > 0 && Cursors(occ, now, k).Some?
    ensures Next(occ, now) == Some(Cursors(occ, now, k).value[0])
    decreases k
  {
    if k == 1 {
      assert Cursors(occ, now, 0) == Some([]);
    } else {
      CursorsHead(occ, now, k - 1);
    }
  }

  /** Advancing a stored cursor: a search that fails leaves it where it is. */
  ghost function Advanced(occ: iset<Instant>, cursor: Instant): Instant {
    var next := Next(occ, cursor);
    if next.Some? then next.value else cursor
  }

  ghost function Stored(occ: iset<Instant>, cursor: Instant, fires: nat): Instant
    decreases fires
  {
    if fires == 0 then cursor else Advanced(occ, Stored(occ, cursor, fires - 1))
  }

  ghost predicate Stalls(occ: iset<Instant>, cursor: Instant, k: nat) {
    exists i: nat | i < k :: Stored(occ, cursor, i + 1) == Stored(occ, cursor, i)
  }

  /** A cursor that stood still once stands still for good. */
  lemma {:induction false} StallsForGood(occ: iset<Instant>, cursor: Instant, i: nat, j: nat)
    requires i <= j && Stored(occ, cursor, i + 1) == Stored(occ, cursor, i)
    ensures Stored(occ, cursor, j + 1) == Stored(occ, cursor, j) == Stored(occ, cursor, i)
    decreases j
  {
    if i < j {
      StallsForGood(occ, cursor, i, j - 1);
    }
  }

  lemma {:induction false} CursorsAreStored(occ: iset<Instant>, cursor: Instant, k: nat)
    requires Cursors(occ, cursor, k).Some?
    ensures LastOr(cursor, Cursors(occ, cursor, k).value) == Stored(occ, cursor, k)
    ensures forall i | 0 <= i < k :: Cursors(occ, cursor, k).value[i] == Stored(occ, cursor, i + 1)
    decreases k
  {
    if k > 0 {
      CursorsAreStored(occ, cursor, k - 1);
    }
  }

  lemma {:induction false} CursorsFailWhenStalled(occ: iset<Instant>, cursor: Instant, k: nat)
    ensures Cursors(occ, cursor, k).None? <==> Stalls(occ, cursor, k)
    decreases k
  {
    if k > 0 {
      CursorsFailWhenStalled(occ, cursor, k - 1);
      assert Stalls(occ, cursor, k) <==>
             Stalls(occ, cursor, k - 1) || Stored(occ, cursor, k - 1 + 1) == Stored(occ, cursor, k - 1);
      if Cursors(occ, cursor, k - 1).Some? {
        CursorsAreStored(occ, cursor, k - 1);
      }
    }
  }

  /** A pass that looks at every member of `all` and keeps those in `occ`. */
  ghost predicate Sifted(all: iset<Instant>, occ: iset<Instant>, after: Instant,
                         walked: seq<Instant>, out: seq<Instant>)
  {
    && Pass(all, after, walked)
    && Pass(occ, after, out)
    && LastOr(after, out) <= LastOr(after, walked)
    && NoneBetween(occ, LastOr(after, out), LastOr(after, walked) + 1)
  }

  lemma SiftedAdd(all: iset<Instant>, occ: iset<Instant>, after: Instant,
                  walked: seq<Instant>, out: seq<Instant>, t: Instant)
    requires Sifted(all, occ, after, walked, out)
    requires Follows(all, LastOr(after, walked), t) && NoneBetween(occ, LastOr(after, walked), t)
    ensures Sifted(all, occ, after, walked + [t], if t in occ then out + [t] else out)
  {
    PassAdd(all, after, walked, t);
    assert NoneBetween(occ, LastOr(after, out), t);
    if t in occ {
      PassAdd(occ, after, out, t);
    }
  }
}
