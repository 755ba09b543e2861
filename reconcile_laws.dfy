/** What one pass of `check_new_episodes` does as a whole: the messages it
    sends depend only on the snapshot and the catalog, keys it never visits
    are left alone, it never adds a record, and, when no two records share a
    user and title, it acts record by record, after which a second pass
    finds nothing to do. With duplicate records none of that last part holds,
    as `DuplicateKeyRenotifies` shows. */
module ReconcileLaws {
  import opened Types
  import opened Store
  import opened Catalog
  import opened Bot
  import opened Reconcile

  // ---------------------------------------------------------------------
  // Messages

  /** The messages a pass over `visits` sends, in visiting order. */
  function Notices(visits: seq<Subscription>, c: Catalog): (r: seq<Outgoing>)
    ensures |r| <= |visits|
    decreases |visits|
  {
    if visits == [] then []
    else
      var n := |visits| - 1;
      Notices(visits[..n], c) + Notify(visits[n], Decide(visits[n], Lookup(c, visits[n])))
  }

  /** The messages neither depend on the state of the store nor on whether
      the writes succeed: a failed write never withholds its message. */
  lemma {:induction false} SentIsNotices(store: seq<Subscription>, visits: seq<Subscription>, c: Catalog, w: set<nat>)
    ensures Run(store, visits, c, w).sent == Notices(visits, c)
    decreases |visits|
  {
    if visits != [] {
      SentIsNotices(store, visits[..|visits| - 1], c, w);
    }
  }

  /** The messages come in the order of the records visited. */
  lemma {:induction false} NoticesAppend(a: seq<Subscription>, b: seq<Subscription>, c: Catalog)
    ensures Notices(a + b, c) == Notices(a, c) + Notices(b, c)
    decreases |b|
  {
    if b == [] {
      assert a + b == a;
    } else {
      var n := |b| - 1;
      assert (a + b)[..|a + b| - 1] == a + b[..n];
      assert (a + b)[|a + b| - 1] == b[n];
      NoticesAppend(a, b[..n], c);
    }
  }

  /** A pass that `find` fails on does nothing; one whose cursor breaks
      before the first record does nothing either. */
  lemma {:induction false} PassSentAreNotices(store: seq<Subscription>, c: Catalog, faults: Faults)
    ensures Pass(store, c, faults).sent == Notices(Visited(store, faults), c)
    ensures faults.findFails ==> Pass(store, c, faults) == Outcome(store, [])
    ensures faults.cursorBreaksAt == Some(0) ==> Pass(store, c, faults) == Outcome(store, [])
  {
    SentIsNotices(store, Visited(store, faults), c, faults.writeFails);
  }

  // ---------------------------------------------------------------------
  // The frame of a pass

  predicate VisitsKey(visits: seq<Subscription>, u: int64, a: int32) {
    exists i | 0 <= i < |visits| :: visits[i].userId == u && visits[i].animeId == a
  }

  /** A pass never adds a record, and the records of a user and title it
      never visits stay exactly as they were. */
  lemma {:induction false} RunFrame(store: seq<Subscription>, visits: seq<Subscription>, c: Catalog, w: set<nat>)
    ensures |Run(store, visits, c, w).store| <= |store|
    ensures forall u: int64, a: int32 :: !VisitsKey(visits, u, a) ==>
              Select(Run(store, visits, c, w).store, ByUserAnime(u, a)) == Select(store, ByUserAnime(u, a))
    decreases |visits|
  {
    if visits != [] {
      var n := |visits| - 1;
      var before := Run(store, visits[..n], c, w);
      var sub := visits[n];
      var d := Decide(sub, Lookup(c, sub));
      RunFrame(store, visits[..n], c, w);
      ApplyEffect(before.store, sub, d, n in w);
      forall u: int64, a: int32 | !VisitsKey(visits, u, a)
        ensures Select(Run(store, visits, c, w).store, ByUserAnime(u, a)) == Select(store, ByUserAnime(u, a))
      {
        assert (u, a) != (sub.userId, sub.animeId);
        assert !VisitsKey(visits[..n], u, a) by {
          forall i | 0 <= i < n ensures !(visits[..n][i].userId == u && visits[..n][i].animeId == a) {
            assert visits[..n][i] == visits[i];
          }
        }
      }
    }
  }

  // ---------------------------------------------------------------------
  // Record by record, when keys are unique

  /** No two records share a user and a title. */
  predicate UniqueKeys(store: seq<Subscription>) {
    forall i, j | 0 <= i < j < |store| :: !Matches(KeyFilter(store[j]), store[i])
  }

  /** In a collection with unique keys, no record before position `m` has
      the key of the record at `m`. */
  lemma UniqueBefore(store: seq<Subscription>, m: nat)
    requires UniqueKeys(store) && m < |store|
    ensures NoMatch(store[..m], KeyFilter(store[m]))
  {
    forall j | 0 <= j < m ensures !Matches(KeyFilter(store[m]), store[..m][j]) {
      assert store[..m][j] == store[j];
    }
  }

  /** What becomes of one visited record: gone when it was removed, raised
      when an episode aired, as it was otherwise or when the write failed. */
  function Kept(sub: Subscription, d: Decision, fails: bool): (r: seq<Subscription>)
    ensures |r| <= 1
    ensures r == [] <==> !fails && d == Remove
    ensures r != [] ==> Matches(KeyFilter(sub), r[0]) && r[0].animeName == sub.animeName
  {
    if fails then [sub]
    else
      match d
      case Skip => [sub]
      case Remove => []
      case Advance(e) => [sub.(lastEpisode := e)]
  }

  /** `after` is `before` with an episode count at least as high. */
  predicate Raised(before: Subscription, after: Subscription) {
    && after.userId == before.userId && after.animeId == before.animeId
    && after.animeName == before.animeName && after.lastEpisode >= before.lastEpisode
  }

  /** The records that come out of visiting the records `visits` of the
      collection, in order; visit `i`'s write fails when `i in w`. */
  function Outcomes(visits: seq<Subscription>, c: Catalog, w: set<nat>): seq<Subscription>
    decreases |visits|
  {
    if visits == [] then []
    else
      var n := |visits| - 1;
      Outcomes(visits[..n], c, w) + Kept(visits[n], Decide(visits[n], Lookup(c, visits[n])), n in w)
  }

  /** Outcomes keep their keys: a key none of `xs` has, none of the outcomes has. */
  lemma {:induction false} OutcomesNoMatch(xs: seq<Subscription>, c: Catalog, w: set<nat>, sub: Subscription)
    requires NoMatch(xs, KeyFilter(sub))
    ensures NoMatch(Outcomes(xs, c, w), KeyFilter(sub))
    decreases |xs|
  {
    if xs != [] {
      var n := |xs| - 1;
      assert forall j | 0 <= j < n :: xs[..n][j] == xs[j];
      OutcomesNoMatch(xs[..n], c, w, sub);
      var k := Kept(xs[n], Decide(xs[n], Lookup(c, xs[n])), n in w);
      assert !Matches(KeyFilter(sub), xs[n]);
      assert forall j | 0 <= j < |k| :: !Matches(KeyFilter(sub), k[j]);
    }
  }

  /** One visit to the record `sub` standing right after `done`, which holds
      no record of its key, replaces it by what `Kept` says. */
  lemma StepAt(done: seq<Subscription>, sub: Subscription, rest: seq<Subscription>, d: Decision, fails: bool)
    requires NoMatch(done, KeyFilter(sub))
    ensures Apply(done + [sub] + rest, sub, d, fails) == done + Kept(sub, d, fails) + rest
  {
    var s := done + [sub] + rest;
    var p := |done|;
    assert IsFirstMatch(s, KeyFilter(sub), p) by {
      assert forall j | 0 <= j < p :: s[j] == done[j];
      assert s[p] == sub;
    }
    assert s[..p] == done && s[p + 1..] == rest;
    if !fails && d.Advance? {
      assert s[p := sub.(lastEpisode := d.episode)] == done + [sub.(lastEpisode := d.episode)] + rest;
    }
  }

  /** After the first `n` visits of a pass over a collection with unique
      keys, the visited records have been replaced by their outcomes and the
      rest are untouched. */
  lemma {:induction false} RunPerRecord(store: seq<Subscription>, n: nat, c: Catalog, w: set<nat>)
    requires UniqueKeys(store) && n <= |store|
    ensures Run(store, store[..n], c, w).store == Outcomes(store[..n], c, w) + store[n..]
  {
    if n == 0 {
      assert store[..0] == [] && store[0..] == store;
    } else {
      RunPerRecord(store, n - 1, c, w);
      UniqueBefore(store, n - 1);
      RunStep(store, n - 1, c, w);
      OutcomesApply(store, n - 1, c, w);
    }
  }

  /** The visit to record `m`, made after the records before it have become
      their outcomes, turns it into its own outcome. */
  lemma OutcomesApply(store: seq<Subscription>, m: nat, c: Catalog, w: set<nat>)
    requires m < |store| && NoMatch(store[..m], KeyFilter(store[m]))
    ensures Apply(Outcomes(store[..m], c, w) + store[m..], store[m], Decide(store[m], Lookup(c, store[m])), m in w) ==
              Outcomes(store[..m + 1], c, w) + store[m + 1..]
  {
    var sub := store[m];
    var done := Outcomes(store[..m], c, w);
    var rest := store[m + 1..];
    OutcomesStep(store, m, c, w);
    OutcomesNoMatch(store[..m], c, w, sub);
    DropAt(store, m);
    AppendAssoc(done, [sub], rest);
    StepAt(done, sub, rest, Decide(sub, Lookup(c, sub)), m in w);
  }

  lemma DropAt<T>(s: seq<T>, m: nat)
    requires m < |s|
    ensures s[m..] == [s[m]] + s[m + 1..]
  {
  }

  lemma OutcomesStep(store: seq<Subscription>, m: nat, c: Catalog, w: set<nat>)
    requires m < |store|
    ensures Outcomes(store[..m + 1], c, w) ==
              Outcomes(store[..m], c, w) + Kept(store[m], Decide(store[m], Lookup(c, store[m])), m in w)
  {
    assert store[..m + 1][..m] == store[..m];
  }

  /** A whole pass, faults included, over a collection with unique keys
      works record by record: the visited prefix is replaced by its
      outcomes, and what the cursor never reached is kept. */
  lemma PassPerRecord(store: seq<Subscription>, c: Catalog, faults: Faults)
    requires UniqueKeys(store)
    ensures var v := Visited(store, faults);
      Pass(store, c, faults).store == Outcomes(v, c, faults.writeFails) + store[|v|..]
  {
    var v := Visited(store, faults);
    assert v == store[..|v|];
    RunPerRecord(store, |v|, c, faults.writeFails);
  }

  /** Every outcome is one of the visited records, raised or kept. */
  lemma {:induction false} OutcomesRaised(xs: seq<Subscription>, c: Catalog, w: set<nat>)
    ensures forall x | x in Outcomes(xs, c, w) :: exists i | 0 <= i < |xs| :: Raised(xs[i], x)
    decreases |xs|
  {
    if xs != [] {
      var n := |xs| - 1;
      OutcomesRaised(xs[..n], c, w);
      forall x | x in Outcomes(xs, c, w) ensures exists i | 0 <= i < |xs| :: Raised(xs[i], x) {
        if x in Outcomes(xs[..n], c, w) {
          var i :| 0 <= i < n && Raised(xs[..n][i], x);
          assert xs[..n][i] == xs[i];
        } else {
          assert Raised(xs[n], x);
        }
      }
    }
  }

  /** With unique keys a pass never adds a record and never lowers an
      episode count: every record afterwards is a record from before, with
      the same user, title and name and at least its count. */
  lemma PassNeverLowers(store: seq<Subscription>, c: Catalog, faults: Faults)
    requires UniqueKeys(store)
    ensures forall x | x in Pass(store, c, faults).store :: exists i | 0 <= i < |store| :: Raised(store[i], x)
  {
    var v := Visited(store, faults);
    PassPerRecord(store, c, faults);
    OutcomesRaised(v, c, faults.writeFails);
    RaisedPrefix(store, v, Outcomes(v, c, faults.writeFails));
  }

  lemma RaisedPrefix(store: seq<Subscription>, v: seq<Subscription>, done: seq<Subscription>)
    requires v <= store
    requires forall x | x in done :: exists i | 0 <= i < |v| :: Raised(v[i], x)
    ensures forall x | x in done + store[|v|..] :: exists i | 0 <= i < |store| :: Raised(store[i], x)
  {
    forall x | x in done + store[|v|..] ensures exists i | 0 <= i < |store| :: Raised(store[i], x) {
      if x in done {
        var i :| 0 <= i < |v| && Raised(v[i], x);
        assert v[i] == store[i];
      } else {
        var j :| 0 <= j < |store[|v|..]| && store[|v|..][j] == x;
        assert Raised(store[|v| + j], x);
      }
    }
  }

  // ---------------------------------------------------------------------
  // A second pass

  /** Once a record has been brought up to date, the same catalog calls for
      nothing more. */
  lemma KeptSettled(sub: Subscription, c: Catalog)
    ensures forall x | x in Kept(sub, Decide(sub, Lookup(c, sub)), false) :: Settled(x, c)
  {
    var d := Decide(sub, Lookup(c, sub));
    if d.Advance? {
      var x := sub.(lastEpisode := d.episode);
      assert Lookup(c, x) == Lookup(c, sub);
    }
  }

  lemma {:induction false} OutcomesSettled(xs: seq<Subscription>, c: Catalog)
    ensures forall x | x in Outcomes(xs, c, {}) :: Settled(x, c)
    decreases |xs|
  {
    if xs != [] {
      var n := |xs| - 1;
      OutcomesSettled(xs[..n], c);
      KeptSettled(xs[n], c);
    }
  }

  /** A pass over records that are all settled changes nothing and says
      nothing, whatever fails. */
  lemma {:induction false} SettledRunInert(store: seq<Subscription>, visits: seq<Subscription>, c: Catalog, w: set<nat>)
    requires forall v | v in visits :: Settled(v, c)
    ensures Run(store, visits, c, w) == Outcome(store, [])
    decreases |visits|
  {
    if visits != [] {
      var n := |visits| - 1;
      assert forall v | v in visits[..n] :: v in visits;
      SettledRunInert(store, visits[..n], c, w);
      assert visits[n] in visits;
    }
  }

  /** With unique keys, a pass that meets no failure leaves nothing to do:
      a second pass against the same catalog, whatever fails in it, neither
      writes nor sends. */
  lemma QuietSecondPass(store: seq<Subscription>, c: Catalog, later: Faults)
    requires UniqueKeys(store)
    ensures var first := Pass(store, c, NO_FAULTS);
      Pass(first.store, c, later) == Outcome(first.store, [])
  {
    var first := Pass(store, c, NO_FAULTS);
    PassPerRecord(store, c, NO_FAULTS);
    assert store[|store|..] == [];
    assert first.store == Outcomes(store, c, {});
    OutcomesSettled(store, c);
    var v := Visited(first.store, later);
    assert forall x | x in v :: x in first.store;
    SettledRunInert(first.store, v, c, later.writeFails);
  }

  // ---------------------------------------------------------------------
  // Duplicate records

  /** A catalog in which every name finds the same title, still airing,
      with four episodes out. */
  const AIRING := AnimeResponse(7, "Frieren", None, Some(12), Some(4), "ongoing", None, None, None)
  const AIRING_CATALOG := Catalog(_ => Ok([AIRING]), _ => Ok(AIRING))

  /** The catalog above finds every name and reports episode 4 as aired. */
  lemma AiringDecides(sub: Subscription)
    ensures Decide(sub, Lookup(AIRING_CATALOG, sub)) == if sub.lastEpisode < 4 then Advance(4) else Skip
  {
    assert Lookup(AIRING_CATALOG, sub) == Ok(Some(AIRING));
  }

  /** A two-visit pass over two records of one key, the first of them
      settled and the second behind: the second visit's write lands on the
      first record. */
  lemma PassOfTwo(x: Subscription, y: Subscription, c: Catalog, e: int32)
    requires Matches(KeyFilter(y), x)
    requires Decide(x, Lookup(c, x)) == Skip && Decide(y, Lookup(c, y)) == Advance(e)
    ensures Pass([x, y], c, NO_FAULTS) == Outcome([x.(lastEpisode := e), y], Notify(y, Advance(e)))
  {
    var s := [x, y];
    VisitedUpTo(s, NO_FAULTS, 2);
    FirstVisitSettled(s, c, {});
    RunStep(s, 1, c, {});
    assert IsFirstMatch(s, KeyFilter(y), 0);
    assert UpdateFirst(s, KeyFilter(y), e) == [x.(lastEpisode := e), y];
  }

  /** A first visit that calls for nothing leaves the store and sends nothing. */
  lemma FirstVisitSettled(s: seq<Subscription>, c: Catalog, w: set<nat>)
    requires |s| > 0 && Settled(s[0], c)
    ensures Run(s, s[..1], c, w) == Outcome(s, [])
  {
    RunStep(s, 0, c, w);
    assert s[..0] == [];
  }

  /** Two records of one user and title, for example from subscribing
      twice: `update_one` always rewrites the first, so a first record whose
      count 5 is ahead of the catalog's 4 aired episodes is moved back to 4, and the stale second record
      announces episode 4 again on every pass. */
  lemma DuplicateKeyRenotifies()
    ensures var ahead := Subscription(1, 7, "Frieren", 5);
      var behind := Subscription(1, 7, "Frieren", 3);
      var first := Pass([ahead, behind], AIRING_CATALOG, NO_FAULTS);
      var second := Pass(first.store, AIRING_CATALOG, NO_FAULTS);
      && !UniqueKeys([ahead, behind])
      && first.store == [ahead.(lastEpisode := 4), behind]
      && first.sent == [Outgoing(1, EpisodeAired(4, "Frieren"))]
      && second == first
  {
    var ahead := Subscription(1, 7, "Frieren", 5);
    var behind := Subscription(1, 7, "Frieren", 3);
    var raised := ahead.(lastEpisode := 4);
    AiringDecides(ahead);
    AiringDecides(behind);
    AiringDecides(raised);
    PassOfTwo(ahead, behind, AIRING_CATALOG, 4);
    PassOfTwo(raised, behind, AIRING_CATALOG, 4);
    assert Matches(KeyFilter([ahead, behind][1]), [ahead, behind][0]);
  }
}
