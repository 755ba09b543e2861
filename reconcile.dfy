/** The episode-reconciliation pass `check_new_episodes` (src/api.rs): for
    every subscription in a snapshot of the collection, look its title up by
    name, remove it when the title is released, raise its episode count when
    more episodes have aired, and tell the user either way. Store and
    notification results are discarded, so a failed write never stops the
    pass and never holds back the message. */
module Reconcile {
  import opened Types
  import opened Store
  import opened Catalog
  import opened Bot

  const RELEASED := "released"

  /** What one visited subscription calls for. */
  datatype Decision = Skip | Remove | Advance(episode: int32)

  function Lookup(c: Catalog, sub: Subscription): Result<Option<AnimeResponse>> {
    CheckAnimeExists(c, sub.animeName)
  }

  /** The decision table of one visit, given what the lookup answered. */
  function Decide(sub: Subscription, found: Result<Option<AnimeResponse>>): (d: Decision)
    ensures d == Remove <==> found.Ok? && found.value.Some? && found.value.value.status == RELEASED
    ensures d.Advance? <==>
              found.Ok? && found.value.Some? && found.value.value.status != RELEASED &&
              found.value.value.episodesAired.Some? && found.value.value.episodesAired.value > sub.lastEpisode
    ensures d.Advance? ==> found.value.value.episodesAired == Some(d.episode) && d.episode > sub.lastEpisode
  {
    match found
    case Err(_) => Skip
    case Ok(None) => Skip
    case Ok(Some(anime)) =>
      if anime.status == RELEASED then Remove
      else
        match anime.episodesAired
        case None => Skip
        case Some(aired) => if aired > sub.lastEpisode then Advance(aired) else Skip
  }

  /** The filter both writes use: the visited record's user and title id. */
  function KeyFilter(sub: Subscription): Filter {
    ByUserAnime(sub.userId, sub.animeId)
  }

  /** The catalog says nothing new about this subscription. */
  predicate Settled(sub: Subscription, c: Catalog) {
    Decide(sub, Lookup(c, sub)) == Skip
  }

  function Tail(s: seq<Subscription>): seq<Subscription> {
    if s == [] then [] else s[1..]
  }

  /** The store after the write a decision calls for; a failed write
      changes nothing. */
  function Apply(store: seq<Subscription>, sub: Subscription, d: Decision, fails: bool): seq<Subscription> {
    if fails then store
    else
      match d
      case Skip => store
      case Remove => DeleteFirst(store, KeyFilter(sub))
      case Advance(e) => UpdateFirst(store, KeyFilter(sub), e)
  }

  /** What one visit's write does to the collection: a removal takes out the
      first record of the visited key and no other, an advance changes the
      episode count of that record only, and the records of every other key
      are left as they were. */
  lemma ApplyEffect(store: seq<Subscription>, sub: Subscription, d: Decision, fails: bool)
    ensures var r := Apply(store, sub, d, fails);
      && (d == Skip || fails ==> r == store)
      && (forall u: int64, a: int32 :: (u, a) != (sub.userId, sub.animeId) ==>
            Select(r, ByUserAnime(u, a)) == Select(store, ByUserAnime(u, a)))
      && (!fails && d == Remove ==>
            && Select(r, KeyFilter(sub)) == Tail(Select(store, KeyFilter(sub)))
            && |r| == |store| - if Select(store, KeyFilter(sub)) == [] then 0 else 1)
      && (!fails && d.Advance? ==>
            && |r| == |store|
            && Select(r, KeyFilter(sub)) ==
                 if Select(store, KeyFilter(sub)) == [] then []
                 else Select(store, KeyFilter(sub))[0 := Select(store, KeyFilter(sub))[0].(lastEpisode := d.episode)])
  {
    if !fails {
      match d
      case Skip =>
      case Remove =>
        assert Apply(store, sub, d, fails) == DeleteFirst(store, KeyFilter(sub));
        DeleteFirstSelect(store, sub.userId, sub.animeId);
        DeleteFirstOthers(store, sub.userId, sub.animeId);
        DeleteFirstLength(store, KeyFilter(sub));
      case Advance(e) =>
        assert Apply(store, sub, d, fails) == UpdateFirst(store, KeyFilter(sub), e);
        UpdateFirstSelect(store, sub.userId, sub.animeId, e);
        UpdateFirstOthers(store, sub.userId, sub.animeId, e);
    }
  }

  /** The message a decision calls for, addressed to the subscriber. */
  function Notify(sub: Subscription, d: Decision): (r: seq<Outgoing>)
    ensures |r| == if d == Skip then 0 else 1
    ensures forall o | o in r :: o.chat == sub.userId
  {
    match d
    case Skip => []
    case Remove => [Outgoing(sub.userId, Finished(sub.animeName))]
    case Advance(e) => [Outgoing(sub.userId, EpisodeAired(e, sub.animeName))]
  }

  datatype Outcome = Outcome(store: seq<Subscription>, sent: seq<Outgoing>)

  /** The pass over the visited subscriptions `visits`, in order, starting
      from `store`; the write of the i-th visit fails when `i in writeFails`. */
  function Run(store: seq<Subscription>, visits: seq<Subscription>, c: Catalog, writeFails: set<nat>): Outcome
    decreases |visits|
  {
    if visits == [] then Outcome(store, [])
    else
      var n := |visits| - 1;
      var before := Run(store, visits[..n], c, writeFails);
      var d := Decide(visits[n], Lookup(c, visits[n]));
      Outcome(Apply(before.store, visits[n], d, n in writeFails), before.sent + Notify(visits[n], d))
  }

  /** The failures a pass can meet: `find` itself fails, the cursor errors on
      reaching a position, or the write of a given visit fails. */
  datatype Faults = Faults(findFails: bool, cursorBreaksAt: Option<nat>, writeFails: set<nat>)

  const NO_FAULTS := Faults(false, None, {})

  /** The subscriptions the pass gets to see: none when `find` fails, the
      prefix before the position where the cursor errors, else all of them. */
  function Visited(snapshot: seq<Subscription>, faults: Faults): (v: seq<Subscription>)
    ensures v <= snapshot
    ensures faults.findFails ==> v == []
    ensures !faults.findFails && faults.cursorBreaksAt.Some? && faults.cursorBreaksAt.value < |snapshot| ==>
              |v| == faults.cursorBreaksAt.value
    ensures !faults.findFails && (faults.cursorBreaksAt.None? || faults.cursorBreaksAt.value >= |snapshot|) ==>
              v == snapshot
  {
    if faults.findFails then []
    else
      match faults.cursorBreaksAt
      case None => snapshot
      case Some(k) => if k < |snapshot| then snapshot[..k] else snapshot
  }

  /** One pass of `check_new_episodes` over the collection `store`. */
  function Pass(store: seq<Subscription>, c: Catalog, faults: Faults): Outcome {
    Run(store, Visited(store, faults), c, faults.writeFails)
  }

  /** The pass itself: a cursor over the collection taken at the start, one
      lookup per subscription, the write and then the message. */
  method CheckNewEpisodes(bot: Bot, coll: Collection, c: Catalog, faults: Faults)
    modifies bot, coll
    ensures coll.docs == Pass(old(coll.docs), c, faults).store
    ensures bot.outbox == old(bot.outbox) + Pass(old(coll.docs), c, faults).sent
  {
    var found := coll.Find(All, faults.findFails, faults.cursorBreaksAt);
    if found.Err? {
      return;
    }
    var cursor := found.value;
    SelectAll(coll.docs);
    ghost var snapshot := cursor.items;
    var visit: nat := 0;
    var next := cursor.TryNext();
    while next.Ok? && next.value.Some?
      invariant cursor.Valid() && cursor.items == snapshot && cursor.breakAt == faults.cursorBreaksAt
      invariant visit <= |snapshot|
      invariant next.Ok? && next.value.Some? ==>
                  cursor.pos == visit + 1 && next.value.value == snapshot[visit] &&
                  faults.cursorBreaksAt.GetOr(visit + 1) > visit
      invariant next.Err? ==> cursor.pos == visit && faults.cursorBreaksAt == Some(visit)
      invariant next == Ok(None) ==> visit == |snapshot| && faults.cursorBreaksAt.GetOr(visit + 1) > visit
      invariant coll.docs == Run(snapshot, snapshot[..visit], c, faults.writeFails).store
      invariant bot.outbox == old(bot.outbox) + Run(snapshot, snapshot[..visit], c, faults.writeFails).sent
      decreases |snapshot| - visit
    {
      var sub := next.value.value;
      ghost var before := Run(snapshot, snapshot[..visit], c, faults.writeFails);
      Visit(bot, coll, c, sub, visit in faults.writeFails);
      RunStep(snapshot, visit, c, faults.writeFails);
      AppendAssoc(old(bot.outbox), before.sent, Notify(sub, Decide(sub, Lookup(c, sub))));
      visit := visit + 1;
      next := cursor.TryNext();
    }
    VisitedUpTo(snapshot, faults, visit);
  }

  /** Where the cursor stopped: at the break position, or after the last
      record. */
  lemma VisitedUpTo(snapshot: seq<Subscription>, faults: Faults, n: nat)
    requires !faults.findFails && n <= |snapshot|
    requires faults.cursorBreaksAt == Some(n) || (n == |snapshot| && faults.cursorBreaksAt.GetOr(n + 1) > n)
    ensures Visited(snapshot, faults) == snapshot[..n]
  {
  }

  /** The body of the loop: look the subscription's name up, then either
      delete and say the title finished, or raise the count and announce the
      episode, or do nothing. The write's result is discarded. */
  method Visit(bot: Bot, coll: Collection, c: Catalog, sub: Subscription, fails: bool)
    modifies bot, coll
    ensures coll.docs == Apply(old(coll.docs), sub, Decide(sub, Lookup(c, sub)), fails)
    ensures bot.outbox == old(bot.outbox) + Notify(sub, Decide(sub, Lookup(c, sub)))
  {
    var anime := CheckAnimeExists(c, sub.animeName);
    if anime.Ok? && anime.value.Some? {
      var entry := anime.value.value;
      if entry.status == RELEASED {
        var deleted := coll.DeleteOne(KeyFilter(sub), fails);
        bot.SendMessage(sub.userId, Finished(sub.animeName));
      } else if entry.episodesAired.Some? && entry.episodesAired.value > sub.lastEpisode {
        var updated := coll.UpdateOne(KeyFilter(sub), entry.episodesAired.value, fails);
        bot.SendMessage(sub.userId, EpisodeAired(entry.episodesAired.value, sub.animeName));
      }
    }
  }

  lemma AppendAssoc<T>(a: seq<T>, b: seq<T>, c: seq<T>)
    ensures (a + b) + c == a + (b + c)
  {
  }

  lemma RunStep(snapshot: seq<Subscription>, n: nat, c: Catalog, writeFails: set<nat>)
    requires n < |snapshot|
    ensures var before := Run(snapshot, snapshot[..n], c, writeFails);
            var d := Decide(snapshot[n], Lookup(c, snapshot[n]));
            Run(snapshot, snapshot[..n + 1], c, writeFails) ==
              Outcome(Apply(before.store, snapshot[n], d, n in writeFails), before.sent + Notify(snapshot[n], d))
  {
    assert snapshot[..n + 1][..n] == snapshot[..n];
  }

  // ---------------------------------------------------------------------
  // How single writes act on the records of one key

  lemma SelectSplitAt(s: seq<Subscription>, k: nat, f: Filter)
    requires k < |s|
    ensures Select(s, f) == Select(s[..k], f) + Select([s[k]], f) + Select(s[k + 1..], f)
  {
    assert s == s[..k] + ([s[k]] + s[k + 1..]);
    SelectAppend(s[..k], [s[k]] + s[k + 1..], f);
    SelectAppend([s[k]], s[k + 1..], f);
  }

  lemma DeleteFirstLength(s: seq<Subscription>, f: Filter)
    ensures |DeleteFirst(s, f)| == |s| - if Select(s, f) == [] then 0 else 1
  {
    match FirstMatch(s, f)
    case None =>
      NoMatchSelect(s, f);
    case Some(k) =>
      SelectSplitAt(s, k, f);
      assert Select([s[k]], f) == [s[k]];
  }

  lemma NoMatchSelect(s: seq<Subscription>, f: Filter)
    requires NoMatch(s, f)
    ensures Select(s, f) == []
  {
    if s != [] {
      NoMatchSelect(s[1..], f);
    }
  }

  /** Removing the first record of a key shortens what the key selects by
      its head ... */
  lemma DeleteFirstSelect(s: seq<Subscription>, u: int64, a: int32)
    ensures Select(DeleteFirst(s, ByUserAnime(u, a)), ByUserAnime(u, a)) == Tail(Select(s, ByUserAnime(u, a)))
  {
    var f := ByUserAnime(u, a);
    match FirstMatch(s, f)
    case None =>
      NoMatchSelect(s, f);
    case Some(k) =>
      assert DeleteFirst(s, f) == s[..k] + s[k + 1..];
      NoMatchSelect(s[..k], f);
      SelectSplitAt(s, k, f);
      SelectAppend(s[..k], s[k + 1..], f);
  }

  /** ... and leaves what every other key selects as it was. */
  lemma DeleteFirstOthers(s: seq<Subscription>, u: int64, a: int32)
    ensures forall u': int64, a': int32 :: (u', a') != (u, a) ==>
              Select(DeleteFirst(s, ByUserAnime(u, a)), ByUserAnime(u', a')) == Select(s, ByUserAnime(u', a'))
  {
    var f := ByUserAnime(u, a);
    match FirstMatch(s, f)
    case None =>
    case Some(k) =>
      var r := DeleteFirst(s, f);
      assert r == s[..k] + s[k + 1..];
      forall u': int64, a': int32 | (u', a') != (u, a)
        ensures Select(r, ByUserAnime(u', a')) == Select(s, ByUserAnime(u', a'))
      {
        var g := ByUserAnime(u', a');
        assert !Matches(g, s[k]);
        SelectSplitAt(s, k, g);
        SelectAppend(s[..k], s[k + 1..], g);
      }
  }

  /** Raising the episode count of the first record of a key changes that
      record, as the key selects it, and nothing else about the key. */
  lemma UpdateFirstSelect(s: seq<Subscription>, u: int64, a: int32, e: int32)
    ensures |UpdateFirst(s, ByUserAnime(u, a), e)| == |s|
    ensures Select(UpdateFirst(s, ByUserAnime(u, a), e), ByUserAnime(u, a)) ==
              if Select(s, ByUserAnime(u, a)) == [] then []
              else Select(s, ByUserAnime(u, a))[0 := Select(s, ByUserAnime(u, a))[0].(lastEpisode := e)]
  {
    var f := ByUserAnime(u, a);
    match FirstMatch(s, f)
    case None =>
      NoMatchSelect(s, f);
    case Some(k) =>
      UpdateSameKey(s, k, f, e);
  }

  /** ... and leaves what every other key selects as it was. */
  lemma UpdateFirstOthers(s: seq<Subscription>, u: int64, a: int32, e: int32)
    ensures forall u': int64, a': int32 :: (u', a') != (u, a) ==>
              Select(UpdateFirst(s, ByUserAnime(u, a), e), ByUserAnime(u', a')) == Select(s, ByUserAnime(u', a'))
  {
    var f := ByUserAnime(u, a);
    var r := UpdateFirst(s, f, e);
    match FirstMatch(s, f)
    case None =>
    case Some(k) =>
      UpdateAt(s, k, f, e);
      forall u': int64, a': int32 | (u', a') != (u, a)
        ensures Select(r, ByUserAnime(u', a')) == Select(s, ByUserAnime(u', a'))
      {
        UpdateOtherKey(s, r, k, ByUserAnime(u', a'));
      }
  }

  lemma UpdateSameKey(s: seq<Subscription>, k: nat, f: Filter, e: int32)
    requires IsFirstMatch(s, f, k) && f.ByUserAnime?
    ensures Select(s, f) != []
    ensures var r := UpdateFirst(s, f, e);
      |r| == |s| && Select(r, f) == Select(s, f)[0 := Select(s, f)[0].(lastEpisode := e)]
  {
    var r := UpdateFirst(s, f, e);
    UpdateAt(s, k, f, e);
    NoMatchSelect(s[..k], f);
    SelectFrom(s, k, f);
    SelectFrom(r, k, f);
    var rest := Select(s[k + 1..], f);
    assert ([s[k]] + rest)[0 := r[k]] == [r[k]] + rest;
  }

  /** What `f` selects, when the first record it selects is at `k`. */
  lemma SelectFrom(s: seq<Subscription>, k: nat, f: Filter)
    requires k < |s| && Select(s[..k], f) == [] && Matches(f, s[k])
    ensures Select(s, f) == [s[k]] + Select(s[k + 1..], f)
  {
    var t := [s[k]] + s[k + 1..];
    assert s == s[..k] + t;
    SelectAppend(s[..k], t, f);
    assert t[0] == s[k] && t[1..] == s[k + 1..];
  }

  lemma UpdateOtherKey(s: seq<Subscription>, r: seq<Subscription>, k: nat, g: Filter)
    requires k < |s| == |r| && r[..k] == s[..k] && r[k + 1..] == s[k + 1..]
    requires !Matches(g, s[k]) && !Matches(g, r[k])
    ensures Select(r, g) == Select(s, g)
  {
    SelectSplitAt(s, k, g);
    SelectSplitAt(r, k, g);
  }

  lemma UpdateAt(s: seq<Subscription>, k: nat, f: Filter, e: int32)
    requires IsFirstMatch(s, f, k)
    ensures var r := UpdateFirst(s, f, e);
      |r| == |s| && r[..k] == s[..k] && r[k] == s[k].(lastEpisode := e) && r[k + 1..] == s[k + 1..]
  {
  }
}
