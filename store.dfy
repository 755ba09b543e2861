/** The `subscriptions` collection: its record type, the field-equality
    filters the bot uses, the effect of `delete_one`, `update_one` and `find`
    on the stored sequence, and the collection and cursor objects that apply
    them in place. */
module Store {
  import opened Types

  /** One user's interest in one title (src/mongodb.rs). */
  datatype Subscription = Subscription(userId: int64, animeId: int32, animeName: string, lastEpisode: int32)

  /** The filter documents the bot builds: `{}`, `{user_id}`,
      `{user_id, anime_id}` and `{user_id, anime_name}`. */
  datatype Filter =
    | All
    | ByUser(user: int64)
    | ByUserAnime(user: int64, anime: int32)
    | ByUserName(user: int64, name: string)

  predicate Matches(f: Filter, s: Subscription) {
    match f
    case All => true
    case ByUser(u) => s.userId == u
    case ByUserAnime(u, a) => s.userId == u && s.animeId == a
    case ByUserName(u, n) => s.userId == u && s.animeName == n
  }

  predicate NoMatch(docs: seq<Subscription>, f: Filter) {
    forall j | 0 <= j < |docs| :: !Matches(f, docs[j])
  }

  /** `k` is the position of the first record that `f` selects. */
  predicate IsFirstMatch(docs: seq<Subscription>, f: Filter, k: int) {
    0 <= k < |docs| && Matches(f, docs[k]) && forall j | 0 <= j < k :: !Matches(f, docs[j])
  }

  function FirstMatch(docs: seq<Subscription>, f: Filter): (k: Option<nat>)
    ensures k.Some? ==> IsFirstMatch(docs, f, k.value)
    ensures k.None? <==> NoMatch(docs, f)
  {
    if docs == [] then None
    else if Matches(f, docs[0]) then Some(0)
    else
      match FirstMatch(docs[1..], f)
      case None => None
      case Some(k) => Some(k + 1)
  }

  /** The stored sequence after `delete_one(f)`: the first selected record is
      gone and every other record keeps its place. */
  function DeleteFirst(docs: seq<Subscription>, f: Filter): (r: seq<Subscription>)
    ensures NoMatch(docs, f) ==> r == docs
    ensures forall k :: IsFirstMatch(docs, f, k) ==> r == docs[..k] + docs[k + 1..]
    ensures |r| == if NoMatch(docs, f) then |docs| else |docs| - 1
  {
    match FirstMatch(docs, f)
    case None => docs
    case Some(k) =>
      docs[..k] + docs[k + 1..]
  }

  /** The stored sequence after `update_one(f, {"$set": {"last_episode": e}})`:
      only the first selected record changes, and only its episode count. */
  function UpdateFirst(docs: seq<Subscription>, f: Filter, e: int32): (r: seq<Subscription>)
    ensures NoMatch(docs, f) ==> r == docs
    ensures forall k :: IsFirstMatch(docs, f, k) ==> r == docs[k := docs[k].(lastEpisode := e)]
  {
    match FirstMatch(docs, f)
    case None => docs
    case Some(k) =>
      docs[k := docs[k].(lastEpisode := e)]
  }

  /** What `find(f)` yields, in store order. */
  function Select(docs: seq<Subscription>, f: Filter): (r: seq<Subscription>)
    ensures |r| <= |docs|
  {
    if docs == [] then []
    else
      var rest := Select(docs[1..], f);
      if Matches(f, docs[0]) then [docs[0]] + rest else rest
  }

  /** `find(f)` yields exactly the stored records that `f` selects. */
  lemma {:induction false} SelectMembers(docs: seq<Subscription>, f: Filter)
    ensures forall s :: s in Select(docs, f) <==> s in docs && Matches(f, s)
    decreases |docs|
  {
    if docs != [] {
      SelectMembers(docs[1..], f);
      assert forall s :: s in docs <==> s == docs[0] || s in docs[1..];
    }
  }

  lemma SelectAppend(a: seq<Subscription>, b: seq<Subscription>, f: Filter)
    ensures Select(a + b, f) == Select(a, f) + Select(b, f)
  {
    if a != [] {
      assert (a + b)[0] == a[0] && (a + b)[1..] == a[1..] + b;
      SelectAppend(a[1..], b, f);
      if Matches(f, a[0]) {
        assert Select(a + b, f) == [a[0]] + Select(a[1..] + b, f);
        assert Select(a, f) == [a[0]] + Select(a[1..], f);
      } else {
        assert Select(a + b, f) == Select(a[1..] + b, f);
        assert Select(a, f) == Select(a[1..], f);
      }
    } else {
      assert a + b == b;
    }
  }

  lemma SelectAll(docs: seq<Subscription>)
    ensures Select(docs, All) == docs
  {
    if docs != [] { SelectAll(docs[1..]); }
  }

  /** The collection object. Its `docs` is the stored sequence; each write is
      given a flag saying whether the database reports a failure, in which case
      nothing is applied. */
  class Collection {
    var docs: seq<Subscription>

    constructor (initial: seq<Subscription>)
      ensures docs == initial
    {
      docs := initial;
    }

    /** `find(f)`: a cursor over the records selected when the call is made,
        which breaks down when it reaches position `breakAt`. */
    method Find(f: Filter, fails: bool, breakAt: Option<nat>) returns (r: Result<Cursor>)
      ensures r.Err? <==> fails
      ensures r.Err? ==> r.error == Storage
      ensures r.Ok? ==> fresh(r.value) && r.value.Valid() && r.value.pos == 0
      ensures r.Ok? ==> r.value.items == Select(docs, f) && r.value.breakAt == breakAt
    {
      if fails {
        return Err(Storage);
      }
      var c := new Cursor(Select(docs, f), breakAt);
      return Ok(c);
    }

    method InsertOne(s: Subscription, fails: bool) returns (r: Result<()>)
      modifies this
      ensures r.Err? <==> fails
      ensures r.Err? ==> r.error == Storage
      ensures docs == if fails then old(docs) else old(docs) + [s]
    {
      if fails {
        return Err(Storage);
      }
      docs := docs + [s];
      return Ok(());
    }

    /** `delete_one(f)`, answering the `deleted_count`. */
    method DeleteOne(f: Filter, fails: bool) returns (r: Result<nat>)
      modifies this
      ensures r.Err? <==> fails
      ensures r.Err? ==> r.error == Storage
      ensures docs == if fails then old(docs) else DeleteFirst(old(docs), f)
      ensures r.Ok? ==> r.value == |old(docs)| - |docs| && r.value <= 1
    {
      if fails {
        return Err(Storage);
      }
      var before := |docs|;
      docs := DeleteFirst(docs, f);
      return Ok(before - |docs|);
    }

    /** `update_one(f, {"$set": {"last_episode": e}})`, answering whether a
        record was matched. */
    method UpdateOne(f: Filter, e: int32, fails: bool) returns (r: Result<bool>)
      modifies this
      ensures r.Err? <==> fails
      ensures r.Err? ==> r.error == Storage
      ensures docs == if fails then old(docs) else UpdateFirst(old(docs), f, e)
      ensures r.Ok? ==> (r.value <==> !NoMatch(old(docs), f))
    {
      if fails {
        return Err(Storage);
      }
      var matched := !NoMatch(docs, f);
      docs := UpdateFirst(docs, f, e);
      return Ok(matched);
    }
  }

  /** A cursor over a snapshot of selected records. `try_next` yields them
      in order, answers `None` after the last one, and fails once it reaches
      position `breakAt`. */
  class Cursor {
    const items: seq<Subscription>
    const breakAt: Option<nat>
    var pos: nat

    ghost predicate Valid()
      reads this
    {
      pos <= |items|
    }

    constructor (items: seq<Subscription>, breakAt: Option<nat>)
      ensures Valid() && this.items == items && this.breakAt == breakAt && pos == 0
    {
      this.items := items;
      this.breakAt := breakAt;
      pos := 0;
    }

    method TryNext() returns (r: Result<Option<Subscription>>)
      requires Valid()
      modifies this
      ensures Valid()
      ensures old(pos) == breakAt.GetOr(|items| + 1) ==> r == Err(Storage) && pos == old(pos)
      ensures old(pos) != breakAt.GetOr(|items| + 1) && old(pos) == |items| ==> r == Ok(None) && pos == old(pos)
      ensures old(pos) != breakAt.GetOr(|items| + 1) && old(pos) < |items| ==>
                r == Ok(Some(items[old(pos)])) && pos == old(pos) + 1
    {
      if pos == breakAt.GetOr(|items| + 1) {
        return Err(Storage);
      }
      if pos == |items| {
        return Ok(None);
      }
      r := Ok(Some(items[pos]));
      pos := pos + 1;
    }
  }
}
