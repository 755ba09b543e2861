/** The command handler `answer` (src/main.rs): `/start`, `/info`,
    `/subscribe`, `/unsubscribe` and `/list`, each as a specification of what
    it leaves in the collection, which replies it sends and whether it ends in
    an error, and as a method on the bot and the collection proved against
    it. An error raised with `?` ends the handler without a reply. */
module Commands {
  import opened Types
  import opened Store
  import opened Catalog
  import opened Bot
  import opened Text
  import opened Listing
  import opened ReconcileLaws

  /** The commands; the argument is the rest of the message, as typed. */
  datatype Command =
    | Start
    | Subscribe(name: string)
    | Unsubscribe(name: string)
    | List
    | Info(name: string)

  datatype User = User(id: uint64, firstName: string)

  /** The parts of an incoming message the handler reads: its chat, where
      every reply goes, and its sender, which may be absent. */
  datatype Message = Message(chat: int64, from: Option<User>)

  /** Which database calls report a failure: the write of the command, the
      `find` of `/list`, and the position at which its cursor breaks. */
  datatype StoreFaults = StoreFaults(writeFails: bool, findFails: bool, cursorBreaksAt: Option<nat>)

  /** What a handler leaves behind. */
  datatype Handled = Handled(store: seq<Subscription>, replies: seq<Outgoing>, status: Result<()>)

  /** Unicode `White_Space`, the characters `str::trim` strips. */
  predicate IsWhitespace(c: char) {
    || '\U{9}' <= c <= '\U{D}'
    || c == ' ' || c == '\U{85}' || c == '\U{A0}' || c == '\U{1680}'
    || '\U{2000}' <= c <= '\U{200A}'
    || c == '\U{2028}' || c == '\U{2029}' || c == '\U{202F}' || c == '\U{205F}' || c == '\U{3000}'
  }

  /** `name.trim().is_empty()`. */
  predicate IsBlank(s: string) {
    forall i | 0 <= i < |s| :: IsWhitespace(s[i])
  }

  /** `msg.from.unwrap().id.0 as i64`; the unwrap panics on a message
      without a sender. */
  function Sender(msg: Message): (r: Result<int64>)
    ensures r.Err? <==> msg.from.None?
    ensures r.Err? ==> r.error == NoSender
    ensures r.Ok? ==> r.value % 0x1_0000_0000_0000_0000 == msg.from.value.id
  {
    match msg.from
    case None => Err(NoSender)
    case Some(u) => Ok(AsInt64(u.id))
  }

  function Reply(msg: Message, text: Content): seq<Outgoing> {
    [Outgoing(msg.chat, text)]
  }

  // ---------------------------------------------------------------------
  // /start

  function StartAnswer(store: seq<Subscription>, msg: Message): (h: Handled)
    ensures h.store == store
    ensures h.status.Ok? <==> msg.from.Some?
    ensures h.status.Ok? ==> h.replies == Reply(msg, Welcome(msg.from.value.firstName))
    ensures h.status.Err? ==> h.replies == []
  {
    match msg.from
    case None => Handled(store, [], Err(NoSender))
    case Some(u) => Handled(store, Reply(msg, Welcome(u.firstName)), Ok(()))
  }

  // ---------------------------------------------------------------------
  // /info

  const NO_GENRES := "Жанры не указаны"
  const UNKNOWN_EPISODES := "Неизвестно"
  const NO_DESCRIPTION := "Описание отсутсвует"
  const NO_SCORE := "Нет рейтинга"

  function GenreName(g: Genre): string {
    g.russian.GetOr(g.name)
  }

  function GenreNames(gs: seq<Genre>): (r: seq<string>)
    ensures |r| == |gs| && forall i | 0 <= i < |gs| :: r[i] == GenreName(gs[i])
  {
    seq(|gs|, i requires 0 <= i < |gs| => GenreName(gs[i]))
  }

  /** The genre line: the genre names joined by `", "`, the fixed text when
      the entry has no genre list, and nothing at all for an empty list. */
  function GenresText(genres: Option<seq<Genre>>): (s: string)
    ensures genres.None? ==> s == NO_GENRES
    ensures genres == Some([]) ==> s == ""
  {
    match genres
    case None => NO_GENRES
    case Some(gs) => Join(GenreNames(gs), ", ")
  }

  /** The genre line gives back every genre name, in order, as long as no
      name holds a comma. */
  lemma GenresRoundTrip(gs: seq<Genre>)
    requires |gs| > 0 && forall i | 0 <= i < |gs| :: ',' !in GenreName(gs[i])
    ensures SplitList(GenresText(Some(gs))) == GenreNames(gs)
  {
    var names := GenreNames(gs);
    forall p | p in names ensures ',' !in p {
      var i :| 0 <= i < |names| && names[i] == p;
    }
    SplitJoin(names);
  }

  function EpisodesText(episodes: Option<int32>): (s: string)
    ensures episodes.None? ==> s == UNKNOWN_EPISODES
    ensures episodes.Some? ==> IntValue(s) == episodes.value
  {
    match episodes
    case None => UNKNOWN_EPISODES
    case Some(e) => IntRoundTrip(e); IntToDecimal(e)
  }

  /** The `/info` card: the display name, the episode count (read back as
      the entry's count) or the fixed text, the genre line, and the
      description and score or their fixed texts. */
  function Card(a: AnimeResponse): (card: InfoCard)
    ensures card.title == DisplayName(a)
    ensures card.genres == GenresText(a.genres)
    ensures a.episodes.None? ==> card.episodes == UNKNOWN_EPISODES
    ensures a.episodes.Some? ==> IntValue(card.episodes) == a.episodes.value
    ensures a.description.Some? ==> card.description == a.description.value
    ensures a.description.None? ==> card.description == NO_DESCRIPTION
    ensures a.score.Some? ==> card.score == a.score.value
    ensures a.score.None? ==> card.score == NO_SCORE
  {
    InfoCard(DisplayName(a), EpisodesText(a.episodes), GenresText(a.genres),
             a.description.GetOr(NO_DESCRIPTION), a.score.GetOr(NO_SCORE))
  }

  /** `/info`: no blank check; the name as typed is looked up, a lookup
      error ends the handler, and the reply is the card or "not found". */
  function InfoAnswer(store: seq<Subscription>, c: Catalog, msg: Message, name: string): (h: Handled)
    ensures h.store == store
    ensures h.status.Err? <==> CheckAnimeExists(c, name).Err?
    ensures h.status.Err? ==> h.status.error == CheckAnimeExists(c, name).error && h.replies == []
    ensures CheckAnimeExists(c, name) == Ok(None) ==> h.replies == Reply(msg, NotFound)
    ensures CheckAnimeExists(c, name).Ok? && CheckAnimeExists(c, name).value.Some? ==>
              h.replies == Reply(msg, AnimeInfo(Card(CheckAnimeExists(c, name).value.value)))
  {
    match CheckAnimeExists(c, name)
    case Err(e) => Handled(store, [], Err(e))
    case Ok(None) => Handled(store, Reply(msg, NotFound), Ok(()))
    case Ok(Some(a)) => Handled(store, Reply(msg, AnimeInfo(Card(a))), Ok(()))
  }

  // ---------------------------------------------------------------------
  // /subscribe

  /** The record `/subscribe` stores for a found entry. */
  function NewRecord(user: int64, a: AnimeResponse): Subscription {
    Subscription(user, a.id, DisplayName(a), a.episodesAired.GetOr(0))
  }

  /** `/subscribe`: a blank name is refused before anything else; otherwise
      a found entry is appended as one new record, without looking at what is
      stored, and the reply echoes the name as typed. */
  function SubscribeAnswer(store: seq<Subscription>, c: Catalog, msg: Message, name: string, writeFails: bool): (h: Handled)
    ensures IsBlank(name) ==> h == Handled(store, Reply(msg, NameMissing), Ok(()))
    ensures |h.store| != |store| <==>
              && !IsBlank(name) && msg.from.Some? && !writeFails
              && CheckAnimeExists(c, name).Ok? && CheckAnimeExists(c, name).value.Some?
    ensures |h.store| != |store| ==>
              && h.store == store + [NewRecord(AsInt64(msg.from.value.id), CheckAnimeExists(c, name).value.value)]
              && h.replies == Reply(msg, Subscribed(name))
    ensures !IsBlank(name) && msg.from.Some? && CheckAnimeExists(c, name) == Ok(None) ==>
              h == Handled(store, Reply(msg, NotFound), Ok(()))
    ensures |h.store| == |store| ==> h.store == store
    ensures h.status.Err? <==>
              && !IsBlank(name)
              && (|| msg.from.None?
                  || CheckAnimeExists(c, name).Err?
                  || (CheckAnimeExists(c, name).Ok? && CheckAnimeExists(c, name).value.Some? && writeFails))
    ensures h.status.Err? ==>
              h.status.error == if msg.from.None? then NoSender
                                else if CheckAnimeExists(c, name).Err? then CheckAnimeExists(c, name).error
                                else Storage
    ensures h.status.Err? <==> h.replies == []
    ensures h.status.Err? ==> h.store == store
  {
    if IsBlank(name) then Handled(store, Reply(msg, NameMissing), Ok(()))
    else
      match Sender(msg)
      case Err(e) => Handled(store, [], Err(e))
      case Ok(user) =>
        match CheckAnimeExists(c, name)
        case Err(e) => Handled(store, [], Err(e))
        case Ok(None) => Handled(store, Reply(msg, NotFound), Ok(()))
        case Ok(Some(a)) =>
          if writeFails then Handled(store, [], Err(Storage))
          else Handled(store + [NewRecord(user, a)], Reply(msg, Subscribed(name)), Ok(()))
  }

  // ---------------------------------------------------------------------
  // /unsubscribe

  /** `/unsubscribe`: a blank name is refused; otherwise the first record of
      the sender with exactly that stored name is removed, all others stay
      as they were, and the reply says whether one was removed. */
  function UnsubscribeAnswer(store: seq<Subscription>, msg: Message, name: string, writeFails: bool): (h: Handled)
    ensures IsBlank(name) ==> h == Handled(store, Reply(msg, NameMissing), Ok(()))
    ensures |store| - 1 <= |h.store| <= |store|
    ensures |h.store| < |store| <==>
              && !IsBlank(name) && msg.from.Some? && !writeFails
              && !NoMatch(store, ByUserName(AsInt64(msg.from.value.id), name))
    ensures msg.from.Some? ==> forall k :: IsFirstMatch(store, ByUserName(AsInt64(msg.from.value.id), name), k) ==>
              h.store == store || h.store == store[..k] + store[k + 1..]
    ensures h.status.Ok? && !IsBlank(name) ==>
              h.replies == Reply(msg, if |h.store| < |store| then Unsubscribed(name) else NotSubscribed(name))
    ensures |h.store| == |store| ==> h.store == store
    ensures h.status.Err? <==> !IsBlank(name) && (msg.from.None? || writeFails)
    ensures h.status.Err? ==> h.status.error == if msg.from.None? then NoSender else Storage
    ensures h.status.Err? <==> h.replies == []
    ensures h.status.Err? ==> h.store == store
  {
    if IsBlank(name) then Handled(store, Reply(msg, NameMissing), Ok(()))
    else
      match Sender(msg)
      case Err(e) => Handled(store, [], Err(e))
      case Ok(user) =>
        if writeFails then Handled(store, [], Err(Storage))
        else
          var after := DeleteFirst(store, ByUserName(user, name));
          var removed := |store| - |after|;
          Handled(after, Reply(msg, if removed > 0 then Unsubscribed(name) else NotSubscribed(name)), Ok(()))
  }

  // ---------------------------------------------------------------------
  // /list

  /** The reply to `/list`, by whether the built listing is empty. */
  function ListReply(listing: string): (t: Content)
    ensures t == NothingTracked <==> listing == ""
    ensures t != NothingTracked ==> t == Tracking(listing)
  {
    if listing == "" then NothingTracked else Tracking(listing)
  }

  /** `/list`: the sender's records in store order, one numbered line each;
      the fixed reply when there are none; a failing `find` or cursor ends
      the handler. The collection is never changed. */
  function ListAnswer(store: seq<Subscription>, msg: Message, faults: StoreFaults): (h: Handled)
    ensures h.store == store
    ensures h.status.Err? <==>
              || msg.from.None? || faults.findFails
              || (faults.cursorBreaksAt.Some? &&
                  faults.cursorBreaksAt.value <= |Select(store, ByUser(AsInt64(msg.from.value.id)))|)
    ensures h.status.Ok? ==>
              var mine := Select(store, ByUser(AsInt64(msg.from.value.id)));
              h.replies == Reply(msg, ListReply(ListingFrom(mine, 1))) &&
              (h.replies[0].text == NothingTracked <==> mine == [])
    ensures h.status.Err? ==> h.replies == []
  {
    match Sender(msg)
    case Err(e) => Handled(store, [], Err(e))
    case Ok(user) =>
      if faults.findFails then Handled(store, [], Err(Storage))
      else
        var mine := Select(store, ByUser(user));
        if faults.cursorBreaksAt.Some? && faults.cursorBreaksAt.value <= |mine| then Handled(store, [], Err(Storage))
        else Handled(store, Reply(msg, ListReply(ListingFrom(mine, 1))), Ok(()))
  }

  // ---------------------------------------------------------------------
  // The dispatcher

  /** `answer`: only `/subscribe` and `/unsubscribe` change the collection;
      every command ends either with exactly one reply to the chat it came
      from or with an error and no reply, and an error leaves the collection
      as it was. */
  function AnswerSpec(store: seq<Subscription>, c: Catalog, msg: Message, cmd: Command, faults: StoreFaults): (h: Handled)
    ensures !cmd.Subscribe? && !cmd.Unsubscribe? ==> h.store == store
    ensures h.status.Ok? <==> |h.replies| == 1
    ensures h.status.Err? <==> h.replies == []
    ensures forall o | o in h.replies :: o.chat == msg.chat
    ensures h.status.Err? ==> h.store == store
  {
    match cmd
    case Start => StartAnswer(store, msg)
    case Info(name) => InfoAnswer(store, c, msg, name)
    case Subscribe(name) => SubscribeAnswer(store, c, msg, name, faults.writeFails)
    case Unsubscribe(name) => UnsubscribeAnswer(store, msg, name, faults.writeFails)
    case List => ListAnswer(store, msg, faults)
  }

  method Answer(bot: Bot, coll: Collection, c: Catalog, msg: Message, cmd: Command, faults: StoreFaults)
    returns (r: Result<()>)
    modifies bot, coll
    ensures var h := AnswerSpec(old(coll.docs), c, msg, cmd, faults);
      coll.docs == h.store && bot.outbox == old(bot.outbox) + h.replies && r == h.status
  {
    match cmd
    case Start =>
      r := HandleStart(bot, msg);
    case Info(name) =>
      r := HandleInfo(bot, c, msg, name);
    case Subscribe(name) =>
      r := HandleSubscribe(bot, coll, c, msg, name, faults.writeFails);
    case Unsubscribe(name) =>
      r := HandleUnsubscribe(bot, coll, msg, name, faults.writeFails);
    case List =>
      r := HandleList(bot, coll, msg, faults);
  }

  method HandleStart(bot: Bot, msg: Message) returns (r: Result<()>)
    modifies bot
    ensures bot.outbox == old(bot.outbox) + StartAnswer([], msg).replies && r == StartAnswer([], msg).status
  {
    if msg.from.None? {
      return Err(NoSender);
    }
    bot.SendMessage(msg.chat, Welcome(msg.from.value.firstName));
    return Ok(());
  }

  method HandleInfo(bot: Bot, c: Catalog, msg: Message, name: string) returns (r: Result<()>)
    modifies bot
    ensures bot.outbox == old(bot.outbox) + InfoAnswer([], c, msg, name).replies
    ensures r == InfoAnswer([], c, msg, name).status
  {
    var anime := CheckAnimeExists(c, name);
    if anime.Err? {
      return Err(anime.error);
    }
    match anime.value {
      case Some(a) =>
        bot.SendMessage(msg.chat, AnimeInfo(Card(a)));
      case None =>
        bot.SendMessage(msg.chat, NotFound);
    }
    return Ok(());
  }

  method HandleSubscribe(bot: Bot, coll: Collection, c: Catalog, msg: Message, name: string, writeFails: bool)
    returns (r: Result<()>)
    modifies bot, coll
    ensures var h := SubscribeAnswer(old(coll.docs), c, msg, name, writeFails);
      coll.docs == h.store && bot.outbox == old(bot.outbox) + h.replies && r == h.status
  {
    if IsBlank(name) {
      bot.SendMessage(msg.chat, NameMissing);
      return Ok(());
    }
    if msg.from.None? {
      return Err(NoSender);
    }
    var user := AsInt64(msg.from.value.id);
    var anime := CheckAnimeExists(c, name);
    if anime.Err? {
      return Err(anime.error);
    }
    match anime.value {
      case Some(a) =>
        var inserted := coll.InsertOne(NewRecord(user, a), writeFails);
        if inserted.Err? {
          return Err(inserted.error);
        }
        bot.SendMessage(msg.chat, Subscribed(name));
      case None =>
        bot.SendMessage(msg.chat, NotFound);
    }
    return Ok(());
  }

  method HandleUnsubscribe(bot: Bot, coll: Collection, msg: Message, name: string, writeFails: bool)
    returns (r: Result<()>)
    modifies bot, coll
    ensures var h := UnsubscribeAnswer(old(coll.docs), msg, name, writeFails);
      coll.docs == h.store && bot.outbox == old(bot.outbox) + h.replies && r == h.status
  {
    if IsBlank(name) {
      bot.SendMessage(msg.chat, NameMissing);
      return Ok(());
    }
    if msg.from.None? {
      return Err(NoSender);
    }
    var user := AsInt64(msg.from.value.id);
    var res := coll.DeleteOne(ByUserName(user, name), writeFails);
    if res.Err? {
      return Err(res.error);
    }
    if res.value > 0 {
      bot.SendMessage(msg.chat, Unsubscribed(name));
    } else {
      bot.SendMessage(msg.chat, NotSubscribed(name));
    }
    return Ok(());
  }

  /** `/list`: the sender's records through a cursor, then the reply. */
  method HandleList(bot: Bot, coll: Collection, msg: Message, faults: StoreFaults) returns (r: Result<()>)
    modifies bot
    ensures bot.outbox == old(bot.outbox) + ListAnswer(coll.docs, msg, faults).replies
    ensures r == ListAnswer(coll.docs, msg, faults).status
  {
    if msg.from.None? {
      return Err(NoSender);
    }
    var user := AsInt64(msg.from.value.id);
    var found := coll.Find(ByUser(user), faults.findFails, faults.cursorBreaksAt);
    if found.Err? {
      return Err(found.error);
    }
    var listing := BuildListing(found.value);
    if listing.Err? {
      return Err(listing.error);
    }
    bot.SendMessage(msg.chat, ListReply(listing.value));
    return Ok(());
  }

  /** The loop of `/list`: one numbered line per record the cursor yields,
      counting from 1; a cursor error ends it. */
  method BuildListing(cursor: Cursor) returns (r: Result<string>)
    requires cursor.Valid() && cursor.pos == 0
    modifies cursor
    ensures r.Err? <==> cursor.breakAt.Some? && cursor.breakAt.value <= |cursor.items|
    ensures r.Err? ==> r.error == Storage
    ensures r.Ok? ==> r.value == ListingFrom(cursor.items, 1)
  {
    ghost var items := cursor.items;
    var listing := "";
    var index: nat := 1;
    var next := cursor.TryNext();
    while next.Ok? && next.value.Some?
      invariant cursor.Valid()
      invariant 1 <= index <= |items| + 1
      invariant next.Ok? && next.value.Some? ==>
                  cursor.pos == index && next.value.value == items[index - 1] &&
                  cursor.breakAt.GetOr(index) >= index
      invariant next.Err? ==> next.error == Storage && cursor.breakAt == Some(index - 1)
      invariant next == Ok(None) ==> index - 1 == |items| && cursor.breakAt.GetOr(index) >= index
      invariant listing == ListingFrom(items[..index - 1], 1)
      decreases |items| + 1 - index
    {
      ListingSnoc(items[..index - 1], items[index - 1], 1);
      assert items[..index] == items[..index - 1] + [items[index - 1]];
      listing := listing + Line(index, next.value.value.animeName);
      index := index + 1;
      next := cursor.TryNext();
    }
    if next.Err? {
      return Err(next.error);
    }
    assert items[..index - 1] == items;
    return Ok(listing);
  }

  // ---------------------------------------------------------------------
  // Properties across commands

  /** Subscribing to a found title and then unsubscribing with the name it
      was stored under gives back the collection as it was, when the sender
      had no record under that name before. */
  lemma SubscribeThenUnsubscribe(store: seq<Subscription>, c: Catalog, msg: Message, name: string)
    requires !IsBlank(name) && msg.from.Some?
    requires CheckAnimeExists(c, name).Ok? && CheckAnimeExists(c, name).value.Some?
    requires var stored := DisplayName(CheckAnimeExists(c, name).value.value);
      !IsBlank(stored) && NoMatch(store, ByUserName(AsInt64(msg.from.value.id), stored))
    ensures var stored := DisplayName(CheckAnimeExists(c, name).value.value);
      var first := SubscribeAnswer(store, c, msg, name, false);
      var second := UnsubscribeAnswer(first.store, msg, stored, false);
      second.store == store && second.replies == Reply(msg, Unsubscribed(stored))
  {
    var a := CheckAnimeExists(c, name).value.value;
    var user := AsInt64(msg.from.value.id);
    var s := store + [NewRecord(user, a)];
    var f := ByUserName(user, DisplayName(a));
    assert IsFirstMatch(s, f, |store|) by {
      assert forall j | 0 <= j < |store| :: s[j] == store[j];
    }
    assert s[..|store|] == store && s[|store| + 1..] == [];
  }

  /** The stored name is the catalog's name, not the typed one: when they
      differ, unsubscribing with the name just used to subscribe removes
      nothing and replies "not subscribed". */
  lemma TypedNameDoesNotUnsubscribe(store: seq<Subscription>, c: Catalog, msg: Message, name: string)
    requires !IsBlank(name) && msg.from.Some?
    requires CheckAnimeExists(c, name).Ok? && CheckAnimeExists(c, name).value.Some?
    requires DisplayName(CheckAnimeExists(c, name).value.value) != name
    requires NoMatch(store, ByUserName(AsInt64(msg.from.value.id), name))
    ensures var first := SubscribeAnswer(store, c, msg, name, false);
      var second := UnsubscribeAnswer(first.store, msg, name, false);
      second.store == first.store && |first.store| == |store| + 1 &&
      second.replies == Reply(msg, NotSubscribed(name))
  {
    var a := CheckAnimeExists(c, name).value.value;
    var user := AsInt64(msg.from.value.id);
    var s := store + [NewRecord(user, a)];
    assert NoMatch(s, ByUserName(user, name)) by {
      assert forall j | 0 <= j < |store| :: s[j] == store[j];
    }
  }

  /** `/subscribe` never looks at what is stored: the same command twice
      stores the same record twice, and the collection no longer has unique
      keys, which the episode pass's guarantees rely on. */
  lemma SubscribeTwice(store: seq<Subscription>, c: Catalog, msg: Message, name: string)
    requires !IsBlank(name) && msg.from.Some?
    requires CheckAnimeExists(c, name).Ok? && CheckAnimeExists(c, name).value.Some?
    ensures var x := NewRecord(AsInt64(msg.from.value.id), CheckAnimeExists(c, name).value.value);
      var first := SubscribeAnswer(store, c, msg, name, false);
      var second := SubscribeAnswer(first.store, c, msg, name, false);
      second.store == store + [x, x] && second.replies == first.replies && !UniqueKeys(second.store)
  {
    var x := NewRecord(AsInt64(msg.from.value.id), CheckAnimeExists(c, name).value.value);
    var s := store + [x, x];
    assert store + [x] + [x] == s;
    assert s[|store|] == x && s[|store| + 1] == x;
  }

  /** A `/list` reply read back line by line gives the sender's records,
      each stored name with its number, counting from 1 in store order. */
  lemma ListReadsBack(store: seq<Subscription>, msg: Message, faults: StoreFaults)
    requires ListAnswer(store, msg, faults).status.Ok?
    requires forall i | 0 <= i < |store| :: '\n' !in store[i].animeName
    ensures var mine := Select(store, ByUser(AsInt64(msg.from.value.id)));
      var t := ListAnswer(store, msg, faults).replies[0].text;
      mine != [] ==>
        && t.Tracking?
        && var p := ParseListing(t.listing);
           |p| == |mine| && forall k | 0 <= k < |mine| :: p[k] == Entry(k + 1, mine[k].animeName)
  {
    var mine := Select(store, ByUser(AsInt64(msg.from.value.id)));
    SelectMembers(store, ByUser(AsInt64(msg.from.value.id)));
    forall k | 0 <= k < |mine| ensures '\n' !in mine[k].animeName {
      assert mine[k] in store;
      var i :| 0 <= i < |store| && store[i] == mine[k];
    }
    ListingRoundTrip(mine, 1);
  }
}
