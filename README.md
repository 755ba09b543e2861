# Larium-rs, modelled in Dafny

Larium-rs is a Telegram bot that tracks new episodes of anime titles. A user
subscribes to a title by name. The bot looks the name up in the Shikimori
catalog and stores one `Subscription` record (user, title id, title name,
last episode seen) in the MongoDB collection `subscriptions`. Once an hour
the episode pass `check_new_episodes` walks every stored record, looks its
name up again and acts on the record:

- a title whose status is `"released"` has its record deleted and the user
  is told it finished;
- when more episodes have aired than the record says, the record is raised
  and the user is told about the new episode;
- otherwise nothing happens.

The command handler `answer` serves `/start`, `/info`, `/subscribe`,
`/unsubscribe` and `/list`.

The model keeps the source's form:

- **The episode pass** is a method: a loop over a cursor on the collection
  object, with in-place writes and an outbox of sent messages. It is proved
  equal to a function `Pass` of the store, the catalog and the failures met.
  The whole-pass properties are proved about that function in
  `ReconcileLaws`.
- **The catalog lookup** `check_anime_exists` is a function over the
  catalog's two answers: the search by name and the details by id.
- **Each command** is a specification function. It gives the new
  collection, the replies and the error status. A method on the bot and the
  collection is proved against that function. `/list` keeps the source's
  loop over a cursor.
- **Failures** are inputs, not effects:
  - `find` failing;
  - the cursor breaking at a given position;
  - a write failing.

  This lets the contracts say what happens on each error path.

Modules, one per file:

| module | what it holds |
|---|---|
| `Types` | `Option`, `Result`, the error kinds, the fixed-width integer types, the `u64 as i64` cast |
| `Store` | the record, the filters, what `delete_one`/`update_one`/`find` do to the stored sequence, the `Collection` and `Cursor` classes |
| `Catalog` | the catalog entry and `check_anime_exists` |
| `Bot` | the kinds of message the bot sends and the `Bot` class with its outbox |
| `Text` | decimal formatting and `join(", ")`, each with a reader |
| `Reconcile` | `check_new_episodes`: the per-record decision, its effect, the pass function and the method |
| `ReconcileLaws` | properties of a whole pass |
| `Listing` | the `/list` text layout and its reader |
| `Commands` | `answer` and its five branches |

## Model

| member | source | states |
|---|---|---|
| Types.AsInt64 | src/main.rs:141 | `u64 as i64` keeps the 64 bits: the result is congruent to the id modulo 2^64, and it is non-negative exactly when the id is below 2^63 |
| Store.FirstMatch | src/api.rs:76-79 | finds the first record a filter selects, or reports that none does |
| Store.DeleteFirst | src/api.rs:75-80 | `delete_one` removes the first selected record and keeps every other record in place; with no match the store is unchanged; the length drops by one exactly when something matched |
| Store.UpdateFirst | src/api.rs:98-107 | `update_one` with `$set last_episode` changes only the first selected record, and only its episode count; with no match the store is unchanged |
| Store.SelectMembers | src/main.rs:197-199 | `find(f)` yields exactly the stored records that `f` selects |
| Store.Collection.Find | src/api.rs:66-69 | a failing `find` is an error; otherwise a fresh cursor at position 0 over the records the filter selects, in store order |
| Store.Collection.InsertOne | src/main.rs:154 | appends the record, or fails and changes nothing |
| Store.Collection.DeleteOne | src/main.rs:176-178 | applies `DeleteFirst` unless the write fails; the deleted count is the drop in length and at most 1 |
| Store.Collection.UpdateOne | src/api.rs:98-107 | applies `UpdateFirst` unless the write fails; reports whether a record matched |
| Store.Cursor.TryNext | src/api.rs:71 | yields the snapshot's records in order, then `None`; it fails on reaching the break position and then does not advance |
| Bot.Bot.SendMessage | src/api.rs:82-90 | appends exactly one message, to the given chat, to the outbox |
| Catalog.CheckAnimeExists | src/api.rs:36-61 | an empty search gives `None`; a non-empty search gives the details of the first hit's id; a search error, or else a details error, is passed on unchanged |
| Text.DecimalRoundTrip | src/main.rs:205 | a natural number written in decimal reads back as itself |
| Text.IntRoundTrip | src/main.rs:120 | `to_string` on an integer, sign included, reads back as the integer |
| Text.SplitJoin | src/main.rs:105-109 | `join(", ")` of a non-empty list of comma-free names splits back into the same list |
| Reconcile.Decide | src/api.rs:72-96 | remove exactly when the lookup found the title with status `"released"`; advance exactly when it found a title not released whose `episodes_aired` is present and above `last_episode`, and then to that `episodes_aired`; skip on a lookup error, `None`, or no new episode |
| Reconcile.ApplyEffect | src/api.rs:73-107 | a skip or a failed write leaves the store as it was; a removal takes out the first record of the visited (user, title) and shortens the store by at most one; an advance raises only that record and keeps the length; records of every other (user, title) are untouched |
| Reconcile.Notify | src/api.rs:82-119 | at most one message per visit, none on a skip, always addressed to the record's user |
| Reconcile.Visited | src/api.rs:66-71 | the pass sees a prefix of the snapshot: nothing when `find` fails, the first k records when the cursor fails at position k within the snapshot, all of them otherwise |
| Reconcile.Visit | src/api.rs:72-121 | one loop iteration: the store becomes `Apply` of the decision and the outbox gains `Notify` of it; the write comes before the message and its result is ignored |
| Reconcile.CheckNewEpisodes | src/api.rs:63-124 | the collection ends as `Pass(...).store` and the outbox gains exactly `Pass(...).sent`, for every combination of failures |
| Reconcile.DeleteFirstSelect | src/api.rs:75-80 | after `delete_one` on a (user, title), that key selects its old selection minus the head |
| Reconcile.DeleteFirstOthers | src/api.rs:75-80 | `delete_one` on one (user, title) leaves every other (user, title) selection unchanged |
| Reconcile.DeleteFirstLength | src/api.rs:75-80 | `delete_one` shortens the store by one exactly when the filter selected something |
| Reconcile.UpdateFirstSelect | src/api.rs:98-107 | after `update_one` the (user, title) selects the same records, with the first one's episode count set; the length is unchanged |
| Reconcile.UpdateFirstOthers | src/api.rs:98-107 | `update_one` on one (user, title) leaves every other (user, title) selection unchanged |
| ReconcileLaws.Notices | src/api.rs:71-123 | the messages of a pass over a list of records, at most one per record |
| ReconcileLaws.SentIsNotices | src/api.rs:75-90 | the messages a pass sends depend neither on the store nor on which writes fail, so a failed write never holds back its message |
| ReconcileLaws.NoticesAppend | src/api.rs:71 | the messages come in snapshot order: the messages for `a + b` are those for `a` followed by those for `b` |
| ReconcileLaws.PassSentAreNotices | src/api.rs:66-69 | a pass sends the messages of the records it visited; when `find` fails, or the cursor fails on the first record, it changes nothing and sends nothing |
| ReconcileLaws.RunFrame | src/api.rs:75-107 | a pass never adds a record, and the records of any (user, title) it did not visit are left exactly as they were |
| ReconcileLaws.Kept | src/api.rs:73-107 | one visited record's outcome: nothing exactly when it was removed by a successful write; otherwise one record with the same user, title and name |
| ReconcileLaws.StepAt | src/api.rs:73-107 | when no earlier record shares the visited record's key, the visit replaces that record by its `Kept` outcome and leaves the rest alone |
| ReconcileLaws.RunPerRecord | src/api.rs:71-123 | with unique (user, title) keys, the first `n` visits replace the first `n` records by their outcomes |
| ReconcileLaws.PassPerRecord | src/api.rs:63-124 | with unique keys, a whole pass, failures included, replaces the visited prefix by its outcomes and keeps the unvisited rest |
| ReconcileLaws.OutcomesRaised | src/api.rs:95-107 | every outcome record is one of the visited records, with the same user, title and name and an episode count at least as high |
| ReconcileLaws.PassNeverLowers | src/api.rs:95-107 | with unique keys, every record after a pass is a record from before with the same user, title and name and an episode count at least as high |
| ReconcileLaws.KeptSettled | src/api.rs:95-96 | a record brought up to date by a successful visit calls for no further action under the same catalog |
| ReconcileLaws.OutcomesSettled | src/api.rs:73-107 | after a pass with no write failures, every visited outcome is settled |
| ReconcileLaws.SettledRunInert | src/api.rs:72-121 | a pass over settled records changes nothing and sends nothing, whatever fails |
| ReconcileLaws.QuietSecondPass | src/api.rs:73-107 | with unique keys, after a pass that met no failure, a second pass against the same catalog changes nothing and sends nothing, whatever fails in it |
| ReconcileLaws.DuplicateKeyRenotifies | src/api.rs:98-107 | with two records of one (user, title), `update_one` rewrites the first: a count of 5, ahead of the 4 episodes the catalog reports, is set back to 4, and episode 4 is announced again on every later pass |
| Listing.ListingFrom | src/main.rs:201-207 | the listing is empty exactly when there are no records |
| Listing.ListingSnoc | src/main.rs:204-206 | one more record adds one more line at the end, numbered after the others, as the loop's `push_str` does |
| Listing.ListingRoundTrip | src/main.rs:205 | reading the listing back line by line gives every record's name, in order, numbered `i`, `i + 1`, …, when no name holds a line break |
| Commands.Sender | src/main.rs:141 | no sender is the `NoSender` error; otherwise the sender's id after the `as i64` cast |
| Commands.StartAnswer | src/main.rs:76-95 | greets the sender by first name, or fails without a reply when there is no sender; the store is unchanged |
| Commands.GenresText | src/main.rs:102-111 | the default text when the entry has no genre list, and the empty string for an empty list |
| Commands.GenresRoundTrip | src/main.rs:102-111 | the genre line splits back into each genre's Russian name, or else its name, in order |
| Commands.EpisodesText | src/main.rs:120 | the default text when the count is absent; otherwise a text that reads back as the count |
| Commands.Card | src/main.rs:113-124 | the `/info` card: the Russian title or else the name, the episode count or "Неизвестно", the genre line, and the description and score or their default texts |
| Commands.InfoAnswer | src/main.rs:97-133 | no blank check; a lookup error fails without a reply; otherwise one reply, "not found" or the card; the store is unchanged |
| Commands.SubscribeAnswer | src/main.rs:135-165 | a blank name gets "name not given" and touches neither store nor catalog; the store grows exactly when the name is not blank, there is a sender, the title is found and the insert succeeds, and then by one record built from the entry plus a reply echoing the typed name; "not found" leaves the store alone, and whenever the store keeps its length it is unchanged; the status is an error exactly when the name is not blank and there is no sender (`NoSender`), the lookup fails (its error) or the found entry's insert fails (`Storage`); any error sends no reply and changes nothing |
| Commands.UnsubscribeAnswer | src/main.rs:167-191 | a blank name gets "name not given"; at most one record is removed, exactly when the sender has a record with that exact stored name and the delete succeeds, and it is the first such record; when none is removed the store is unchanged; the reply says "unsubscribed" exactly when one was removed; the status is an error exactly when the name is not blank and there is no sender (`NoSender`) or the delete fails (`Storage`); an error sends no reply and changes nothing |
| Commands.ListReply | src/main.rs:209-213 | the fixed reply exactly when the listing is empty, otherwise the header with the listing |
| Commands.ListAnswer | src/main.rs:193-216 | the store is unchanged; it fails exactly when there is no sender, `find` fails or the cursor breaks within the sender's records; otherwise one reply: the listing of the sender's records numbered from 1, or the fixed reply exactly when there are none |
| Commands.AnswerSpec | src/main.rs:69-220 | only `/subscribe` and `/unsubscribe` change the store; every command ends either with exactly one reply to the chat it came from or with an error, no reply and the store as it was |
| Commands.Answer | src/main.rs:69-220 | the dispatcher's effect on the collection, the outbox and the status is `AnswerSpec` |
| Commands.HandleStart | src/main.rs:76-95 | sends what `StartAnswer` says and returns its status |
| Commands.HandleInfo | src/main.rs:97-133 | sends what `InfoAnswer` says and returns its status |
| Commands.HandleSubscribe | src/main.rs:135-165 | the collection, outbox and status `SubscribeAnswer` gives |
| Commands.HandleUnsubscribe | src/main.rs:167-191 | the collection, outbox and status `UnsubscribeAnswer` gives |
| Commands.HandleList | src/main.rs:193-216 | the outbox and status `ListAnswer` gives |
| Commands.BuildListing | src/main.rs:201-207 | the loop builds `ListingFrom(items, 1)` and fails exactly when the cursor breaks within the records |
| Commands.SubscribeThenUnsubscribe | src/main.rs:147-178 | subscribing and then unsubscribing with the stored name gives back the original collection with an "unsubscribed" reply, when the sender had no record under that name |
| Commands.TypedNameDoesNotUnsubscribe | src/main.rs:150-177 | when the stored name differs from the typed one, unsubscribing with the typed name removes nothing and replies "not subscribed" |
| Commands.SubscribeTwice | src/main.rs:146-154 | the same `/subscribe` twice stores the same record twice, so the collection loses the unique keys the pass's guarantees rely on |
| Commands.ListReadsBack | src/main.rs:197-213 | a non-empty `/list` reply reads back as the sender's stored names, numbered from 1 in store order |

## Behaviour that differs from what one might expect

The model follows the code in each case below.

- A failing command (catalog error, database error, cursor error) ends
  `answer` through `?`. It sends the user nothing; one might expect an
  apologetic message instead.
- A database error on the pass's cursor ends the pass: `while let Ok(Some(..))`
  stops on an error. One might expect the failing subscription to be
  skipped and the scan to go on.
- Nothing keeps (user, title) pairs unique. `/subscribe` never checks, as
  `SubscribeTwice` shows. With duplicates, `update_one` always hits the
  first record, so the pass can lower a count that is ahead of the catalog. It also announces
  the same episode on every pass (`DuplicateKeyRenotifies`). Monotonicity
  and idempotence are therefore proved under `UniqueKeys`.

## Left out

- The network, MongoDB and Telegram are abstracted:
  - HTTP requests, query strings, headers and JSON decoding in
    `check_anime_exists` are out. The catalog is two total functions, the
    search by name and the details by id.
  - The catalog does not change during one pass or command.
  - Sending a message always succeeds, and the outbox records every
    attempt. Send failures in the pass are discarded anyway. In handlers,
    a send failure would only turn `Ok` into an error after the effect.
- The image field of a catalog entry is not modelled because nothing reads it.
- Concurrency is not modelled: the hourly `tokio` loop and its `sleep`,
  commands running alongside a pass, and MongoDB cursor visibility. The
  pass reads a snapshot taken when `find` is called.
- Bootstrap (`main`, environment variables, connecting to the services)
  is not modelled, nor is src/keep_alive.rs (a TCP listener answering a
  fixed HTTP response). Both are I/O only.
- Message texts are kinds with their payloads, not the Russian sentences.
  The exact text is kept where layout is the point: the `/list` lines, the
  genre join and the `/info` default texts.
- `msg.from.unwrap()` panics when a message has no sender. The model turns
  this into the error `NoSender`.
- Commands.HandleList: the source's `index` counter is an `i32`, which
  would overflow after 2^31 − 1 lines. The model counts with an unbounded
  natural number.
- Commands.IsBlank uses Unicode `White_Space` as `str::trim` does. Dafny
  characters are Unicode scalar values, and no normalisation is modelled.
