/** The chat side: the messages the bot sends, told apart by kind with the
    values they carry, and the bot object that records every message it is
    asked to send. */
module Bot {
  import opened Types

  /** What the `/info` reply shows, field by field, with defaults filled in. */
  datatype InfoCard = InfoCard(title: string, episodes: string, genres: string, description: string, score: string)

  datatype Content =
    | Welcome(firstName: string)          // the `/start` greeting
    | AnimeInfo(card: InfoCard)           // the `/info` card
    | NotFound                            // the lookup found no title
    | NameMissing                         // the command was given a blank name
    | Subscribed(typed: string)           // echoes the name as typed
    | Unsubscribed(typed: string)
    | NotSubscribed(typed: string)
    | NothingTracked                      // `/list` with no records
    | Tracking(listing: string)           // `/list`: the numbered lines
    | Finished(name: string)              // the title is released; subscription removed
    | EpisodeAired(episode: int32, name: string)

  datatype Outgoing = Outgoing(chat: int64, text: Content)

  /** The bot: `outbox` holds, in order, every message it was asked to send.
      Delivery itself is not modelled; every send is a recorded attempt. */
  class Bot {
    var outbox: seq<Outgoing>

    constructor ()
      ensures outbox == []
    {
      outbox := [];
    }

    method SendMessage(chat: int64, text: Content)
      modifies this
      ensures outbox == old(outbox) + [Outgoing(chat, text)]
    {
      outbox := outbox + [Outgoing(chat, text)];
    }
  }
}
