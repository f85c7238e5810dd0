/** The record the content script scrapes from a chat row and the popup formats. */
module ChatMessages {

  import opened Wrappers

  datatype Direction = Incoming | Outgoing

  /**
    One scraped message. `timestamp` is `None` when the field is absent or not
    a string; an absent `author` or `text` reads like the empty string, since
    the popup only ever tests them for truthiness.
   */
  datatype ChatMessage = ChatMessage(direction: Direction, author: string, timestamp: Option<string>, text: string)
}
