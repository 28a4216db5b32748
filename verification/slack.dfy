/**
 * The values that travel between the chat platform and the bot: the inbound
 * event that every feature handler sees, and the outbound actions
 * (`{method, body}` pairs) the handlers ask the platform to perform.
 */
module Slack {
  /** The event category that the feature handlers react to. */
  const AppMention: string := "app_mention"

  /** The Web API method both handlers use to answer in a channel. */
  const PostMessage: string := "chat.postMessage"

  /**
   * The part of an inbound event the handlers look at: its `type`, the
   * channel it came from and its free text.
   */
  datatype Event = Event(kind: string, channel: string, text: string)

  /** The `text` of a posted message: ping posts a string, increment a number. */
  datatype Text = Str(s: string) | Num(n: int)

  /** The body of a `chat.postMessage` call: `{channel, text}`. */
  datatype Body = Message(channel: string, text: Text)

  /** One outbound action: an API method name and its body. */
  datatype Action = Action(apiMethod: string, body: Body)
}
