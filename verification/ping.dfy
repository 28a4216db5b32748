/**
 * The ping feature: an app mention whose text is "ping" and one other word
 * is answered with "pong" in the same channel.
 */
module Ping {
  import opened Slack
  import opened Words
  import opened Helpers

  const Keyword: string := "ping"

  /** The trigger: an app mention whose text splits into two words, one of them "ping". */
  predicate ShouldAct(e: Event) {
    e.kind == AppMention && TwoWordsWith(e.text, Keyword)
  }

  /**
   * The trigger fires exactly for an app mention whose text is "ping" and a
   * whitespace-free word, in either order, with one whitespace run between.
   */
  lemma ShouldActMeaning(e: Event)
    ensures ShouldAct(e) <==>
      (e.kind == AppMention &&
       exists other, sep :: WhitespaceFree(other) && IsSeparator(sep) &&
         (e.text == Keyword + sep + other || e.text == other + sep + Keyword))
  {
    KeywordIsToken();
    TwoWordsWithIff(e.text, Keyword);
  }

  lemma KeywordIsToken()
    ensures WhitespaceFree(Keyword)
  {
  }

  /** The answer: `chat.postMessage` to the event's channel with text "pong". */
  function Reply(e: Event): Action {
    Action(PostMessage, Message(e.channel, Str("pong")))
  }

  /** The calls `onEvent` makes on the shared collector. */
  function Steps(e: Event): (r: seq<Step>)
    ensures r != [] && r[|r| - 1] == ReadyStep
  {
    if ShouldAct(e) then [AddStep(Reply(e)), ReadyStep] else [ReadyStep]
  }

  /** On every path: exactly one `ready`, as the last call, after at most the one reply. */
  lemma StepsContract(e: Event)
    ensures ReadyCount(Steps(e)) == 1 && Steps(e)[|Steps(e)| - 1] == ReadyStep
    ensures Added(Steps(e)) == if ShouldAct(e) then [Reply(e)] else []
  {
    if ShouldAct(e) {
      AddThenReady(Reply(e));
    } else {
      SingleStep(ReadyStep);
    }
  }

  /** `onEvent`: when the trigger fires add the reply, and in every case call `ready` once. */
  method OnEvent(e: Event, actions: ActionSet)
    requires actions.Valid()
    modifies actions, actions.res
    ensures actions.Valid() && actions.trace == old(actions.trace) + Steps(e)
  {
    if !ShouldAct(e) {
      actions.Ready();
      return;
    }
    var self := actions.Add(PostMessage, Message(e.channel, Str("pong")));
    self.Ready();
  }
}
