/**
 * The increment feature: an app mention whose text is "increment" and one
 * other word is answered with the current value of a persisted counter,
 * which is then incremented. The counter's document store is abstracted as
 * an object holding an optional count, and the outcome of its read and write
 * as parameters.
 */
module Increment {
  import opened Wrappers
  import opened Slack
  import opened Words
  import opened Helpers

  const Keyword: string := "increment"

  /** The persisted counter document; `None` when it does not exist. */
  class Document {
    var stored: Option<int>

    constructor (stored: Option<int>)
      ensures this.stored == stored
    {
      this.stored := stored;
    }

    /**
     * The completion of `dbRef.set({count})`: the document holds the value
     * when the write succeeds and is untouched when it fails.
     */
    method Store(count: int, writeOk: bool)
      modifies this
      ensures stored == if writeOk then Some(count) else old(stored)
    {
      if writeOk {
        stored := Some(count);
      }
    }
  }

  /** The trigger: an app mention whose text splits into two words, one of them "increment". */
  predicate ShouldAct(e: Event) {
    e.kind == AppMention && TwoWordsWith(e.text, Keyword)
  }

  /**
   * The trigger fires exactly for an app mention whose text is "increment"
   * and a whitespace-free word, in either order, with one whitespace run between.
   */
  lemma ShouldActMeaning(e: Event)
    ensures ShouldAct(e) <==>
      (e.kind == AppMention &&
       exists other, sep :: WhitespaceFree(other) && IsSeparator(sep) &&
         (e.text == Keyword + sep + other || e.text == other + sep + Keyword))
  {
    KeywordIsToken();
    TwoWordsWithIff(e.text, Keyword);
  }

  lemma KeywordIsToken()
    ensures WhitespaceFree(Keyword)
  {
  }

  /** The count posted for a document: its count, or 0 when it does not exist. */
  function Current(stored: Option<int>): int {
    stored.GetOr(0)
  }

  /** The answer: `chat.postMessage` to the event's channel with the count as text. */
  function Post(e: Event, count: int): Action {
    Action(PostMessage, Message(e.channel, Num(count)))
  }

  /** The calls `onEvent` makes on the collector before it returns. */
  function StartSteps(e: Event): (r: seq<Step>)
    ensures forall i :: 0 <= i < |r| ==> r[i] == ReadyStep
  {
    if ShouldAct(e) then [] else [ReadyStep]
  }

  /** The calls the continuation of the document read makes on the collector. */
  function ResumeSteps(e: Event, stored: Option<int>, readOk: bool): (r: seq<Step>)
    ensures r != [] <==> readOk
    ensures r != [] ==> r[|r| - 1] == ReadyStep && |r| == 2
  {
    if readOk then [AddStep(Post(e, Current(stored))), ReadyStep] else []
  }

  /** Everything the handler does on the collector, when its continuation runs (if it has one). */
  function AllSteps(e: Event, stored: Option<int>, readOk: bool): seq<Step> {
    StartSteps(e) + (if ShouldAct(e) then ResumeSteps(e, stored, readOk) else [])
  }

  /**
   * Exactly one `ready`, as the last call, with the one post before it when
   * the trigger fires; except that when the read fails `ready` is never called.
   */
  lemma StepsContract(e: Event, stored: Option<int>, readOk: bool)
    ensures var s := AllSteps(e, stored, readOk);
      && ReadyCount(s) == (if ShouldAct(e) && !readOk then 0 else 1)
      && (ReadyCount(s) == 1 ==> s[|s| - 1] == ReadyStep)
      && Added(s) == if ShouldAct(e) && readOk then [Post(e, Current(stored))] else []
  {
    var s := AllSteps(e, stored, readOk);
    if ShouldAct(e) && readOk {
      assert s == [AddStep(Post(e, Current(stored))), ReadyStep];
      AddThenReady(Post(e, Current(stored)));
    } else if !ShouldAct(e) {
      assert s == [ReadyStep];
      SingleStep(ReadyStep);
    }
  }

  /**
   * `onEvent`: when the trigger does not fire, call `ready` and return;
   * otherwise start the document read and return with the rest pending.
   */
  method OnEvent(e: Event, actions: ActionSet) returns (pending: bool)
    requires actions.Valid()
    modifies actions, actions.res
    ensures pending == ShouldAct(e)
    ensures actions.Valid() && actions.trace == old(actions.trace) + StartSteps(e)
  {
    if !ShouldAct(e) {
      actions.Ready();
      return false;
    }
    pending := true;
  }

  /**
   * The continuation of the document read, given the snapshot the read
   * resolved with. When the read succeeds: post the snapshot's count (0
   * without a document), call `ready`, and issue the write of the count plus
   * one, returned as `write`; the write completes later, as a separate step
   * (`Document.Store`). A failed read is not handled (`.catch()` without a
   * handler rejects again): nothing is posted, `ready` is not called and no
   * write is issued.
   */
  method Resume(e: Event, actions: ActionSet, snapshot: Option<int>, readOk: bool) returns (write: Option<int>)
    requires actions.Valid()
    modifies actions, actions.res
    ensures actions.Valid() && actions.trace == old(actions.trace) + ResumeSteps(e, snapshot, readOk)
    ensures write == if readOk then Some(Current(snapshot) + 1) else None
  {
    if !readOk {
      return None;
    }
    var count := if snapshot.Some? then snapshot.value else 0;
    var self := actions.Add(PostMessage, Message(e.channel, Num(count)));
    self.Ready();
    count := count + 1;
    write := Some(count);
  }
}
