/**
 * The action collector: a counter barrier with an append-only action list
 * and a one-shot response sink. `ready` counts down the features still to
 * finish; the call that brings the count to exactly zero sends every action
 * collected so far, in the order `add` received them.
 *
 * The behaviour is first stated on values: a trace of `add`/`ready` steps
 * replayed from the initial state (Run). The class ActionSet is then proved
 * to follow that replay, with the trace kept in a ghost field.
 */
module Helpers {
  import opened Slack
  import opened Http
  import opened Wrappers

  /** One call on the collector. */
  datatype Step = AddStep(action: Action) | ReadyStep

  /** The collector's state: the counter, the actions, and what was flushed so far. */
  datatype Barrier = Barrier(left: int, actions: seq<Action>, flushed: seq<seq<Action>>)

  /** The effect of one call. */
  function Apply(b: Barrier, step: Step): Barrier {
    match step
    case AddStep(a) => b.(actions := b.actions + [a])
    case ReadyStep =>
      if b.left - 1 == 0 then Barrier(0, b.actions, b.flushed + [b.actions])
      else b.(left := b.left - 1)
  }

  /** The state after replaying `trace` on a collector built for `n` features. */
  function Run(n: int, trace: seq<Step>): Barrier
    decreases |trace|
  {
    if trace == [] then Barrier(n, [], [])
    else Apply(Run(n, trace[..|trace| - 1]), trace[|trace| - 1])
  }

  /** The number of `ready` calls in a trace. */
  function ReadyCount(trace: seq<Step>): nat
    decreases |trace|
  {
    if trace == [] then 0
    else ReadyCount(trace[..|trace| - 1]) + (if trace[|trace| - 1].ReadyStep? then 1 else 0)
  }

  /** The actions passed to `add` in a trace, in call order. */
  function Added(trace: seq<Step>): seq<Action>
    decreases |trace|
  {
    if trace == [] then []
    else Added(trace[..|trace| - 1]) + (if trace[|trace| - 1].AddStep? then [trace[|trace| - 1].action] else [])
  }

  lemma SingleStep(step: Step)
    ensures ReadyCount([step]) == (if step.ReadyStep? then 1 else 0)
    ensures Added([step]) == (if step.AddStep? then [step.action] else [])
  {
    assert [step][..0] == [];
  }

  /** Counting over `add` then `ready`: one `ready`, and the one action. */
  lemma AddThenReady(a: Action)
    ensures ReadyCount([AddStep(a), ReadyStep]) == 1
    ensures Added([AddStep(a), ReadyStep]) == [a]
  {
    assert [AddStep(a), ReadyStep] == [AddStep(a)] + [ReadyStep];
    SingleStep(AddStep(a));
    SingleStep(ReadyStep);
    ReadyCountAppend([AddStep(a)], [ReadyStep]);
    AddedAppend([AddStep(a)], [ReadyStep]);
  }

  lemma {:induction false} ReadyCountAppend(a: seq<Step>, b: seq<Step>)
    ensures ReadyCount(a + b) == ReadyCount(a) + ReadyCount(b)
    decreases |b|
  {
    if b == [] {
      assert a + b == a;
    } else {
      var b' := b[..|b| - 1];
      assert (a + b)[..|a + b| - 1] == a + b';
      ReadyCountAppend(a, b');
    }
  }

  lemma {:induction false} AddedAppend(a: seq<Step>, b: seq<Step>)
    ensures Added(a + b) == Added(a) + Added(b)
    decreases |b|
  {
    if b == [] {
      assert a + b == a;
    } else {
      var b' := b[..|b| - 1];
      assert (a + b)[..|a + b| - 1] == a + b';
      AddedAppend(a, b');
    }
  }

  /** `add` never touches the counter and `ready` never touches the actions:
      the counter is n minus the `ready` calls, the list is every added action in order. */
  lemma {:induction false} RunCounter(n: int, trace: seq<Step>)
    ensures Run(n, trace).left == n - ReadyCount(trace)
    ensures Run(n, trace).actions == Added(trace)
    decreases |trace|
  {
    if trace != [] {
      RunCounter(n, trace[..|trace| - 1]);
    }
  }

  /** The index of the k-th `ready` call in a trace that has at least k of them. */
  function NthReady(trace: seq<Step>, k: nat): (i: nat)
    requires 1 <= k <= ReadyCount(trace)
    ensures i < |trace| && trace[i] == ReadyStep && ReadyCount(trace[..i]) == k - 1
    decreases |trace|
  {
    var init := trace[..|trace| - 1];
    if ReadyCount(init) >= k then
      var i := NthReady(init, k);
      assert init[..i] == trace[..i];
      i
    else
      |trace| - 1
  }

  /** Fewer `ready` calls than features, or no features at all: nothing is sent. */
  lemma {:induction false} RunQuiet(n: int, trace: seq<Step>)
    requires n < 1 || ReadyCount(trace) < n
    ensures Run(n, trace).flushed == []
    decreases |trace|
  {
    if trace != [] {
      var init := trace[..|trace| - 1];
      RunQuiet(n, init);
      RunCounter(n, init);
    }
  }

  /** The n-th `ready` sends the actions added before it; later calls send nothing more. */
  lemma {:induction false} RunFlushOnce(n: int, before: seq<Step>, after: seq<Step>)
    requires n >= 1 && ReadyCount(before) == n - 1
    ensures Run(n, before + [ReadyStep] + after).flushed == [Added(before)]
    decreases |after|
  {
    var upTo := before + [ReadyStep];
    if after == [] {
      assert upTo + after == upTo && upTo[..|upTo| - 1] == before;
      RunQuiet(n, before);
      RunCounter(n, before);
    } else {
      var t := upTo + after;
      var init := upTo + after[..|after| - 1];
      assert t[..|t| - 1] == init;
      RunFlushOnce(n, before, after[..|after| - 1]);
      RunCounter(n, init);
      ReadyCountAppend(upTo, after[..|after| - 1]);
      assert upTo[..|upTo| - 1] == before;
    }
  }

  /**
   * The barrier theorem. A collector built for n >= 1 features sends exactly
   * once when it has seen at least n `ready` calls, and never otherwise; what
   * it sends is the actions added before the n-th `ready`, in `add` order.
   */
  lemma {:induction false} Flushes(n: int, trace: seq<Step>)
    ensures Run(n, trace).flushed ==
      if 1 <= n <= ReadyCount(trace) then [Added(trace[..NthReady(trace, n)])] else []
  {
    if 1 <= n <= ReadyCount(trace) {
      var i := NthReady(trace, n);
      assert trace == trace[..i] + [ReadyStep] + trace[i + 1..];
      RunFlushOnce(n, trace[..i], trace[i + 1..]);
    } else {
      RunQuiet(n, trace);
    }
  }

  /** The collector shared by every feature handler for one request. */
  class ActionSet {
    /** The response the flush writes to. */
    const res: Response
    /** The number of features the collector was built for. */
    ghost const numFeatures: int
    var numFeaturesLeft: int
    var actions: seq<Action>
    /** Every `add` and `ready` call so far, in order. */
    ghost var trace: seq<Step>
    /** The response as it was when the collector was built. */
    ghost const sendsBefore: seq<Payload>
    ghost const statusBefore: int
    ghost const contentTypeBefore: Option<string>

    /**
     * The counter and the action list are those of the replayed trace, and
     * the response holds exactly the flushes of that trace: a JSON body per
     * flush, the JSON content type once something was flushed, and the
     * status it had.
     */
    ghost predicate Valid()
      reads this, res
    {
      var b := Run(numFeatures, trace);
      && numFeaturesLeft == b.left && actions == b.actions
      && res.sends == sendsBefore + Payloads(b.flushed)
      && res.contentType == (if b.flushed == [] then contentTypeBefore else Some(JsonContentType))
      && res.status == statusBefore
    }

    /** The action lists sent to `res` so far. */
    ghost function Flushed(): seq<seq<Action>>
      reads this
    {
      Run(numFeatures, trace).flushed
    }

    /** An empty collector expecting `numFeatures` calls to `ready`; nothing is sent. */
    constructor (res: Response, numFeatures: int)
      ensures Valid() && this.res == res && this.numFeatures == numFeatures
      ensures numFeaturesLeft == numFeatures && actions == [] && trace == []
      ensures Flushed() == []
      ensures sendsBefore == res.sends && statusBefore == res.status && contentTypeBefore == res.contentType
    {
      this.res := res;
      this.numFeatures := numFeatures;
      sendsBefore, statusBefore, contentTypeBefore := res.sends, res.status, res.contentType;
      numFeaturesLeft := numFeatures;
      actions := [];
      trace := [];
    }

    /**
     * One feature has finished: count down, and when the count is exactly
     * zero set the JSON content type and send every collected action.
     */
    method Ready()
      requires Valid()
      modifies this, res
      ensures Valid() && trace == old(trace) + [ReadyStep]
      ensures numFeaturesLeft == old(numFeaturesLeft) - 1 && actions == old(actions)
      ensures numFeaturesLeft == 0 ==>
        && res.contentType == Some(JsonContentType)
        && res.sends == old(res.sends) + [ActionsJson(actions)]
        && res.status == old(res.status)
        && Flushed() == old(Flushed()) + [actions]
      ensures numFeaturesLeft != 0 ==> unchanged(res) && Flushed() == old(Flushed())
    {
      numFeaturesLeft := numFeaturesLeft - 1;
      if numFeaturesLeft == 0 {
        res.SetContentType(JsonContentType);
        res.Send(ActionsJson(actions));
      }
      trace := trace + [ReadyStep];
      assert trace[..|trace| - 1] == old(trace);
      assert Payloads(old(Flushed()) + [actions]) == Payloads(old(Flushed())) + [ActionsJson(actions)];
    }

    /** Appends `{method, body}` and returns this same collector; counter and response untouched. */
    method Add(apiMethod: string, body: Body) returns (self: ActionSet)
      requires Valid()
      modifies this
      ensures self == this && Valid()
      ensures actions == old(actions) + [Action(apiMethod, body)]
      ensures numFeaturesLeft == old(numFeaturesLeft) && Flushed() == old(Flushed())
      ensures trace == old(trace) + [AddStep(Action(apiMethod, body))]
    {
      actions := actions + [Action(apiMethod, body)];
      trace := trace + [AddStep(Action(apiMethod, body))];
      assert trace[..|trace| - 1] == old(trace);
      self := this;
    }
  }
}
