/**
 * The request router: authenticate the request by its verification token,
 * and for an event callback hand the event to every loaded feature together
 * with one shared action collector built for that many features.
 *
 * The configured token and the loaded features are inputs. The features
 * come as a sequence in the (unspecified) iteration order of the set that
 * holds them.
 */
module Index {
  import opened Wrappers
  import opened Slack
  import opened Http
  import opened Words
  import opened Helpers
  import Ping
  import Increment

  /** The request type that triggers the fan-out. */
  const EventCallback: string := "event_callback"

  /** The request body fields the router reads. */
  datatype Request = Request(token: string, kind: string, event: Event)

  /** A loaded feature, identified by the module that implements its `onEvent`. */
  datatype Feature = PingFeature | IncrementFeature

  /** The collector calls a feature's `onEvent` makes before it returns. */
  function SyncSteps(f: Feature, e: Event): seq<Step> {
    match f
    case PingFeature => Ping.Steps(e)
    case IncrementFeature => Increment.StartSteps(e)
  }

  /** Whether a feature's `onEvent` leaves work pending (a document read). */
  predicate Awaits(f: Feature, e: Event) {
    f == IncrementFeature && Increment.ShouldAct(e)
  }

  /** The collector calls of the dispatch loop: each feature's, once, in iteration order. */
  function DispatchTrace(features: seq<Feature>, e: Event): seq<Step>
    decreases |features|
  {
    if features == [] then []
    else DispatchTrace(features[..|features| - 1], e) + SyncSteps(features[|features| - 1], e)
  }

  /** The number of features left with pending work after the dispatch loop. */
  function Awaiting(features: seq<Feature>, e: Event): nat
    decreases |features|
  {
    if features == [] then 0
    else Awaiting(features[..|features| - 1], e) + (if Awaits(features[|features| - 1], e) then 1 else 0)
  }

  /** Each feature either has called `ready` once by the end of the loop or still awaits its read. */
  lemma {:induction false} DispatchReadyCount(features: seq<Feature>, e: Event)
    ensures ReadyCount(DispatchTrace(features, e)) + Awaiting(features, e) == |features|
    decreases |features|
  {
    if features != [] {
      var init, f := features[..|features| - 1], features[|features| - 1];
      DispatchReadyCount(init, e);
      ReadyCountAppend(DispatchTrace(init, e), SyncSteps(f, e));
      match f
      case PingFeature => Ping.StepsContract(e);
      case IncrementFeature =>
        if !Increment.ShouldAct(e) { SingleStep(ReadyStep); }
    }
  }

  /**
   * The whole request. With at least one feature loaded, when the pending
   * continuations have called `ready` as many times as there are pending
   * features, the response is sent exactly once; while any is missing,
   * nothing is sent.
   */
  lemma RoundFlushes(features: seq<Feature>, e: Event, later: seq<Step>)
    requires |features| >= 1 && ReadyCount(later) <= Awaiting(features, e)
    ensures var flushed := Run(|features|, DispatchTrace(features, e) + later).flushed;
      |flushed| == (if ReadyCount(later) == Awaiting(features, e) then 1 else 0)
  {
    var t := DispatchTrace(features, e) + later;
    DispatchReadyCount(features, e);
    ReadyCountAppend(DispatchTrace(features, e), later);
    Flushes(|features|, t);
  }

  /**
   * `onEvent` of the HTTP endpoint. A wrong token is answered 403 before the
   * type is looked at; an event callback builds one collector for all the
   * loaded features and calls each feature's `onEvent` once with the event
   * and that collector; anything else is answered 400. Returns the collector
   * (null when none was built) and the number of features whose work is
   * still pending.
   */
  method OnEvent(req: Request, token: string, features: seq<Feature>, res: Response)
    returns (actions: ActionSet?, awaiting: nat)
    modifies res
    ensures req.token != token ==>
      && actions == null && awaiting == 0
      && res.status == 403 && res.sends == old(res.sends) + [NoBody]
      && res.contentType == old(res.contentType)
    ensures req.token == token && req.kind == EventCallback ==>
      && actions != null && fresh(actions) && actions.res == res
      && actions.Valid() && actions.numFeatures == |features|
      && actions.trace == DispatchTrace(features, req.event)
      && awaiting == Awaiting(features, req.event)
      && res.status == old(res.status)
      && res.sends == old(res.sends) + Payloads(actions.Flushed())
      && res.contentType == (if actions.Flushed() == [] then old(res.contentType) else Some(JsonContentType))
    ensures req.token == token && req.kind != EventCallback ==>
      && actions == null && awaiting == 0
      && res.status == 400 && res.sends == old(res.sends) + [NoBody]
      && res.contentType == old(res.contentType)
  {
    if req.token != token {
      res.Reply(403);
      return null, 0;
    } else if req.kind == EventCallback {
      actions := new ActionSet(res, |features|);
      awaiting := 0;
      for i := 0 to |features|
        invariant actions.Valid() && actions.res == res && actions.numFeatures == |features|
        invariant actions.sendsBefore == old(res.sends) && actions.statusBefore == old(res.status)
        invariant actions.contentTypeBefore == old(res.contentType)
        invariant actions.trace == DispatchTrace(features[..i], req.event)
        invariant awaiting == Awaiting(features[..i], req.event)
      {
        assert features[..i + 1][..i] == features[..i];
        match features[i]
        case PingFeature =>
          Ping.OnEvent(req.event, actions);
        case IncrementFeature =>
          var pending := Increment.OnEvent(req.event, actions);
          if pending {
            awaiting := awaiting + 1;
          }
      }
      assert features[..|features|] == features;
    } else {
      res.Reply(400);
      return null, 0;
    }
  }

  /** Both features loaded, in either iteration order. */
  function BothFeatures(pingFirst: bool): seq<Feature> {
    if pingFirst then [PingFeature, IncrementFeature] else [IncrementFeature, PingFeature]
  }

  // The lemmas below state facts about literal texts one at a time. Keeping each
  // literal in its own small lemma stops the verifier from unfolding `Split`
  // on literals inside the larger proofs.
  lemma WordsAreTokens()
    ensures WhitespaceFree("@bot") && WhitespaceFree("ping") && WhitespaceFree("increment")
    ensures WhitespaceFree("") && IsSeparator(" ")
  {
  }

  /** The texts below, written as word, space, word. */
  lemma BotWordsPing()
    ensures "@bot" + " " + "ping" == "@bot ping"
  {
  }

  lemma BotWordsIncrement()
    ensures "@bot" + " " + "increment" == "@bot increment"
  {
  }

  lemma PingWordsIncrement()
    ensures "ping" + " " + "increment" == "ping increment"
  {
  }

  /** "@bot ping" is the two words "@bot" and "ping". */
  lemma SplitBotPing()
    ensures Split("@bot ping") == ["@bot", "ping"]
  {
    WordsAreTokens();
    BotWordsPing();
    SplitTwo("@bot", " ", "ping");
  }

  /** "@bot increment" is the two words "@bot" and "increment". */
  lemma SplitBotIncrement()
    ensures Split("@bot increment") == ["@bot", "increment"]
  {
    WordsAreTokens();
    BotWordsIncrement();
    SplitTwo("@bot", " ", "increment");
  }

  /** A mention that splits into two words triggers exactly the features whose keyword is one of them. */
  lemma TwoWordEvent(e: Event, first: string, second: string)
    requires e.kind == AppMention && Split(e.text) == [first, second]
    ensures Ping.ShouldAct(e) <==> first == Ping.Keyword || second == Ping.Keyword
    ensures Increment.ShouldAct(e) <==> first == Increment.Keyword || second == Increment.Keyword
  {
  }

  /** On "@bot ping" ping acts and increment does not. */
  lemma PingTextTriggers(channel: string)
    ensures Ping.ShouldAct(Event(AppMention, channel, "@bot ping"))
    ensures !Increment.ShouldAct(Event(AppMention, channel, "@bot ping"))
  {
    SplitBotPing();
    TwoWordEvent(Event(AppMention, channel, "@bot ping"), "@bot", "ping");
  }

  /** On "@bot increment" increment acts and ping does not. */
  lemma IncrementTextTriggers(channel: string)
    ensures !Ping.ShouldAct(Event(AppMention, channel, "@bot increment"))
    ensures Increment.ShouldAct(Event(AppMention, channel, "@bot increment"))
  {
    SplitBotIncrement();
    TwoWordEvent(Event(AppMention, channel, "@bot increment"), "@bot", "increment");
  }

  /** A leading space yields an empty first token: " ping" is ["", "ping"], and ping acts on it. */
  lemma LeadingSpaceTriggers(channel: string)
    ensures Split(" ping") == ["", "ping"]
    ensures Ping.ShouldAct(Event(AppMention, channel, " ping"))
  {
    SplitSpacePing();
    TwoWordEvent(Event(AppMention, channel, " ping"), "", "ping");
  }

  lemma SplitSpacePing()
    ensures Split(" ping") == ["", "ping"]
  {
    WordsAreTokens();
    SplitTwo("", " ", "ping");
    assert "" + " " + "ping" == " ping";
  }

  /** "ping increment" is the two words "ping" and "increment". */
  lemma SplitPingIncrement()
    ensures Split("ping increment") == ["ping", "increment"]
  {
    WordsAreTokens();
    PingWordsIncrement();
    SplitTwo("ping", " ", "increment");
  }

  /** The two triggers overlap: both features act on "ping increment". */
  lemma BothTrigger(channel: string)
    ensures Ping.ShouldAct(Event(AppMention, channel, "ping increment"))
    ensures Increment.ShouldAct(Event(AppMention, channel, "ping increment"))
  {
    SplitPingIncrement();
    TwoWordEvent(Event(AppMention, channel, "ping increment"), "ping", "increment");
  }

  /**
   * Two features, one `add` before the second `ready` (whichever feature
   * made it): the one flush holds exactly that action.
   */
  lemma FlushOfTwo(a: Action, trace: seq<Step>)
    requires trace == [AddStep(a), ReadyStep, ReadyStep] || trace == [ReadyStep, AddStep(a), ReadyStep]
    ensures Run(2, trace).flushed == [[a]]
  {
    if trace[0] == ReadyStep {
      FlushReadyFirst(a);
    } else {
      FlushAddFirst(a);
    }
  }

  lemma FlushReadyFirst(a: Action)
    ensures Run(2, [ReadyStep, AddStep(a), ReadyStep]).flushed == [[a]]
  {
    var trace := [ReadyStep, AddStep(a), ReadyStep];
    SingleStep(ReadyStep);
    SingleStep(AddStep(a));
    AddThenReady(a);
    assert trace == [ReadyStep] + [AddStep(a), ReadyStep];
    ReadyCountAppend([ReadyStep], [AddStep(a), ReadyStep]);
    assert ReadyCount(trace) == 2;
    var i := NthReady(trace, 2);
    assert trace[..0] == [];
    assert i == 2;
    assert trace[..2] == [ReadyStep] + [AddStep(a)];
    AddedAppend([ReadyStep], [AddStep(a)]);
    Flushes(2, trace);
  }

  lemma FlushAddFirst(a: Action)
    ensures Run(2, [AddStep(a), ReadyStep, ReadyStep]).flushed == [[a]]
  {
    var trace := [AddStep(a), ReadyStep, ReadyStep];
    SingleStep(ReadyStep);
    SingleStep(AddStep(a));
    AddThenReady(a);
    assert trace == [AddStep(a), ReadyStep] + [ReadyStep];
    ReadyCountAppend([AddStep(a), ReadyStep], [ReadyStep]);
    assert trace[..2] == [AddStep(a), ReadyStep];
    Flushes(2, trace);
  }

  /** The dispatch trace over both features is the two features' steps in iteration order. */
  lemma DispatchBoth(pingFirst: bool, e: Event)
    ensures DispatchTrace(BothFeatures(pingFirst), e) ==
      if pingFirst then Ping.Steps(e) + Increment.StartSteps(e)
      else Increment.StartSteps(e) + Ping.Steps(e)
  {
    var fs := BothFeatures(pingFirst);
    assert fs[..1] == [fs[0]] && fs[..1][..0] == [];
    assert DispatchTrace(fs[..1], e) == [] + SyncSteps(fs[0], e) == SyncSteps(fs[0], e);
    assert DispatchTrace(fs, e) == DispatchTrace(fs[..1], e) + SyncSteps(fs[1], e);
  }

  /**
   * Both features loaded, an event that only ping acts on: in either
   * iteration order the one flush holds just the pong reply.
   */
  lemma PingRound(e: Event, pingFirst: bool)
    requires Ping.ShouldAct(e) && !Increment.ShouldAct(e)
    ensures Run(2, DispatchTrace(BothFeatures(pingFirst), e)).flushed == [[Ping.Reply(e)]]
  {
    DispatchBoth(pingFirst, e);
    var pong := Ping.Reply(e);
    var trace := DispatchTrace(BothFeatures(pingFirst), e);
    assert trace == [AddStep(pong), ReadyStep, ReadyStep] || trace == [ReadyStep, AddStep(pong), ReadyStep];
    FlushOfTwo(pong, trace);
  }

  /**
   * With ping and increment loaded and an event only ping acts on (such as
   * the text "@bot ping", see PingTextTriggers), an authenticated event
   * callback is answered once, synchronously, with status 200 and the single
   * "pong" action for the event's channel.
   */
  method PingScenario(e: Event, pingFirst: bool) returns (status: int, sends: seq<Payload>)
    requires Ping.ShouldAct(e) && !Increment.ShouldAct(e)
    ensures status == 200
    ensures sends == [ActionsJson([Action(PostMessage, Message(e.channel, Str("pong")))])]
  {
    var res := new Response();
    var features := BothFeatures(pingFirst);
    PingRound(e, pingFirst);
    var actions, awaiting := OnEvent(Request("secret", EventCallback, e), "secret", features, res);
    status, sends := res.status, res.sends;
  }

  /**
   * Both features loaded, an event that only increment acts on: once its
   * read succeeds the one flush holds just the post of the current count;
   * while the read fails nothing is flushed.
   */
  lemma IncrementRound(e: Event, pingFirst: bool, stored: Option<int>, readOk: bool)
    requires !Ping.ShouldAct(e) && Increment.ShouldAct(e)
    ensures Run(2, DispatchTrace(BothFeatures(pingFirst), e) + Increment.ResumeSteps(e, stored, readOk)).flushed ==
      if readOk then [[Increment.Post(e, Increment.Current(stored))]] else []
  {
    DispatchBoth(pingFirst, e);
    assert Ping.Steps(e) == [ReadyStep] && Increment.StartSteps(e) == [];
    assert [ReadyStep] + [] == [] + [ReadyStep];
    assert DispatchTrace(BothFeatures(pingFirst), e) == [ReadyStep];
    AwaitedRound(Increment.Post(e, Increment.Current(stored)), readOk);
  }

  /** One feature answered at once, the other answers (or not) from its continuation. */
  lemma AwaitedRound(post: Action, readOk: bool)
    ensures Run(2, [ReadyStep] + (if readOk then [AddStep(post), ReadyStep] else [])).flushed ==
      if readOk then [[post]] else []
  {
    if readOk {
      assert [ReadyStep] + [AddStep(post), ReadyStep] == [ReadyStep, AddStep(post), ReadyStep];
      FlushOfTwo(post, [ReadyStep, AddStep(post), ReadyStep]);
    } else {
      assert [ReadyStep] + [] == [ReadyStep];
      SingleStep(ReadyStep);
      RunQuiet(2, [ReadyStep]);
    }
  }

  /**
   * With ping and increment loaded, no counter document and an event only
   * increment acts on (such as the text "@bot increment", see
   * IncrementTextTriggers): the request is answered once the read
   * completes, with the single action posting 0, and the document then
   * holds 1. When the read fails the request is never answered and the
   * document is untouched.
   */
  method IncrementScenario(e: Event, pingFirst: bool, readOk: bool)
    returns (sends: seq<Payload>, stored: Option<int>)
    requires !Ping.ShouldAct(e) && Increment.ShouldAct(e)
    ensures readOk ==> sends == [ActionsJson([Action(PostMessage, Message(e.channel, Num(0)))])]
    ensures readOk ==> stored == Some(1)
    ensures !readOk ==> sends == [] && stored == None
  {
    var res := new Response();
    var doc := new Increment.Document(None);
    var features := BothFeatures(pingFirst);
    IncrementRound(e, pingFirst, None, readOk);
    ghost var flushed := Run(2, DispatchTrace(features, e) + Increment.ResumeSteps(e, None, readOk)).flushed;
    var actions, awaiting := OnEvent(Request("secret", EventCallback, e), "secret", features, res);
    assert actions.trace == DispatchTrace(features, e) && actions.numFeatures == 2;
    var write := Increment.Resume(e, actions, doc.stored, readOk);
    if write.Some? {
      doc.Store(write.value, true);
    }
    assert actions.Flushed() == flushed;
    assert res.sends == [] + Payloads(flushed);
    sends, stored := res.sends, doc.stored;
  }

  /** With only increment loaded, one `add` then the `ready`: the flush holds that action. */
  lemma FlushOfOne(a: Action)
    ensures Run(1, [AddStep(a), ReadyStep]).flushed == [[a]]
  {
    var trace := [AddStep(a), ReadyStep];
    AddThenReady(a);
    var i := NthReady(trace, 1);
    assert i == 1;
    assert trace[..1] == [AddStep(a)];
    SingleStep(AddStep(a));
    Flushes(1, trace);
  }

  /** An event callback with only increment loaded, on a fresh response: the read is pending and nothing is sent. */
  method StartIncrementOnly(e: Event, res: Response) returns (actions: ActionSet)
    requires Increment.ShouldAct(e) && res.sends == []
    modifies res
    ensures fresh(actions) && actions.res == res && actions.Valid()
    ensures actions.numFeatures == 1 && actions.trace == [] && actions.sendsBefore == []
  {
    var a, _ := OnEvent(Request("secret", EventCallback, e), "secret", [IncrementFeature], res);
    assert [IncrementFeature][..0] == [];
    actions := a;
  }

  /**
   * The read's continuation for a request with only increment loaded: the
   * response is the one post of the snapshot's count, and the write issued
   * is that count plus one.
   */
  method ResumeIncrementOnly(e: Event, actions: ActionSet, snapshot: Option<int>) returns (write: int)
    requires actions.Valid() && actions.numFeatures == 1 && actions.trace == [] && actions.sendsBefore == []
    modifies actions, actions.res
    ensures actions.Valid()
    ensures actions.res.sends == [ActionsJson([Increment.Post(e, Increment.Current(snapshot))])]
    ensures write == Increment.Current(snapshot) + 1
  {
    var w := Increment.Resume(e, actions, snapshot, true);
    var post := Increment.Post(e, Increment.Current(snapshot));
    assert actions.trace == [AddStep(post), ReadyStep];
    FlushOfOne(post);
    assert actions.Flushed() == [[post]];
    write := w.value;
  }

  /**
   * Two requests that increment acts on, with only increment loaded, whose
   * reads both resolve before either write completes: both are answered with
   * the same count c, and the document ends at c + 1, not c + 2. The read,
   * the post and the write are not one atomic step, so one increment is lost.
   */
  method RacingIncrements(e1: Event, e2: Event, c: int)
    returns (sends1: seq<Payload>, sends2: seq<Payload>, stored: Option<int>)
    requires Increment.ShouldAct(e1) && Increment.ShouldAct(e2)
    ensures sends1 == [ActionsJson([Action(PostMessage, Message(e1.channel, Num(c)))])]
    ensures sends2 == [ActionsJson([Action(PostMessage, Message(e2.channel, Num(c)))])]
    ensures stored == Some(c + 1)
  {
    var doc := new Increment.Document(Some(c));
    var res1 := new Response();
    var actions1 := StartIncrementOnly(e1, res1);
    var write1 := ResumeIncrementOnly(e1, actions1, doc.stored);
    sends1 := res1.sends;
    var res2 := new Response();
    var actions2 := StartIncrementOnly(e2, res2);
    var write2 := ResumeIncrementOnly(e2, actions2, doc.stored);
    sends2 := res2.sends;
    doc.Store(write1, true);
    doc.Store(write2, true);
    stored := doc.stored;
  }
}
