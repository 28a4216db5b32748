# Alphatron request fan-in, modelled in Dafny

Alphatron is a Slack bot that runs as one HTTP function. Each inbound request carries a verification token, a request type and a Slack event:

- A request with the wrong token is answered 403.
- An `event_callback` is handed to every loaded feature, together with one shared action collector, the `ActionSet`.
- Any other request is answered 400.

Each feature decides on its own whether to act:
- It may `add` Slack API calls to the collector.
- It must call `ready` once it is done.
- When the last expected `ready` arrives, the collector sets the JSON content type and sends every collected action as `{actions: [...]}`. That is the whole response.

Two features ship with the bot:
- **ping** answers "pong" to a mention whose text is `ping` plus one other word.
- **increment** answers a mention whose text is `increment` plus one other word with a counter kept in a document store, then stores the counter plus one.

## Modules

- `Wrappers`: `Option`.
- `Slack`: the event (`type`, `channel`, `text`) and the action (`method`, `body`) records, with the API method and event type constants.
- `Http`: the part of the response object the code writes: status, Content-Type header and the bodies sent. JSON serialisation is abstracted: a sent body is either empty or the action sequence itself.
- `Words`: the JavaScript `text.split(/\s+/)`, on the ECMAScript `\s` character set.
  - `Split` is the executable definition. It splits at maximal whitespace runs, so a leading or trailing run gives an empty token.
  - `Weave` and `IsTokenization` are an independent description of all texts and their token/separator decompositions.
  - `SplitSound` and `SplitUnique` prove that `Split` returns exactly that decomposition.
- `Helpers`: the `ActionSet` collector. It is a class with the source's fields `numFeaturesLeft` and `actions` and a reference to the response.
  - A ghost `trace` records every `add`/`ready` call.
  - `Valid()` ties the fields and the response to `Run`, a pure replay of that trace.
  - The lemmas about `Run` are the barrier's properties:
    - the counter is `n` minus the `ready` calls;
    - there is at most one send;
    - a send happens iff `n >= 1` and at least `n` `ready` calls were made;
    - the payload is the actions added before the n-th `ready`, in call order.
- `Ping`, `Increment`: each feature's trigger, its reply, and its `onEvent` as a method on the shared collector.
  - Increment's document is a `Document` object holding `stored: Option<int>`.
  - Its asynchronous read is split in two:
    - `OnEvent` starts the read and reports that work is pending;
    - `Resume` is the continuation, run by the caller with the snapshot the read resolved with and whether the read succeeded; it returns the write it issues;
    - `Document.Store` is the completion of that write, a separate step the caller schedules, so another request's read can come between a read and its write.
- `Index`: the router `OnEvent`, the per-request dispatch trace, and three end-to-end scenarios:
  - with both features loaded, "@bot ping" gives one flush with one "pong";
  - with both features loaded, "@bot increment" with no document gives one flush posting 0 and the document then holding 1;
  - with only increment loaded, two increment requests whose reads both come before either write are both answered with the same count, and the document gains 1, not 2 (`Index.RacingIncrements`).

Behaviours of the code that a caller may not expect:
- The collector accepts any feature count; a count below 1 never sends.
- A failed counter read is not handled (`.catch()` without a handler rejects again): `ready` is never called and the request is never answered. `Increment.StepsContract` states this.
- Two concurrent increments can lose an update: the read, the post and the write are separate steps. `Index.RacingIncrements` states this.

## Model

| member | source | states |
|---|---|---|
| Helpers.ActionSet.constructor | src/helpers.ts:23-26 | counter = numFeatures, empty action list, empty trace, nothing flushed, response untouched |
| Helpers.ActionSet.Add | src/helpers.ts:51-55 | appends exactly `{method, body}` at the end, returns the same object, keeps the counter, the response and everything already flushed |
| Helpers.ActionSet.Ready | src/helpers.ts:35-42 | counter decreases by one; iff it is then 0, Content-Type becomes application/json and one body with the current actions is sent, status kept; otherwise the response is unchanged |
| Helpers.RunCounter | src/helpers.ts:36 | after any call sequence the counter is n minus the number of `ready` calls and the list is every added action in call order (`add` never touches the counter) |
| Helpers.NthReady | src/helpers.ts:35-38 | with at least k `ready` calls, the position of the k-th one: a `ready` with exactly k-1 before it |
| Helpers.RunQuiet | src/helpers.ts:36-38 | with n < 1, or fewer than n `ready` calls, nothing is ever sent |
| Helpers.RunFlushOnce | src/helpers.ts:29-41 | the n-th `ready` sends the actions added before it and no later call sends again, whatever follows (late `add`s included) |
| Helpers.Flushes | src/helpers.ts:29-42 | sends are exactly one body iff 1 <= n <= number of `ready` calls, and that body is the actions added before the n-th `ready`, in order; otherwise none |
| Http.Payloads | src/helpers.ts:40 | one `{actions: ...}` body per flushed list, in order |
| Http.Response.Reply | src/index.ts:24 | `res.status(code).send()`: status set, one empty body appended, header kept |
| Http.Response.SetContentType | src/helpers.ts:39 | header set, status and bodies kept |
| Http.Response.Send | src/helpers.ts:40 | one body appended, status and header kept |
| Words.Split | src/features/ping.ts:17 | the split always has at least one token |
| Words.SplitSound | src/features/ping.ts:17 | the tokens of `Split(s)` and the whitespace runs between them form a tokenization (inner tokens non-empty, runs all whitespace) that reassembles to `s` |
| Words.SplitUnique | src/features/ping.ts:17 | every tokenization of a text is the one `Split` returns |
| Words.SplitTwo | src/features/ping.ts:17 | `a + run + b` with whitespace-free `a`, `b` splits into exactly `[a, b]` |
| Words.TwoWordsWithIff | src/features/ping.ts:19 | two tokens, one of them `word`, iff the text is `word` and a whitespace-free word in either order joined by one whitespace run |
| Ping.ShouldAct | src/features/ping.ts:14-20 | the trigger as written: an app mention whose text splits into exactly two tokens, one of them "ping"; `Ping.ShouldActMeaning` states what that means without `Split` |
| Ping.Steps | src/features/ping.ts:4-11 | the collector calls of `onEvent`: never empty, and the last call is always `ready` (the pong reply before it when the trigger fires); `Ping.StepsContract` counts them |
| Ping.ShouldActMeaning | src/features/ping.ts:14-20 | ping acts iff the event is an app mention whose text is "ping" and another whitespace-free word around one whitespace run (false for any other event type) |
| Ping.StepsContract | src/features/ping.ts:4-11 | on every path exactly one `ready`, as the last call; the only `add` is the pong reply, present iff the trigger fires |
| Ping.OnEvent | src/features/ping.ts:4-11 | the collector receives exactly `Steps(e)` and stays consistent with its response |
| Increment.ShouldAct | src/features/increment.ts:29-35 | the trigger as written: an app mention whose text splits into exactly two tokens, one of them "increment"; `Increment.ShouldActMeaning` states what that means without `Split` |
| Increment.StartSteps | src/features/increment.ts:7-8 | the collector calls `onEvent` makes before it returns: only `ready` calls (no `add` before the read), one when the trigger does not fire, none otherwise |
| Increment.ResumeSteps | src/features/increment.ts:10-19 | the collector calls of the read's continuation: calls happen iff the read succeeds, and then there are two, ending with `ready` (the post of the snapshot's count, 0 without a document, comes first) |
| Increment.ShouldActMeaning | src/features/increment.ts:29-35 | increment acts iff the event is an app mention whose text is "increment" and another whitespace-free word around one whitespace run |
| Increment.StepsContract | src/features/increment.ts:7-25 | not acting: one `ready`, nothing added; acting with a successful read: the post of the current count (0 without a document) then one `ready`; acting with a failed read: no call at all |
| Increment.OnEvent | src/features/increment.ts:7-10 | not acting: `ready` at once, nothing pending; acting: no collector call yet, the read is pending |
| Increment.Resume | src/features/increment.ts:10-25 | the read's continuation: posts the snapshot's count or 0 to the event's channel, calls `ready`, and issues the write of that count plus one; a failed read posts nothing, calls nothing and issues no write |
| Increment.Document.Store | src/features/increment.ts:22 | the completed write: the document holds the written count if the write succeeds, and is untouched otherwise |
| Index.OnEvent | src/index.ts:21-36 | wrong token: 403 and no collector, whatever the type; event callback: one fresh collector sized to the feature count, with every feature's `onEvent` called once in order on it, and the response only written by its flush; otherwise 400 and no collector |
| Index.DispatchReadyCount | src/index.ts:27-31 | the `ready` calls made by the dispatch loop plus the pending reads add up to the number of features |
| Index.RoundFlushes | src/index.ts:25-31 | with at least one feature, the request is answered exactly once when the pending continuations have all called `ready`, and not before |
| Index.DispatchBoth | src/index.ts:29-31 | with both features loaded, the collector sees ping's and increment's calls in iteration order |
| Index.TwoWordEvent | src/features/ping.ts:17-19 | a mention splitting into two words triggers exactly the features whose keyword is one of them |
| Index.PingTextTriggers | src/features/ping.ts:14-20 | "@bot ping" triggers ping and not increment |
| Index.IncrementTextTriggers | src/features/increment.ts:29-35 | "@bot increment" triggers increment and not ping |
| Index.LeadingSpaceTriggers | src/features/ping.ts:17-19 | " ping" splits into `["", "ping"]` and triggers ping |
| Index.BothTrigger | src/features/ping.ts:17-19 | "ping increment" triggers both features |
| Index.FlushOfTwo | src/helpers.ts:35-42 | two features, one `add` before the second `ready`: the single flush holds exactly that action |
| Index.PingRound | src/index.ts:25-31 | both features, an event only ping acts on: the single flush holds just the pong reply, in either iteration order |
| Index.IncrementRound | src/index.ts:25-31 | both features, an event only increment acts on: one flush with the count post once the read succeeds, none if it fails |
| Index.PingScenario | src/index.ts:21-36 | end to end: status 200 and exactly one body, `[postMessage(channel, "pong")]` |
| Index.IncrementScenario | src/index.ts:21-36 | end to end, no document: one body posting 0 and the document then holds 1; a failed read sends nothing and leaves no document |
| Index.StartIncrementOnly | src/index.ts:25-31 | an event callback with only increment loaded and an event it acts on: a fresh collector for one feature, no call on it yet, nothing sent |
| Index.FlushOfOne | src/helpers.ts:35-42 | one feature, one `add` then its `ready`: the single flush holds exactly that action |
| Index.RacingIncrements | src/features/increment.ts:10-22 | two requests whose reads of count c both resolve before either write: both are answered with c, and the document ends at c + 1 |

## Left out

- src/require.ts, `loadSettings` and `loadFeatures` are not part of this model. They cover directory scanning, dynamic module loading, the settings document and its change subscription. The configured token and the loaded feature list are inputs to `Index.OnEvent`.
- Firebase setup and the document store: the counter document is a `Document` object. The snapshot a read resolves with and whether it succeeds are parameters of `Increment.Resume`; whether a write succeeds is the `writeOk` parameter of `Increment.Document.Store`.
- Unhandled promise rejections: a failed read or write rejects again after `.catch()` (src/features/increment.ts:22, 25); the warning or process exit this causes in Node is not modelled, only that nothing more happens on the collector and the document.
- Promise scheduling: continuations do not run by themselves. The caller runs `Increment.Resume` after `Index.OnEvent` returns and `Increment.Document.Store` after that, interleaved in any order with other requests' steps.
- JSON serialisation and the HTTP layer: a sent body is recorded as the action sequence; headers other than Content-Type and the transport are not modelled.
- Action bodies are limited to the `{channel, text}` message both features post (`Slack.Body`), while `add` accepts any object. The collector's properties do not depend on the body's shape.
- Features other than ping and increment: `Index.Feature` lists only these two.
- Slack events are records with `type`, `channel` and `text`. A missing or non-string `text`, which would make `split` throw, is not modelled.
- JavaScript strings are UTF-16 code units while Dafny's `char` is a Unicode scalar value: surrogate pairs are not modelled.
- Increment.Resume: the count is an unbounded integer. A stored document without a numeric `count` field, and JavaScript's loss of precision above 2^53, are not modelled.
- Index.PingScenario: stated for any event that only ping acts on; that "@bot ping" is such an event is `Index.PingTextTriggers`.
- Index.IncrementScenario: stated for any event that only increment acts on; that "@bot increment" is such an event is `Index.IncrementTextTriggers`.
