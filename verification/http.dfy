/**
 * The part of an HTTP response object that the router and the action
 * collector write to: the status code, the Content-Type header and the
 * bodies sent. Serialisation is abstracted: a body is either empty or the
 * JSON object `{actions: [...]}`, recorded as the action sequence itself.
 */
module Http {
  import opened Wrappers
  import opened Slack

  const JsonContentType: string := "application/json"

  /** What one `send` call wrote. */
  datatype Payload = NoBody | ActionsJson(actions: seq<Action>)

  /** The bodies that sending each action list as `{actions: [...]}` writes. */
  function Payloads(lists: seq<seq<Action>>): (r: seq<Payload>)
    ensures |r| == |lists|
    ensures forall i :: 0 <= i < |lists| ==> r[i] == ActionsJson(lists[i])
  {
    if lists == [] then [] else [ActionsJson(lists[0])] + Payloads(lists[1..])
  }

  class Response {
    var status: int
    var contentType: Option<string>
    /** Every body sent on this response, in order. */
    var sends: seq<Payload>

    /** A fresh response: status 200, no header set, nothing sent yet. */
    constructor ()
      ensures status == 200 && contentType == None && sends == []
    {
      status := 200;
      contentType := None;
      sends := [];
    }

    /** `res.status(code).send()`: sets the status and sends an empty body. */
    method Reply(code: int)
      modifies this
      ensures status == code && contentType == old(contentType)
      ensures sends == old(sends) + [NoBody]
    {
      status := code;
      sends := sends + [NoBody];
    }

    /** `res.setHeader('Content-Type', value)`. */
    method SetContentType(value: string)
      modifies this
      ensures contentType == Some(value)
      ensures status == old(status) && sends == old(sends)
    {
      contentType := Some(value);
    }

    /** `res.send(body)` with the current status. */
    method Send(body: Payload)
      modifies this
      ensures sends == old(sends) + [body]
      ensures status == old(status) && contentType == old(contentType)
    {
      sends := sends + [body];
    }
  }
}
