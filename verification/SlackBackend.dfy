/** One notification on its way from the core to Slack: the adapter that re-reads the
    registry on every call, and the backend that decides between posting and editing. */
module SlackBackend {
  import opened Domain
  import Registry
  import SlackClient

  // ----- the backend's side -----

  datatype ApiCall =
    | ChatPost(channel: string)
    | ChatUpdate(channel: string, ts: string)
    | ChatReply(channel: string, ts: string)

  /** What handling a request comes to: the API call, how often it was attempted, and
      the answer. */
  datatype Handling<T> = Handling(api: ApiCall, attempts: nat, answer: Outcome<T>)

  /** What the backend makes of `/notify`: an edit keeps the ref it was given, a post
      brings a new one. */
  function Handled(canUpdate: bool, recipient: string, ref: string, maxRetries: int,
                   w: SlackClient.Weather): Handling<string> {
    if ref != "" && canUpdate then
      var (channel, ts) := SlackClient.DecodeRef(ref, recipient);
      var o := SlackClient.Updating(maxRetries, w);
      Handling(ChatUpdate(channel, ts), o.attempts, if o.answer.Ok? then Ok(ref) else Failed)
    else
      var o := SlackClient.Posting(maxRetries, w);
      Handling(ChatPost(recipient), o.attempts, o.answer)
  }

  /** What an HTTP exchange with a backend brings; `body` is the decoded 200 result. */
  datatype HttpReply = Lost | Reply(status: int, body: Option<string>)

  /** The response to a well-formed `/notify`. */
  function Response(h: Handling<string>): HttpReply {
    if h.answer.Ok? then Reply(200, Some(h.answer.value)) else Reply(500, None)
  }

  /** `Handler.Notify`; `canUpdate` says whether the wrapped backend is an Updater. */
  method HandleNotify(wellFormed: bool, canUpdate: bool, recipient: string, ref: string, maxRetries: int,
                      w: SlackClient.Weather)
    returns (h: Option<Handling<string>>, status: int)
    ensures !wellFormed ==> h.None? && status == 400
    ensures wellFormed ==>
      && h == Some(Handled(canUpdate, recipient, ref, maxRetries, w))
      && (status == 200 || status == 500) && Response(h.value).status == status
      && (h.value.api.ChatPost? <==> ref == "" || !canUpdate) && !h.value.api.ChatReply?
      && (h.value.api.ChatPost? ==> h.value.api.channel == recipient)
      && (h.value.api.ChatUpdate? ==>
            && (h.value.api.channel, h.value.api.ts) == SlackClient.DecodeRef(ref, recipient)
            && (status == 200 ==> h.value.answer == Ok(ref)))
  {
    if !wellFormed {
      return None, 400;
    }
    if ref != "" {
      if canUpdate {
        var channel, ts, updated := SlackClient.Update(recipient, ref, maxRetries, w);
        if updated.answer.Failed? {
          return Some(Handling(ChatUpdate(channel, ts), updated.attempts, Failed)), 500;
        }
        return Some(Handling(ChatUpdate(channel, ts), updated.attempts, Ok(ref))), 200;
      }
    }
    var posted := SlackClient.Post(maxRetries, w);
    h := Some(Handling(ChatPost(recipient), posted.attempts, posted.answer));
    if posted.answer.Failed? {
      return h, 500;
    }
    return h, 200;
  }

  /** `Handler.ThreadReply`: 204 exactly when the backend can reply and the reply went
      through, under the message the ref names. */
  method HandleThreadReply(wellFormed: bool, canReply: bool, recipient: string, ref: string, maxRetries: int,
                           w: SlackClient.Weather)
    returns (h: Option<Handling<()>>, status: int)
    ensures !wellFormed ==> h.None? && status == 400
    ensures wellFormed ==> (status == 204 || status == 500) && (h.Some? <==> canReply)
    ensures h.Some? ==>
      && (var (channel, ts) := SlackClient.DecodeRef(ref, recipient); h.value.api == ChatReply(channel, ts))
      && (status == 204 <==> h.value.answer.Ok?)
      && (h.value.answer.Ok? <==> w.encodes && (maxRetries < 0 || SlackClient.LastHeard(w.tries, h.value.attempts)))
    ensures status == 204 ==> h.Some?
  {
    if !wellFormed {
      return None, 400;
    }
    if !canReply {
      return None, 500;
    }
    var channel, ts, o := SlackClient.PostThreadReply(recipient, ref, maxRetries, w);
    h := Some(Handling(ChatReply(channel, ts), o.attempts, o.answer));
    if o.answer.Failed? {
      return h, 500;
    }
    return h, 204;
  }

  // ----- the core's side -----

  predicate IsResult(reply: HttpReply) {
    reply.Reply? && reply.status == 200 && reply.body.Some?
  }

  /** What a notify comes to with this registration. */
  function Notified(found: Option<Registry.Backend>, http: string -> HttpReply): Outcome<string> {
    if found.Some? && IsResult(http(found.value.baseURL)) then Ok(http(found.value.baseURL).body.value) else Failed
  }

  datatype RemoteError = NotRegistered | ThreadReplyNotSupported | Unreachable | UnexpectedStatus

  class RemoteBackend {
    const name: string
    const reg: Registry.Registry

    constructor (name: string, reg: Registry.Registry)
      ensures this.name == name && this.reg == reg
    {
      this.name := name;
      this.reg := reg;
    }

    /** `Notify`: the registration is read at the time of the call, so a request goes
        to the address registered last and to none that has gone stale. `http(url)` is
        what a request to that base address would bring. */
    method Notify(now: int, http: string -> HttpReply)
      returns (requested: Option<string>, result: Outcome<string>, error: Option<RemoteError>)
      ensures var found := Registry.Fresh(reg.ttl, reg.backends, now, name);
        && (found.None? <==> requested.None?)
        && (found.Some? ==> requested == Some(found.value.baseURL))
        && result == Notified(found, http)
        && (error.None? <==> result.Ok?) && (error == Some(NotRegistered) <==> found.None?)
    {
      var be := reg.Lookup(now, name);
      if be.None? {
        return None, Failed, Some(NotRegistered);
      }
      requested := Some(be.value.baseURL);
      var resp := http(be.value.baseURL);
      if resp.Lost? {
        return requested, Failed, Some(Unreachable);
      }
      if resp.status != 200 || resp.body.None? {
        return requested, Failed, Some(UnexpectedStatus);
      }
      return requested, Ok(resp.body.value), None;
    }

    /** `PostThreadReply`: no request unless the live registration declares support. */
    method PostThreadReply(now: int, http: string -> HttpReply)
      returns (requested: Option<string>, error: Option<RemoteError>)
      ensures var found := Registry.Fresh(reg.ttl, reg.backends, now, name);
        && (requested.Some? <==> found.Some? && found.value.supportsThreadReply)
        && (requested.Some? ==> requested.value == found.value.baseURL)
        && (error.None? <==> requested.Some? && http(requested.value).Reply? && http(requested.value).status == 204)
        && (error == Some(NotRegistered) <==> found.None?)
        && (error == Some(ThreadReplyNotSupported) <==> found.Some? && !found.value.supportsThreadReply)
    {
      var be := reg.Lookup(now, name);
      if be.None? {
        return None, Some(NotRegistered);
      }
      if !be.value.supportsThreadReply {
        return None, Some(ThreadReplyNotSupported);
      }
      requested := Some(be.value.baseURL);
      var resp := http(be.value.baseURL);
      if resp.Lost? {
        return requested, Some(Unreachable);
      }
      if resp.status != 204 {
        return requested, Some(UnexpectedStatus);
      }
      return requested, None;
    }
  }

  // ----- both sides together -----

  /** Everything the surroundings decide about one delivery attempt. */
  datatype Env =
    | NotResolved                                  // no live registration when resolving
    | StaleByNow                                   // none any more when calling
    | RequestLost                                  // the backend never saw the request
    | Reached(weather: SlackClient.Weather, replyLost: bool)

  /** What the backend did about a notify with this ref, if it heard of it. */
  function Through(maxRetries: int, to: RefKey, ref: string, env: Env): Option<Handling<string>> {
    if env.Reached? then Some(Handled(true, to.recipient, ref, maxRetries, env.weather)) else None
  }

  /** What the core got back. */
  function Heard(maxRetries: int, to: RefKey, ref: string, env: Env): Outcome<string> {
    var h := Through(maxRetries, to, ref, env);
    if h.Some? && !env.replyLost then h.value.answer else Failed
  }

  /** What the core meets when it calls: the registration it finds, if any, and what its
      request brings. */
  predicate Meets(maxRetries: int, to: RefKey, ref: string, env: Env, found: Option<Registry.Backend>,
                  http: string -> HttpReply) {
    match env
    case NotResolved => found.None?
    case StaleByNow => found.None?
    case RequestLost => found.Some? && http(found.value.baseURL) == Lost
    case Reached(w, replyLost) =>
      var response := Response(Handled(true, to.recipient, ref, maxRetries, w));
      found.Some? && http(found.value.baseURL) == if replyLost then Lost else response
  }

  /** The adapter and the handler put together: whatever the surroundings decide, the
      core hears what the composition says it does. */
  lemma CoreHears(maxRetries: int, to: RefKey, ref: string, env: Env, found: Option<Registry.Backend>,
                  http: string -> HttpReply)
    requires Meets(maxRetries, to, ref, env, found, http)
    ensures Notified(found, http) == Heard(maxRetries, to, ref, env)
    ensures env.Reached? <==> Through(maxRetries, to, ref, env).Some?
    ensures env.Reached? && !env.replyLost ==>
      Response(Through(maxRetries, to, ref, env).value) == http(found.value.baseURL)
  {
    hide SlackClient.Posting, SlackClient.Updating, SlackClient.DecodeRef;
  }
}
