/** The Slack client: message references, the retry loop and its back-off, and what
    the API methods make of an answer. */
module SlackClient {
  import opened Domain
  import Text

  // ----- references -----

  function EncodeRef(channel: string, ts: string): string {
    channel + "|" + ts
  }

  /** A ref without the separator is taken as a bare ts in the recipient's channel. */
  function DecodeRef(ref: string, recipient: string): (string, string) {
    var i := Text.IndexOf(ref, '|');
    if i == |ref| then (recipient, ref) else (ref[..i], ref[i + 1..])
  }

  /** Decoding gives back the posted channel and ts exactly when the channel holds no
      separator, whatever the ts and the recipient are. */
  lemma RefRoundTripIff(channel: string, ts: string, recipient: string)
    ensures DecodeRef(EncodeRef(channel, ts), recipient) == (channel, ts) <==> '|' !in channel
    ensures EncodeRef(channel, ts) != ""
  {
    var ref := EncodeRef(channel, ts);
    var i := Text.IndexOf(ref, '|');
    assert ref[|channel|] == '|';
    assert ref[..|channel|] == channel && ref[|channel| + 1..] == ts;
    if '|' !in channel {
      Text.FirstSeparator(channel, '|', ref);
    } else {
      var k :| 0 <= k < |channel| && channel[k] == '|';
      assert i <= k by {
        assert forall j :: 0 <= j < i ==> ref[j] == ref[..i][j] && ref[j] in ref[..i];
        assert ref[k] == '|';
      }
      assert |DecodeRef(ref, recipient).0| < |channel|;
    }
  }

  /** Encoding a decoded ref restores every ref that has the separator. */
  lemma DecodedRefReencodes(ref: string, recipient: string)
    requires '|' in ref
    ensures var (channel, ts) := DecodeRef(ref, recipient); EncodeRef(channel, ts) == ref
  {
    var i := Text.IndexOf(ref, '|');
    assert ref[..|ref|] == ref;
    assert ref == ref[..i] + [ref[i]] + ref[i + 1..];
  }

  /** A ref without the separator is a bare ts, in the channel of the recipient. */
  lemma BareRef(ref: string, recipient: string)
    requires '|' !in ref
    ensures DecodeRef(ref, recipient) == (recipient, ref)
  {
    Text.FirstSeparator(ref, '|', ref);
  }

  // ----- the retry loop -----

  datatype ApiResponse = ApiResponse(ok: bool, error: string, ts: string, channel: string)

  const NO_RESPONSE := ApiResponse(false, "", "", "")

  /** What one HTTP exchange comes back with; `Unbuilt` when there was no request. */
  datatype Exchange = Unbuilt | NoAnswer | Garbled | Answer(status: int, response: ApiResponse)

  datatype CallError = Unencodable | Unbuildable | Transport | Undecodable | Rejected(error: string) | Cancelled

  /** One attempt as its surroundings decide it: whether the context ended during the
      wait before it, what its exchange came back with, and where Slack put a message
      if it stored one without saying so. */
  datatype Try = Try(cancelled: bool, exchange: Exchange, unheard: Option<(string, string)>)

  /** What attempt `i` meets; past the end of the list there is no answer. */
  function Meets(tries: seq<Try>, i: nat): Try {
    if i < |tries| then tries[i] else Try(false, NoAnswer, None)
  }

  function ExchangeOf(tries: seq<Try>, i: nat): Exchange {
    Meets(tries, i).exchange
  }

  /** Where Slack put what attempt `i` asked for, if it stored it: an OK answer says so;
      with any other outcome it may have stored it or not, unless nothing was sent. */
  function StoredBy(tries: seq<Try>, i: nat): Option<(string, string)> {
    var x := ExchangeOf(tries, i);
    if Succeeds(x) then Some((x.response.channel, x.response.ts))
    else if x.Unbuilt? then None
    else Meets(tries, i).unheard
  }

  predicate IsRetryable(statusCode: int, apiErr: string) {
    statusCode == 429 || statusCode >= 500 || apiErr == "ratelimited"
  }

  /** The back-off before attempt `n`, in milliseconds. */
  function Backoff(n: int): (ms: int)
    ensures n <= 10 ==> ms == 200 * n
    ensures n >= 10 ==> ms == 2000
  {
    var d := n * 200;
    if d > 2000 then 2000 else d
  }

  predicate Succeeds(x: Exchange) {
    x.Answer? && x.response.ok
  }

  predicate Retryable(x: Exchange) {
    match x
    case Unbuilt => false
    case Answer(status, response) => !response.ok && IsRetryable(status, response.error)
    case _ => true
  }

  function ErrorOf(x: Exchange): CallError {
    match x
    case Unbuilt => Unbuildable
    case NoAnswer => Transport
    case Garbled => Undecodable
    case Answer(_, response) => Rejected(response.error)
  }

  /** `attempt`: one exchange judged. */
  method Attempt(x: Exchange) returns (out: ApiResponse, retryable: bool, err: Option<CallError>)
    ensures err.None? <==> Succeeds(x)
    ensures err.None? ==> out == x.response && out.ok
    ensures err.Some? ==> out == NO_RESPONSE && err.value == ErrorOf(x) && (retryable <==> Retryable(x))
    ensures x.Unbuilt? ==> err == Some(Unbuildable) && !retryable
    ensures x.NoAnswer? ==> err == Some(Transport) && retryable
    ensures x.Garbled? ==> err == Some(Undecodable) && retryable
    ensures x.Answer? && !x.response.ok ==>
      && err == Some(Rejected(x.response.error))
      && (retryable <==> x.status == 429 || x.status >= 500 || x.response.error == "ratelimited")
  {
    if x.Unbuilt? {
      return NO_RESPONSE, false, Some(Unbuildable);
    }
    if x.NoAnswer? {
      return NO_RESPONSE, true, Some(Transport);
    }
    if x.Garbled? {
      return NO_RESPONSE, true, Some(Undecodable);
    }
    if x.response.ok {
      return x.response, false, None;
    }
    return NO_RESPONSE, IsRetryable(x.status, x.response.error), Some(Rejected(x.response.error));
  }

  /** The waits before attempts 1 to `n`. */
  function TotalBackoff(n: nat): int {
    if n == 0 then 0 else TotalBackoff(n - 1) + Backoff(n)
  }

  /** The exchanges before `n` all failed in a way worth retrying, and none of the
      waits between them was cut short. */
  predicate KeptTrying(tries: seq<Try>, n: nat) {
    (forall i: nat :: i < n ==> !Succeeds(ExchangeOf(tries, i)) && Retryable(ExchangeOf(tries, i)))
    && (forall i: nat :: 0 < i < n ==> !Meets(tries, i).cancelled)
  }

  /** 200 ms more each time, 2 s at most, in closed form. */
  function BackoffBound(r: nat): int {
    if r <= 10 then 100 * r * (r + 1) else 11000 + 2000 * (r - 10)
  }

  /** The waits of a call that uses up all its retries. */
  lemma {:induction false} BackoffTotal(r: nat)
    ensures TotalBackoff(r) == BackoffBound(r)
    ensures TotalBackoff(r) == if r <= 10 then 100 * r * (r + 1) else 11000 + 2000 * (r - 10)
  {
    if r > 0 {
      BackoffTotal(r - 1);
      Triangle(r);
    }
  }

  lemma Triangle(r: int)
    ensures 100 * (r - 1) * r + 200 * r == 100 * r * (r + 1)
  {
  }

  lemma {:induction false} BackoffGrows(m: nat, n: nat)
    requires m <= n
    ensures TotalBackoff(m) <= TotalBackoff(n)
    decreases n
  {
    if m < n {
      BackoffGrows(m, n - 1);
    }
  }

  /** What a call comes to, and after how many attempts. */
  datatype Called = Called(out: ApiResponse, err: Option<CallError>, attempts: nat)

  /** The loop from attempt `n` on. */
  function Trying(maxRetries: int, tries: seq<Try>, n: nat): Called
    decreases maxRetries - n
  {
    var x := ExchangeOf(tries, n);
    if n > maxRetries then Called(NO_RESPONSE, if n == 0 then None else Some(ErrorOf(ExchangeOf(tries, n - 1))), n)
    else if n > 0 && Meets(tries, n).cancelled then Called(NO_RESPONSE, Some(Cancelled), n)
    else if Succeeds(x) then Called(x.response, None, n + 1)
    else if !Retryable(x) then Called(NO_RESPONSE, Some(ErrorOf(x)), n + 1)
    else Trying(maxRetries, tries, n + 1)
  }

  function Calling(encodes: bool, maxRetries: int, tries: seq<Try>): Called {
    if encodes then Trying(maxRetries, tries, 0) else Called(NO_RESPONSE, Some(Unencodable), 0)
  }

  /** When a call ends: at the first success, the first failure not worth retrying, a
      cancelled wait or the last attempt allowed; and with what. */
  ghost predicate Ends(maxRetries: int, tries: seq<Try>, c: Called) {
    && (c.err.None? ==>
          c.attempts > 0 && KeptTrying(tries, c.attempts - 1) && Succeeds(ExchangeOf(tries, c.attempts - 1))
          && c.out == ExchangeOf(tries, c.attempts - 1).response)
    && (c.err.Some? ==> c.out == NO_RESPONSE && c.attempts > 0 && !Succeeds(ExchangeOf(tries, c.attempts - 1)))
    && (c.err == Some(Cancelled) ==>
          c.attempts <= maxRetries && KeptTrying(tries, c.attempts) && Meets(tries, c.attempts).cancelled)
    && (c.err.Some? && c.err.value != Cancelled ==>
          c.err.value == ErrorOf(ExchangeOf(tries, c.attempts - 1)) && KeptTrying(tries, c.attempts - 1)
          && (Retryable(ExchangeOf(tries, c.attempts - 1)) ==> c.attempts == maxRetries + 1))
  }

  lemma {:induction false} TryingEnds(maxRetries: int, tries: seq<Try>, n: nat)
    requires 0 <= maxRetries && n <= maxRetries + 1 && KeptTrying(tries, n)
    ensures Trying(maxRetries, tries, n).attempts <= maxRetries + 1
    ensures Ends(maxRetries, tries, Trying(maxRetries, tries, n))
    decreases maxRetries - n
  {
    hide Meets;
    if n <= maxRetries && !(n > 0 && Meets(tries, n).cancelled) && Retryable(ExchangeOf(tries, n)) {
      assert KeptTrying(tries, n + 1);
      TryingEnds(maxRetries, tries, n + 1);
    }
  }

  /** What a call comes to for every retry count: with a negative one, which the
      configuration accepts, the loop body never runs and the call "succeeds". */
  lemma CallEnds(encodes: bool, maxRetries: int, tries: seq<Try>)
    ensures var c := Calling(encodes, maxRetries, tries);
      && c.attempts <= (if maxRetries < 0 then 0 else maxRetries + 1)
      && (!encodes ==> c == Called(NO_RESPONSE, Some(Unencodable), 0))
      && (encodes && maxRetries >= 0 ==> Ends(maxRetries, tries, c))
      && (encodes && maxRetries < 0 ==> c == Called(NO_RESPONSE, None, 0))
  {
    if maxRetries >= 0 {
      TryingEnds(maxRetries, tries, 0);
    }
  }

  /** `Client.call`. `encodes` says whether the body can be marshalled; `waited` sums
      the full waits. */
  method Call(encodes: bool, maxRetries: int, tries: seq<Try>) returns (c: Called, waited: int)
    ensures c == Calling(encodes, maxRetries, tries)
    ensures c.attempts <= if maxRetries < 0 then 0 else maxRetries + 1
    ensures encodes && maxRetries >= 0 ==> Ends(maxRetries, tries, c)
    ensures c.attempts == 0 <==> !encodes || maxRetries < 0
    ensures waited == if c.attempts == 0 then 0 else TotalBackoff(c.attempts - 1)
    ensures maxRetries >= 0 ==>
      waited <= if maxRetries <= 10 then 100 * maxRetries * (maxRetries + 1) else 11000 + 2000 * (maxRetries - 10)
  {
    CallEnds(encodes, maxRetries, tries);
    WaitsAreBounded(maxRetries);
    hide Ends;
    if !encodes {
      return Called(NO_RESPONSE, Some(Unencodable), 0), 0;
    }
    var lastErr: Option<CallError> := None;
    var attempt: nat := 0;
    waited := 0;
    while attempt <= maxRetries
      invariant maxRetries >= 0 ==> attempt <= maxRetries + 1
      invariant Trying(maxRetries, tries, attempt) == Trying(maxRetries, tries, 0)
      invariant lastErr == if attempt == 0 then None else Some(ErrorOf(ExchangeOf(tries, attempt - 1)))
      invariant waited == if attempt == 0 then 0 else TotalBackoff(attempt - 1)
      decreases maxRetries - attempt
    {
      if attempt > 0 {
        if Meets(tries, attempt).cancelled {
          return Called(NO_RESPONSE, Some(Cancelled), attempt), waited;
        }
        waited := waited + Backoff(attempt);
      }
      var response, retryable, failure := Attempt(ExchangeOf(tries, attempt));
      attempt := attempt + 1;
      if failure.None? {
        return Called(response, None, attempt), waited;
      }
      lastErr := failure;
      if !retryable {
        return Called(NO_RESPONSE, failure, attempt), waited;
      }
    }
    return Called(NO_RESPONSE, lastErr, attempt), waited;
  }

  lemma WaitsAreBounded(maxRetries: int)
    ensures forall m: nat :: m <= maxRetries ==> TotalBackoff(m) <= BackoffBound(maxRetries)
    ensures maxRetries >= 0 ==> 0 <= BackoffBound(maxRetries)
  {
    if maxRetries >= 0 {
      BackoffTotal(maxRetries);
      forall m: nat | m <= maxRetries ensures TotalBackoff(m) <= TotalBackoff(maxRetries) {
        BackoffGrows(m, maxRetries);
      }
      assert TotalBackoff(0) == 0;
    }
  }

  // ----- the API methods -----

  /** What surrounds one API call: whether the notification renders and the request
      marshals, and what each attempt meets. */
  datatype Weather = Weather(rendered: bool, encodes: bool, tries: seq<Try>)

  /** The attempts a method of the client makes, and its answer. */
  datatype Outgoing<T> = Outgoing(attempts: nat, answer: Outcome<T>)

  function Posting(maxRetries: int, w: Weather): Outgoing<string> {
    if !w.rendered then Outgoing(0, Failed)
    else
      var c := Calling(w.encodes, maxRetries, w.tries);
      Outgoing(c.attempts, if c.err.None? then Ok(EncodeRef(c.out.channel, c.out.ts)) else Failed)
  }

  function Updating(maxRetries: int, w: Weather): Outgoing<()> {
    if !w.rendered then Outgoing(0, Failed)
    else
      var c := Calling(w.encodes, maxRetries, w.tries);
      Outgoing(c.attempts, if c.err.None? then Ok(()) else Failed)
  }

  /** The last attempt of a call stored the message and its answer arrived. */
  predicate LastHeard(tries: seq<Try>, attempts: nat) {
    attempts > 0 && Succeeds(ExchangeOf(tries, attempts - 1))
  }

  /** `Client.Post`. A ref stands for a message Slack says it stored, and encodes where,
      exactly when the retry count is not negative; with a negative one the call
      reports success although nothing was posted, and "|" becomes the ref. */
  method Post(maxRetries: int, w: Weather) returns (o: Outgoing<string>)
    ensures o == Posting(maxRetries, w)
    ensures o.answer.Ok? ==>
      ((LastHeard(w.tries, o.attempts)
        && StoredBy(w.tries, o.attempts - 1).Some?
        && var place := StoredBy(w.tries, o.attempts - 1).value; o.answer.value == EncodeRef(place.0, place.1))
       <==> maxRetries >= 0)
    ensures w.rendered && w.encodes && maxRetries < 0 ==> o == Outgoing(0, Ok("|"))
    ensures !w.rendered || !w.encodes ==> o == Outgoing(0, Failed)
    ensures o.answer.Failed? ==> !LastHeard(w.tries, o.attempts)
  {
    CallEnds(w.encodes, maxRetries, w.tries);
    if !w.rendered {
      return Outgoing(0, Failed);
    }
    var c, waited := Call(w.encodes, maxRetries, w.tries);
    if c.err.Some? {
      return Outgoing(c.attempts, Failed);
    }
    assert EncodeRef("", "") == "|";
    return Outgoing(c.attempts, Ok(EncodeRef(c.out.channel, c.out.ts)));
  }

  /** `Client.Update`: succeeds iff the last attempt was heard (or none was allowed). */
  method Update(recipient: string, ref: string, maxRetries: int, w: Weather)
    returns (channel: string, ts: string, o: Outgoing<()>)
    ensures (channel, ts) == DecodeRef(ref, recipient)
    ensures o == Updating(maxRetries, w)
    ensures o.answer.Ok? <==> w.rendered && w.encodes && (maxRetries < 0 || LastHeard(w.tries, o.attempts))
  {
    CallEnds(w.encodes, maxRetries, w.tries);
    channel, ts := DecodeRef(ref, recipient).0, DecodeRef(ref, recipient).1;
    if !w.rendered {
      return channel, ts, Outgoing(0, Failed);
    }
    var c, waited := Call(w.encodes, maxRetries, w.tries);
    return channel, ts, Outgoing(c.attempts, if c.err.None? then Ok(()) else Failed);
  }

  /** `Client.PostThreadReply`; its text needs no rendering. */
  method PostThreadReply(recipient: string, ref: string, maxRetries: int, w: Weather)
    returns (channel: string, ts: string, o: Outgoing<()>)
    ensures (channel, ts) == DecodeRef(ref, recipient)
    ensures o == Updating(maxRetries, w.(rendered := true))
    ensures o.answer.Ok? <==> w.encodes && (maxRetries < 0 || LastHeard(w.tries, o.attempts))
  {
    CallEnds(w.encodes, maxRetries, w.tries);
    channel, ts := DecodeRef(ref, recipient).0, DecodeRef(ref, recipient).1;
    var c, waited := Call(w.encodes, maxRetries, w.tries);
    return channel, ts, Outgoing(c.attempts, if c.err.None? then Ok(()) else Failed);
  }
}
