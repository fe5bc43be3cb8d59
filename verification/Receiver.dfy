/** The front of the notifier: the event's own check and the bounded queue that
    decouples the HTTP handler from the workers. */
module Receiver {
  import opened Domain

  datatype FieldError =
    | MissingGroupKey
    | MissingAppName
    | MissingTrigger
    | MissingRevision
    | MissingRecipient
    | MissingBackend

  predicate Complete(ev: Event) {
    && ev.groupKey != "" && ev.appName != "" && ev.trigger != ""
    && ev.revision != "" && ev.recipient != "" && ev.backend != ""
  }

  /** `Event.Validate`: one error per missing field, in field order. */
  method Validate(ev: Event) returns (errs: seq<FieldError>)
    ensures errs == [] <==> Complete(ev)
    ensures MissingGroupKey in errs <==> ev.groupKey == ""
    ensures MissingAppName in errs <==> ev.appName == ""
    ensures MissingTrigger in errs <==> ev.trigger == ""
    ensures MissingRevision in errs <==> ev.revision == ""
    ensures MissingRecipient in errs <==> ev.recipient == ""
    ensures MissingBackend in errs <==> ev.backend == ""
  {
    errs := [];
    if ev.groupKey == "" { errs := errs + [MissingGroupKey]; }
    if ev.appName == "" { errs := errs + [MissingAppName]; }
    if ev.trigger == "" { errs := errs + [MissingTrigger]; }
    if ev.revision == "" { errs := errs + [MissingRevision]; }
    if ev.recipient == "" { errs := errs + [MissingRecipient]; }
    if ev.backend == "" { errs := errs + [MissingBackend]; }
  }

  class Handler {
    const capacity: nat
    var queue: seq<Event>

    constructor (queueSize: nat)
      ensures capacity == queueSize && queue == []
    {
      capacity := queueSize;
      queue := [];
    }

    /** `ServeHTTP`; `payload` is None when the body does not decode, and `waiting`
        says whether a worker is blocked on the channel. Never blocks: 202 exactly when
        the event went into the queue or to that worker, 503 when it was full. */
    method ServeHTTP(payload: Option<Event>, waiting: bool) returns (status: int, handed: Option<Event>)
      requires |queue| <= capacity
      modifies this
      ensures |queue| <= capacity
      ensures status == 503 <==>
        payload.Some? && Complete(payload.value) && |old(queue)| == capacity && !(old(queue) == [] && waiting)
      ensures status == 400 <==> payload.None? || !Complete(payload.value)
      ensures status == 202 || status == 503 || status == 400
      ensures status != 202 ==> queue == old(queue) && handed.None?
      ensures status == 202 ==>
        if old(queue) == [] && waiting then queue == [] && handed == payload
        else queue == old(queue) + [payload.value] && handed.None?
    {
      handed := None;
      if payload.None? {
        return 400, None;
      }
      var errs := Validate(payload.value);
      if errs != [] {
        return 400, None;
      }
      if queue == [] && waiting {
        return 202, payload;
      }
      if |queue| < capacity {
        queue := queue + [payload.value];
        return 202, None;
      }
      return 503, None;
    }

    /** A worker receives the oldest event. */
    method Receive() returns (ev: Event)
      requires 0 < |queue| <= capacity
      modifies this
      ensures old(queue) == [ev] + queue && |queue| <= capacity
    {
      ev := queue[0];
      queue := queue[1..];
    }
  }
}
