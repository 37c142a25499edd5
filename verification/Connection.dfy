/** The code that serves one connection: the notifier's methods and the execution of single
    requests and batches (pkg/server/subscription.go, pkg/server/server.go). */
module Connection {
  import opened Jsonrpc
  import opened Server
  import opened Wrappers

  class Codec {
    var log: seq<Event>
    var closed: bool

    constructor ()
      ensures log == [] && !closed
    {
      log, closed := [], false;
    }

    /** Whether the transport accepts the message is up to the environment. */
    method Write(m: Message) returns (ok: bool)
      modifies this`log
      ensures log == old(log) + [Wrote(m, ok)]
    {
      ok := *;
      log := log + [Wrote(m, ok)];
    }

    method Close()
      modifies this`closed
      ensures closed
    {
      closed := true;
    }
  }

  /** One write followed by activations. */
  function WriteAndActivate(m: Message, ok: bool, acts: seq<Activation>): seq<Event> {
    [Wrote(m, ok)] + seq(|acts|, i requires 0 <= i < |acts| => Activated(acts[i]))
  }

  class Notifier {
    const codec: Codec
    var active: map<SubId, string>
    var inactive: set<SubId>
    var errClosed: seq<SubId>

    function State(): Subs
      reads this
    {
      Subs(active, inactive, errClosed)
    }

    constructor (codec: Codec)
      ensures this.codec == codec && State() == Subs(map[], {}, [])
    {
      this.codec := codec;
      active, inactive, errClosed := map[], {}, [];
    }

    method CreateSubscription(id: SubId)
      modifies this
      ensures State() == Create(old(State()), id)
      ensures StageOf(old(State()), id) == Unused ==> StageOf(State(), id) == Inactive
      ensures forall other :: other != id ==> StageOf(State(), other) == StageOf(old(State()), other)
    {
      inactive := inactive + {id};
    }

    /** Notifications of subscriptions that are not active are dropped. A failed write closes the
        connection. */
    method Notify(id: SubId, data: int) returns (ok: bool)
      modifies codec
      ensures State() == old(State())
      ensures id !in active ==> ok && codec.log == old(codec.log) && codec.closed == old(codec.closed)
      ensures id in active ==> codec.log == old(codec.log) + [Wrote(Notification(id, active[id], data), ok)]
      ensures codec.closed == (old(codec.closed) || !ok)
    {
      ok := true;
      if id in active {
        ok := codec.Write(Notification(id, active[id], data));
        if !ok {
          codec.Close();
        }
      }
    }

    method Unsubscribe(id: SubId) returns (found: bool)
      modifies this
      ensures found == (id in old(active)) && State() == Server.Unsubscribe(old(State()), id)
      ensures found ==> StageOf(State(), id) == Ended
      ensures forall other :: other != id ==> StageOf(State(), other) == StageOf(old(State()), other)
    {
      found := id in active;
      if found {
        errClosed := errClosed + [id];
        active := active - {id};
      }
    }

    method Activate(a: Activation)
      modifies this, codec`log
      ensures State() == Server.Activate(old(State()), a.sub, a.namespace)
      ensures codec.log == old(codec.log) + [Activated(a)]
    {
      if a.sub in inactive {
        active := active[a.sub := a.namespace];
        inactive := inactive - {a.sub};
      }
      codec.log := codec.log + [Activated(a)];
    }

    /** Executes one request. The callback's own use of the notifier is part of its outcome. */
    method Execute(q: ServerRequest, o: Outcome) returns (response: Response, activation: Option<Activation>)
      modifies this
      ensures var h := Handle(old(State()), true, q, o);
              State() == h.subs && response == h.response && activation == h.activation
    {
      activation := None;
      if q.err.Some? {
        return Response(q.id, Failure(ErrorCode(q.err.value))), None;
      }
      if q.unsubscribes {
        if |q.args| >= 1 && q.args[0].Text? {
          var found := Unsubscribe(q.args[0].s);
          if !found {
            return Response(q.id, Failure(ErrorCode(CallbackError))), None;
          }
          return Response(q.id, Unsubscribed(q.args[0].s)), None;
        }
        return Response(q.id, Failure(ErrorCode(InvalidParams))), None;
      }
      if q.callb.None? {
        return Response(q.id, Failure(ErrorCode(MethodNotFound))), None;
      }
      if q.callb.value.subscribes {
        if o.Subscribes? {
          CreateSubscription(o.sub);
          return Response(q.id, Created(o.sub)), Some(Activation(o.sub, q.service));
        }
        if o.FailsAfterCreating? {
          CreateSubscription(o.sub);
        }
        return Response(q.id, Failure(ErrorCode(CallbackError))), None;
      }
      if |q.args| != |q.callb.value.argTypes| {
        return Response(q.id, Failure(ErrorCode(InvalidParams))), None;
      }
      if o.Subscribes? || o.FailsAfterCreating? {
        CreateSubscription(o.sub);
      }
      if o.Fails? || o.FailsAfterCreating? {
        return Response(q.id, Failure(ErrorCode(CallbackError))), None;
      }
      response := Response(q.id, Body.Value(if o.Returns? then Some(o.v) else None));
    }

    method RunCallbacks(acts: seq<Activation>)
      modifies this, codec`log
      ensures State() == ActivateAll(old(State()), acts)
      ensures codec.log == old(codec.log) + seq(|acts|, i requires 0 <= i < |acts| => Activated(acts[i]))
    {
      for i := 0 to |acts|
        invariant State() == ActivateAll(old(State()), acts[..i])
        invariant codec.log == old(codec.log) + seq(i, k requires 0 <= k < i => Activated(acts[k]))
      {
        assert acts[..i + 1][..i] == acts[..i];
        Activate(acts[i]);
      }
      assert acts[..|acts|] == acts;
    }

    /** One request: the response is written first, then a new subscription is activated, even
        when the write failed. `ok` tells whether it succeeded. */
    method Exec(q: ServerRequest, o: Outcome) returns (ok: bool)
      modifies this, codec
      ensures var h := Handle(old(State()), true, q, o);
              && codec.log == old(codec.log) + [Wrote(Single(h.response), ok)]
                              + (if h.activation.Some? then [Activated(h.activation.value)] else [])
              && codec.closed == (old(codec.closed) || !ok)
              && State() == if h.activation.Some? then Server.Activate(h.subs, h.activation.value.sub, h.activation.value.namespace) else h.subs
    {
      var response, activation := Execute(q, o);
      ok := codec.Write(Single(response));
      if !ok {
        codec.Close();
      }
      if activation.Some? {
        Activate(activation.value);
      }
    }

    /** The loop of a batch. */
    method ExecuteAll(qs: seq<ServerRequest>, os: seq<Outcome>) returns (responses: seq<Response>, callbacks: seq<Activation>)
      requires |os| == |qs|
      modifies this
      ensures HandleAll(old(State()), true, qs, os) == Run(State(), responses, callbacks)
    {
      responses, callbacks := [], [];
      for i := 0 to |qs|
        invariant HandleAll(old(State()), true, qs[..i], os[..i]) == Run(State(), responses, callbacks)
      {
        assert qs[..i + 1][..i] == qs[..i] && os[..i + 1][..i] == os[..i];
        var response, callback := Execute(qs[i], os[i]);
        responses := responses + [response];
        if callback.Some? {
          callbacks := callbacks + [callback.value];
        }
      }
      assert qs[..|qs|] == qs && os[..|os|] == os;
    }

    /** A batch: every request is executed, then all responses are written at once, then the new
        subscriptions are activated. */
    method ExecBatch(qs: seq<ServerRequest>, os: seq<Outcome>) returns (ok: bool)
      requires |os| == |qs|
      modifies this, codec
      ensures var r := HandleAll(old(State()), true, qs, os);
              && codec.log == old(codec.log) + WriteAndActivate(Batch(r.responses), ok, r.activations)
              && codec.closed == (old(codec.closed) || !ok)
              && State() == ActivateAll(r.subs, r.activations)
    {
      var responses, callbacks := ExecuteAll(qs, os);
      ok := codec.Write(Batch(responses));
      if !ok {
        codec.Close();
      }
      RunCallbacks(callbacks);
    }

    /** A batch message from its decoding to the wire. A rejected one is answered by one error,
        and whether that is written does not matter. */
    method ServeBatch(reg: Registry, message: Option<seq<JsonRequest>>, os: seq<Outcome>) returns (ok: bool)
      requires message.Some? ==> |os| == |message.value|
      modifies this, codec
      ensures codec.log == old(codec.log)
                           + WriteAndActivate(Answer(reg, old(State()), message, os), ok, ActivatedBy(reg, old(State()), message, os))
      ensures codec.closed == (old(codec.closed) || (!ok && message.Some? && ParseBatch(message.value).Parsed?))
    {
      var parsed := ParseBatchRequest(message);
      if parsed.Rejected? {
        ok := codec.Write(Single(Response(NullId, Failure(ErrorCode(parsed.err)))));
        return;
      }
      BatchKeepsOrder(message.value);
      var qs := ReadRequest(reg, parsed.reqs);
      assert qs == Requests(reg, parsed.reqs);
      ok := ExecBatch(qs, os);
    }
  }
}
