/** Looking requests up in the service registry, executing them and writing the responses
    (pkg/server/server.go), with the notifier of the connection (pkg/server/subscription.go). */
module Server {
  import opened Jsonrpc
  import opened Wrappers

  type SubId = string

  datatype Callback = Callback(name: string, argTypes: seq<Type>, subscribes: bool)

  datatype Service = Service(name: string, callbacks: map<string, Callback>, subscriptions: map<string, Callback>)

  type Registry = map<string, Service>

  /** What registering services guarantees: a service knows the name it is filed under, and
      subscription callbacks are kept apart. */
  ghost predicate Registered(reg: Registry) {
    forall s :: s in reg ==>
      && reg[s].name == s
      && (forall m :: m in reg[s].callbacks ==> !reg[s].callbacks[m].subscribes)
      && (forall m :: m in reg[s].subscriptions ==> reg[s].subscriptions[m].subscribes)
  }

  datatype ServerRequest = ServerRequest(id: RawId, service: string, callb: Option<Callback>, args: seq<Value>,
                                         unsubscribes: bool, err: Option<Error>)

  // ---------------------------------------------------------------------------------------
  // Lookup

  function Failed(id: RawId, e: Error): ServerRequest {
    ServerRequest(id, "", None, [], false, Some(e))
  }

  /** The arguments of a request, when it has some and the callback takes some. */
  function WithArguments(q: ServerRequest, params: Option<Params>, types: seq<Type>, skip: nat): ServerRequest {
    if params.None? then q
    else
      match Arguments(params.value, types)
      case None => q.(err := Some(InvalidParams))
      case Some(args) => if skip <= |args| then q.(args := args[skip..]) else q.(err := Some(InvalidParams))
  }

  function Lookup(reg: Registry, r: RpcRequest): ServerRequest {
    if r.err.Some? then Failed(r.id, r.err.value)
    else if r.pubSub && HasSuffix(r.name, UNSUBSCRIBE) then
      var q := ServerRequest(r.id, "", None, [], true, None);
      if r.params.None? then q.(err := Some(InvalidParams)) else WithArguments(q, r.params, [StringType], 0)
    else if r.service !in reg then Failed(r.id, MethodNotFound)
    else
      var svc := reg[r.service];
      if r.pubSub then
        if r.name !in svc.subscriptions then Failed(r.id, MethodNotFound)
        else
          var c := svc.subscriptions[r.name];
          var q := ServerRequest(r.id, svc.name, Some(c), [], false, None);
          if c.argTypes == [] then q else WithArguments(q, r.params, [StringType] + c.argTypes, 1)
      else
        if r.name !in svc.callbacks then Failed(r.id, MethodNotFound)
        else
          var c := svc.callbacks[r.name];
          var q := ServerRequest(r.id, svc.name, Some(c), [], false, None);
          if c.argTypes == [] then q else WithArguments(q, r.params, c.argTypes, 0)
  }

  /** The loop of readRequest. */
  method ReadRequest(reg: Registry, reqs: seq<RpcRequest>) returns (qs: seq<ServerRequest>)
    ensures |qs| == |reqs| && forall i :: 0 <= i < |reqs| ==> qs[i] == Lookup(reg, reqs[i])
  {
    qs := [];
    for i := 0 to |reqs|
      invariant |qs| == i && forall j :: 0 <= j < i ==> qs[j] == Lookup(reg, reqs[j])
    {
      qs := qs + [Lookup(reg, reqs[i])];
    }
  }

  /** A looked-up subscription callback has as many arguments as it takes. Only regular calls are
      checked for that when they are executed; here it follows from parsing, which never lets a
      subscribe request through without params. */
  lemma SubscribeArity(reg: Registry, rs: seq<JsonRequest>, i: nat)
    requires Registered(reg) && ParseBatch(rs).Parsed? && i < |rs|
    ensures |ParseBatch(rs).reqs| == |rs|
    ensures var q := Lookup(reg, ParseBatch(rs).reqs[i]);
            q.err.None? && q.callb.Some? && q.callb.value.subscribes ==> |q.args| == |q.callb.value.argTypes|
  {
    BatchKeepsOrder(rs);
    ElementArity(reg, rs[i]);
  }

  lemma ElementArity(reg: Registry, r: JsonRequest)
    requires Registered(reg) && ParseElement(r).Parsed?
    ensures var q := Lookup(reg, ParseElement(r).reqs[0]);
            q.err.None? && q.callb.Some? && q.callb.value.subscribes ==> |q.args| == |q.callb.value.argTypes|
  {
    ElementParsesAlone(r);
    var req := ParseElement(r).reqs[0];
    if req.service in reg && req.pubSub && req.name in reg[req.service].subscriptions {
      ArgumentsFillTypes(r.params, [StringType] + reg[req.service].subscriptions[req.name].argTypes);
    }
  }

  /** Exactly which requests end a subscription: those named so, and also a subscribe request
      whose wanted subscription has a name that ends like an unsubscribe. */
  lemma UnsubscribesExactly(reg: Registry, r: JsonRequest)
    requires ParseElement(r).Parsed?
    ensures |ParseElement(r).reqs| == 1
    ensures Lookup(reg, ParseElement(r).reqs[0]).unsubscribes <==>
              || HasSuffix(r.name, UNSUBSCRIBE)
              || (HasSuffix(r.name, SUBSCRIBE) && HasSuffix(SubscriptionName(r.params).value, UNSUBSCRIBE))
  {
    ElementParsesAlone(r);
    SuffixesDiffer(r.name);
  }

  /** A request for a subscription whose name ends like an unsubscribe ends the subscription with
      that name as its id, if it is active. */
  lemma SubscribeThatUnsubscribes(reg: Registry, n: Subs, o: Outcome)
    requires "b_unsubscribe" in n.active
    ensures var r := JsonRequest("a_subscribe", NumberId(1), Array([Elem(Some("b_unsubscribe"), map[])]));
            && ParseElement(r).Parsed?
            && Handle(n, true, Lookup(reg, ParseElement(r).reqs[0]), o).subs == Unsubscribe(n, "b_unsubscribe")
            && Handle(n, true, Lookup(reg, ParseElement(r).reqs[0]), o).response == Response(NumberId(1), Unsubscribed("b_unsubscribe"))
  {
    var params := Array([Elem(Some("b_unsubscribe"), map[])]);
    var r := JsonRequest("a_subscribe", NumberId(1), params);
    assert "a_subscribe"[1..] == SUBSCRIBE && "b_unsubscribe"[1..] == UNSUBSCRIBE;
    ArgumentsFillTypes(params, [StringType]);
    var q := Lookup(reg, ParseElement(r).reqs[0]);
    assert q.unsubscribes && q.args[0..] == Arguments(params, [StringType]).value;
  }

  lemma SuffixesDiffer(s: string)
    ensures HasSuffix(s, UNSUBSCRIBE) ==> !HasSuffix(s, SUBSCRIBE)
  {
    if HasSuffix(s, UNSUBSCRIBE) {
      assert s[|s| - 10..][0] == s[|s| - 12..][2];
    }
  }

  // ---------------------------------------------------------------------------------------
  // The notifier's state

  /** Active subscriptions with their namespace, inactive ones, and the subscriptions whose error
      channel was closed, in order. */
  datatype Subs = Subs(active: map<SubId, string>, inactive: set<SubId>, closed: seq<SubId>)

  function Create(n: Subs, id: SubId): Subs {
    n.(inactive := n.inactive + {id})
  }

  function Activate(n: Subs, id: SubId, namespace: string): Subs {
    if id in n.inactive then n.(active := n.active[id := namespace], inactive := n.inactive - {id}) else n
  }

  function Unsubscribe(n: Subs, id: SubId): Subs {
    if id in n.active then n.(active := n.active - {id}, closed := n.closed + [id]) else n
  }

  /** Where a subscription is in its life. */
  datatype Stage = Unused | Inactive | Active | Ended

  function StageOf(n: Subs, id: SubId): Stage {
    if id in n.closed then Ended
    else if id in n.active then Active
    else if id in n.inactive then Inactive
    else Unused
  }

  // ---------------------------------------------------------------------------------------
  // Executing one request

  /** The answer to a request. A successful unsubscribe answers `true`; which subscription it
      ended is recorded for the statements below. */
  datatype Body = Value(v: Option<int>) | Created(sub: SubId) | Unsubscribed(sub: SubId) | Failure(code: int)

  datatype Response = Response(id: RawId, body: Body)

  datatype Activation = Activation(sub: SubId, namespace: string)

  /** What a callback does when it is called. A subscription callback either returns the
      subscription it created, with an id never used before, or an error. */
  datatype Outcome = Returns(v: int) | ReturnsNothing | Subscribes(sub: SubId) | Fails | FailsAfterCreating(sub: SubId)

  datatype Invocation = Invocation(callb: Callback, args: seq<Jsonrpc.Value>)

  datatype Handled = Handled(subs: Subs, response: Response, activation: Option<Activation>, call: Option<Invocation>)

  function Refuse(n: Subs, q: ServerRequest, e: Error): Handled {
    Handled(n, Response(q.id, Failure(ErrorCode(e))), None, None)
  }

  /** `supported`: the connection has a notifier. */
  function Handle(n: Subs, supported: bool, q: ServerRequest, o: Outcome): Handled {
    if q.err.Some? then Refuse(n, q, q.err.value)
    else if q.unsubscribes then
      if q.args == [] || !q.args[0].Text? then Refuse(n, q, InvalidParams)
      else if !supported || q.args[0].s !in n.active then Refuse(n, q, CallbackError)
      else Handled(Unsubscribe(n, q.args[0].s), Response(q.id, Unsubscribed(q.args[0].s)), None, None)
    else if q.callb.None? then Refuse(n, q, MethodNotFound)
    else
      var c := q.callb.value;
      if !c.subscribes && |q.args| != |c.argTypes| then Refuse(n, q, InvalidParams)
      else
        var call := Some(Invocation(c, q.args));
        match o
        case Subscribes(sub) =>
          if c.subscribes then
            Handled(Create(n, sub), Response(q.id, Created(sub)), Some(Activation(sub, q.service)), call)
          else Handled(Create(n, sub), Response(q.id, Body.Value(None)), None, call)
        case FailsAfterCreating(sub) => Handled(Create(n, sub), Response(q.id, Failure(ErrorCode(CallbackError))), None, call)
        case Fails => Handled(n, Response(q.id, Failure(ErrorCode(CallbackError))), None, call)
        case Returns(v) =>
          if c.subscribes then Handled(n, Response(q.id, Failure(ErrorCode(CallbackError))), None, call)
          else Handled(n, Response(q.id, Body.Value(Some(v))), None, call)
        case ReturnsNothing =>
          if c.subscribes then Handled(n, Response(q.id, Failure(ErrorCode(CallbackError))), None, call)
          else Handled(n, Response(q.id, Body.Value(None)), None, call)
  }

  /** Every response carries its request's id; a subscription is set to be activated exactly when
      its id is in the response; and every callback is called with one argument per parameter. */
  lemma HandleAnswers(n: Subs, supported: bool, reg: Registry, r: JsonRequest, o: Outcome)
    requires Registered(reg) && ParseElement(r).Parsed?
    ensures var h := Handle(n, supported, Lookup(reg, ParseElement(r).reqs[0]), o);
            && h.response.id == r.id
            && (h.activation.Some? <==> h.response.body.Created?)
            && (h.activation.Some? ==> h.activation.value.sub == h.response.body.sub && h.response.body.sub in h.subs.inactive)
            && (h.call.Some? ==> |h.call.value.args| == |h.call.value.callb.argTypes|)
  {
    ElementParsesAlone(r);
    ElementArity(reg, r);
    LookupKeepsId(reg, ParseElement(r).reqs[0]);
  }

  lemma LookupKeepsId(reg: Registry, r: RpcRequest)
    ensures Lookup(reg, r).id == r.id
  {
  }

  // ---------------------------------------------------------------------------------------
  // Executing requests in order

  datatype Run = Run(subs: Subs, responses: seq<Response>, activations: seq<Activation>)

  /** Handling `qs` in order, `os[i]` being what the callback of request i does. */
  function HandleAll(n: Subs, supported: bool, qs: seq<ServerRequest>, os: seq<Outcome>): (r: Run)
    requires |os| == |qs|
    ensures |r.responses| == |qs|
    decreases |qs|
  {
    if qs == [] then Run(n, [], [])
    else
      var k := |qs| - 1;
      var before := HandleAll(n, supported, qs[..k], os[..k]);
      var h := Handle(before.subs, supported, qs[k], os[k]);
      Run(h.subs, before.responses + [h.response],
          if h.activation.Some? then before.activations + [h.activation.value] else before.activations)
  }

  function ActivateAll(n: Subs, acts: seq<Activation>): Subs
    decreases |acts|
  {
    if acts == [] then n
    else
      var k := |acts| - 1;
      Activate(ActivateAll(n, acts[..k]), acts[k].sub, acts[k].namespace)
  }

  /** Only subscriptions whose id is in a response are activated. */
  ghost predicate Announced(rs: seq<Response>, acts: seq<Activation>) {
    forall a :: a in acts ==> AnnouncedIn(rs, a.sub)
  }

  ghost predicate AnnouncedIn(rs: seq<Response>, sub: SubId) {
    exists i :: 0 <= i < |rs| && rs[i].body == Created(sub)
  }

  /** Every subscription whose id is in a response is activated under its request's namespace. */
  ghost predicate Complete(rs: seq<Response>, qs: seq<ServerRequest>, acts: seq<Activation>)
    requires |rs| == |qs|
  {
    forall i :: 0 <= i < |rs| && rs[i].body.Created? ==> Activation(rs[i].body.sub, qs[i].service) in acts
  }

  lemma {:induction false} ResponsesInOrder(n: Subs, supported: bool, qs: seq<ServerRequest>, os: seq<Outcome>)
    requires |os| == |qs|
    ensures forall i :: 0 <= i < |qs| ==> HandleAll(n, supported, qs, os).responses[i].id == qs[i].id
    decreases |qs|
  {
    if qs != [] {
      var k := |qs| - 1;
      ResponsesInOrder(n, supported, qs[..k], os[..k]);
      HandleResponds(HandleAll(n, supported, qs[..k], os[..k]).subs, supported, qs[k], os[k]);
    }
  }

  lemma {:induction false} ActivationsAnnounced(n: Subs, supported: bool, qs: seq<ServerRequest>, os: seq<Outcome>)
    requires |os| == |qs|
    ensures Announced(HandleAll(n, supported, qs, os).responses, HandleAll(n, supported, qs, os).activations)
    decreases |qs|
  {
    if qs != [] {
      var k := |qs| - 1;
      ActivationsAnnounced(n, supported, qs[..k], os[..k]);
      var before, r := HandleAll(n, supported, qs[..k], os[..k]), HandleAll(n, supported, qs, os);
      HandleResponds(before.subs, supported, qs[k], os[k]);
      forall a | a in r.activations
        ensures AnnouncedIn(r.responses, a.sub)
      {
        if a in before.activations {
          var i :| 0 <= i < k && before.responses[i].body == Created(a.sub);
          assert r.responses[i] == before.responses[i];
        } else {
          assert r.responses[k].body == Created(a.sub);
        }
      }
    }
  }

  lemma {:induction false} ActivationsComplete(n: Subs, supported: bool, qs: seq<ServerRequest>, os: seq<Outcome>)
    requires |os| == |qs|
    ensures Complete(HandleAll(n, supported, qs, os).responses, qs, HandleAll(n, supported, qs, os).activations)
    decreases |qs|
  {
    if qs != [] {
      var k := |qs| - 1;
      ActivationsComplete(n, supported, qs[..k], os[..k]);
      var before, r := HandleAll(n, supported, qs[..k], os[..k]), HandleAll(n, supported, qs, os);
      HandleResponds(before.subs, supported, qs[k], os[k]);
      forall i | 0 <= i < |qs| && r.responses[i].body.Created?
        ensures Activation(r.responses[i].body.sub, qs[i].service) in r.activations
      {
        if i < k {
          assert r.responses[i] == before.responses[i] && qs[..k][i] == qs[i];
          assert Activation(r.responses[i].body.sub, qs[i].service) in before.activations;
        }
      }
    }
  }

  lemma HandleResponds(n: Subs, supported: bool, q: ServerRequest, o: Outcome)
    ensures var h := Handle(n, supported, q, o);
            && h.response.id == q.id
            && h.activation == if h.response.body.Created? then Some(Activation(h.response.body.sub, q.service)) else None
  {
  }

  datatype Message = Single(r: Response) | Batch(rs: seq<Response>) | Notification(sub: SubId, namespace: string, data: int)

  /** What happens on a connection: a write is attempted, or a subscription becomes active. */
  datatype Event = Wrote(m: Message, ok: bool) | Activated(a: Activation)

  /** The requests of a parsed batch, looked up. */
  function Requests(reg: Registry, reqs: seq<RpcRequest>): seq<ServerRequest> {
    seq(|reqs|, i requires 0 <= i < |reqs| => Lookup(reg, reqs[i]))
  }

  /** Handling an accepted batch gives n responses to n requests, the i-th with the i-th request's
      id; the subscriptions to activate are exactly those whose id is among them. */
  lemma AcceptedBatchIsHandled(reg: Registry, rs: seq<JsonRequest>, n: Subs, os: seq<Outcome>)
    requires ParseBatch(rs).Parsed? && |os| == |rs|
    ensures |ParseBatch(rs).reqs| == |rs|
    ensures var qs := Requests(reg, ParseBatch(rs).reqs);
            var r := HandleAll(n, true, qs, os);
            && |r.responses| == |rs|
            && (forall i :: 0 <= i < |rs| ==> r.responses[i].id == rs[i].id)
            && Announced(r.responses, r.activations) && Complete(r.responses, qs, r.activations)
  {
    BatchKeepsOrder(rs);
    var qs := Requests(reg, ParseBatch(rs).reqs);
    ResponsesInOrder(n, true, qs, os);
    ActivationsAnnounced(n, true, qs, os);
    ActivationsComplete(n, true, qs, os);
    RequestsKeepIds(reg, rs);
  }

  lemma RequestsKeepIds(reg: Registry, rs: seq<JsonRequest>)
    requires ParseBatch(rs).Parsed?
    ensures var qs := Requests(reg, ParseBatch(rs).reqs);
            |qs| == |rs| && forall i :: 0 <= i < |rs| ==> qs[i].id == rs[i].id
  {
    BatchKeepsOrder(rs);
    forall i | 0 <= i < |rs|
      ensures Requests(reg, ParseBatch(rs).reqs)[i].id == rs[i].id
    {
      LookupKeepsId(reg, ParseBatch(rs).reqs[i]);
    }
  }

  // ---------------------------------------------------------------------------------------
  // The answer to a batch message

  /** What is written for a batch message: one error for a message that is rejected as a whole,
      all responses at once otherwise. `message` is None when it is not an array of requests. */
  function Answer(reg: Registry, n: Subs, message: Option<seq<JsonRequest>>, os: seq<Outcome>): Message
    requires message.Some? ==> |os| == |message.value|
  {
    if message.None? then Single(Response(NullId, Failure(ErrorCode(InvalidMessage))))
    else
      var parsed := ParseBatch(message.value);
      if parsed.Rejected? then Single(Response(NullId, Failure(ErrorCode(parsed.err))))
      else
        BatchKeepsOrder(message.value);
        Batch(HandleAll(n, true, Requests(reg, parsed.reqs), os).responses)
  }

  /** The subscriptions that are activated after the answer. */
  function ActivatedBy(reg: Registry, n: Subs, message: Option<seq<JsonRequest>>, os: seq<Outcome>): seq<Activation>
    requires message.Some? ==> |os| == |message.value|
  {
    if message.None? || ParseBatch(message.value).Rejected? then []
    else
      BatchKeepsOrder(message.value);
      HandleAll(n, true, Requests(reg, ParseBatch(message.value).reqs), os).activations
  }

  /** The answer is an empty array exactly for the empty array, where section 6 of the JSON-RPC 2.0
      specification asks for a single error. Every other answer holds a response. */
  lemma EmptyAnswer(reg: Registry, n: Subs, message: Option<seq<JsonRequest>>, os: seq<Outcome>)
    requires message.Some? ==> |os| == |message.value|
    ensures Answer(reg, n, message, os) == Batch([]) <==> message == Some([])
    ensures Answer(reg, n, message, os).Batch? && message != Some([]) ==> Answer(reg, n, message, os).rs != []
  {
    if message.Some? && ParseBatch(message.value).Parsed? {
      AcceptedBatchIsHandled(reg, message.value, n, os);
    }
  }

  lemma EmptyBatchIsAccepted()
    ensures ParseBatch([]) == Parsed([], true)
  {
  }
}
