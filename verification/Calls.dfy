/** What a JSON-RPC request leads to, from its text to the answer: how its name is read, which
    callback is called with which arguments, and what is answered. */
module Calls {
  import opened Jsonrpc
  import opened Server
  import opened Wrappers

  // ---------------------------------------------------------------------------------------
  // Names

  /** The name of a method of a service. */
  function FullName(service: string, name: string): string {
    service + ['_'] + name
  }

  lemma {:induction false} SplitWhole(s: string)
    requires '_' !in s
    ensures Split(s, '_') == [s]
  {
    if s != "" {
      SplitWhole(s[1..]);
      assert s == [s[0]] + s[1..];
    }
  }

  lemma {:induction false} SplitPair(a: string, b: string)
    requires '_' !in a && '_' !in b
    ensures Split(FullName(a, b), '_') == [a, b]
  {
    var s := FullName(a, b);
    if a == "" {
      assert s[1..] == b && s[0] == '_';
      SplitWhole(b);
    } else {
      SplitPair(a[1..], b);
      assert s[1..] == FullName(a[1..], b) && s[0] == a[0];
      assert [a[0]] + a[1..] == a;
    }
  }

  /** A name is made of two parts exactly when it has one separator. */
  lemma TwoParts(s: string)
    ensures |Split(s, '_')| == 2 <==> exists a, b :: '_' !in a && '_' !in b && s == FullName(a, b)
  {
    if |Split(s, '_')| == 2 {
      SplitJoins(s, '_');
      var a, b := Split(s, '_')[0], Split(s, '_')[1];
      assert s == FullName(a, b);
    }
    if a, b :| '_' !in a && '_' !in b && s == FullName(a, b) {
      SplitPair(a, b);
    }
  }

  /** The last part of a name begins after its last separator. */
  lemma SameLastPart(a: string, b: string, c: string, w: string)
    requires '_' !in b && '_' !in w && FullName(a, b) == FullName(c, w)
    ensures b == w
  {
    var s := FullName(a, b);
    assert forall k :: |a| < k < |s| ==> s[k] == b[k - |a| - 1];
    assert forall k :: |c| < k < |s| ==> s[k] == w[k - |c| - 1];
    assert s[|a|] == '_' && s[|c|] == '_';
    assert |a| == |c|;
    assert s[|a| + 1..] == b && s[|c| + 1..] == w;
  }

  /** A name ends in a separator and a word exactly when that word is its last part. */
  lemma LastPart(a: string, b: string, w: string)
    requires '_' !in b && '_' !in w
    ensures HasSuffix(FullName(a, b), ['_'] + w) <==> b == w
  {
    var s, suffix := FullName(a, b), ['_'] + w;
    if HasSuffix(s, suffix) {
      var c := s[..|s| - |suffix|];
      assert s == c + suffix == FullName(c, w);
      SameLastPart(a, b, c, w);
    }
    if b == w {
      assert s == a + suffix;
      assert s[|a|..] == suffix;
    }
  }

  lemma OrdinaryName(a: string, b: string)
    requires '_' !in a && '_' !in b && b != "subscribe" && b != "unsubscribe"
    ensures var s := FullName(a, b);
            !HasSuffix(s, SUBSCRIBE) && !HasSuffix(s, UNSUBSCRIBE) && Split(s, '_') == [a, b]
  {
    LastPart(a, b, "subscribe");
    LastPart(a, b, "unsubscribe");
    assert SUBSCRIBE == ['_'] + "subscribe" && UNSUBSCRIBE == ['_'] + "unsubscribe";
    SplitPair(a, b);
  }

  /** The text of a method name with a separator in it, a known ending or not. */
  lemma SubscribeName(a: string)
    ensures HasSuffix(a + SUBSCRIBE, SUBSCRIBE) && TrimSuffix(a + SUBSCRIBE, SUBSCRIBE) == a
  {
    assert (a + SUBSCRIBE)[|a|..] == SUBSCRIBE;
    assert (a + SUBSCRIBE)[..|a|] == a;
  }

  // ---------------------------------------------------------------------------------------
  // Reading

  function Given(p: Params): Option<Params> {
    if p.Absent? then None else Some(p)
  }

  /** The name of an ordinary method of a service. */
  predicate Ordinary(r: JsonRequest, a: string, b: string) {
    && ValidId(r.id) && r.name == FullName(a, b)
    && '_' !in a && '_' !in b && b != "subscribe" && b != "unsubscribe"
  }

  /** `service_name` is read as that name of that service, alone and in a batch. */
  lemma OrdinaryRead(r: JsonRequest, a: string, b: string)
    requires Ordinary(r, a, b)
    ensures ParseElement(r) == Parsed([RpcRequest(a, b, r.id, false, Given(r.params), None)], true)
    ensures ParseRequest(Some(r)) == Parsed([RpcRequest(a, b, r.id, false, Given(r.params), None)], false)
  {
    OrdinaryName(a, b);
  }

  /** `service_subscribe` is read as a subscription of that service, named by the first param: a
      string, where a missing or null one counts as the empty name. Without an array of params, or
      with another first param, the request is invalid. */
  lemma SubscribeRead(r: JsonRequest, a: string)
    requires ValidId(r.id) && r.name == a + SUBSCRIBE
    ensures r.params.Array? && r.params.elems != [] && r.params.elems[0].Elem? && r.params.elems[0].str.Some? ==>
              ParseElement(r) == Parsed([RpcRequest(a, r.params.elems[0].str.value, r.id, true, Some(r.params), None)], true)
    ensures r.params.NullParams? || (r.params.Array? && (r.params.elems == [] || r.params.elems[0].Null?)) ==>
              ParseElement(r) == Parsed([RpcRequest(a, "", r.id, true, Some(r.params), None)], true)
    ensures r.params.Absent? || r.params.NonArray?
            || (r.params.Array? && r.params.elems != [] && r.params.elems[0].Elem? && r.params.elems[0].str.None?) ==>
              ParseElement(r).Rejected? && ErrorCode(ParseElement(r).err) == -32600
              && ParseRequest(Some(r)).Rejected? && ErrorCode(ParseRequest(Some(r)).err) == -32600
    ensures ParseElement(r).Parsed? ==> ParseRequest(Some(r)) == Parsed(ParseElement(r).reqs, false)
  {
    SubscribeName(a);
  }

  /** An unsubscribe request keeps its params; its service does not matter. */
  lemma UnsubscribeRead(r: JsonRequest)
    requires ValidId(r.id) && HasSuffix(r.name, UNSUBSCRIBE)
    ensures ParseElement(r) == Parsed([RpcRequest("", r.name, r.id, true, Some(r.params), None)], true)
    ensures ParseRequest(Some(r)) == Parsed(ParseElement(r).reqs, false)
  {
    SuffixesDiffer(r.name);
  }

  /** A request without a valid id is rejected, and so is a message that is not a request. A name
      that is not made of two parts is unknown: it rejects the request alone, in a batch it is an
      error of its element. */
  lemma Unreadable(r: JsonRequest)
    ensures ParseRequest(None).Rejected? && ErrorCode(ParseRequest(None).err) == -32700
    ensures r.id.MissingId? || r.id.OtherId? ==>
              ParseElement(r).Rejected? && ErrorCode(ParseElement(r).err) == -32700
              && ParseRequest(Some(r)).Rejected? && ErrorCode(ParseRequest(Some(r)).err) == -32700
    ensures ValidId(r.id) && !HasSuffix(r.name, SUBSCRIBE) && !HasSuffix(r.name, UNSUBSCRIBE)
            && (forall a, b :: '_' !in a && '_' !in b ==> r.name != FullName(a, b)) ==>
              && ParseRequest(Some(r)).Rejected? && ErrorCode(ParseRequest(Some(r)).err) == -32601
              && ParseElement(r).Parsed? && |ParseElement(r).reqs| == 1 && ParseElement(r).reqs[0].id == r.id
              && ParseElement(r).reqs[0].err.Some? && ErrorCode(ParseElement(r).reqs[0].err.value) == -32601
  {
    TwoParts(r.name);
  }

  // ---------------------------------------------------------------------------------------
  // Answering

  /** What becomes of an accepted request when it is looked up and handled. */
  function Result(reg: Registry, n: Subs, supported: bool, r: JsonRequest, o: Outcome): Handled
    requires ParseElement(r).Parsed?
  {
    ElementParsesAlone(r);
    Handle(n, supported, Lookup(reg, ParseElement(r).reqs[0]), o)
  }

  /** The request is answered by an error without calling anything. */
  predicate Refused(h: Handled, n: Subs, id: RawId, code: int) {
    h == Handled(n, Response(id, Failure(code)), None, None)
  }

  /** The arguments a callback gets: none at all if it takes none, otherwise the supplied ones. */
  predicate Called(h: Handled, c: Callback, args: seq<Jsonrpc.Value>) {
    h.call == Some(Invocation(c, args)) && |args| == |c.argTypes|
  }

  /** An ordinary call is answered by an error with code -32000 exactly when the callback fails, and
      otherwise by what it returns. A callback that only creates a subscription returns nothing. */
  predicate AnswerFor(body: Body, o: Outcome) {
    match o
    case Returns(v) => body == Body.Value(Some(v))
    case ReturnsNothing => body == Body.Value(None)
    case Subscribes(_) => body == Body.Value(None)
    case Fails => body == Failure(-32000)
    case FailsAfterCreating(_) => body == Failure(-32000)
  }

  /** How the answer to an ordinary call follows from what the callback does. */
  predicate AnsweredBy(h: Handled, n: Subs, id: RawId, o: Outcome) {
    && h.response.id == id && h.activation == None && AnswerFor(h.response.body, o)
    && (if o.Subscribes? || o.FailsAfterCreating? then h.subs == n.(inactive := n.inactive + {o.sub}) else h.subs == n)
  }

  /** A call of a method that exists: it gets its arguments when the params fit its types, and is
      refused with code -32602 when they do not; it is answered by what it returns, or with code
      -32000 exactly when it fails. */
  lemma OrdinaryCall(reg: Registry, n: Subs, supported: bool, r: JsonRequest, a: string, b: string, o: Outcome)
    requires Registered(reg) && Ordinary(r, a, b) && a in reg && b in reg[a].callbacks
    ensures ParseElement(r).Parsed?
    ensures var h, c := Result(reg, n, supported, r, o), reg[a].callbacks[b];
            if c.argTypes == [] then Called(h, c, []) && AnsweredBy(h, n, r.id, o)
            else if Fits(r.params, c.argTypes) then
              Arguments(r.params, c.argTypes).Some? && Called(h, c, Arguments(r.params, c.argTypes).value) && AnsweredBy(h, n, r.id, o)
            else Refused(h, n, r.id, -32602)
  {
    OrdinaryRead(r, a, b);
    ArgumentsFillTypes(r.params, reg[a].callbacks[b].argTypes);
  }

  /** A call of a service or method that does not exist is answered with code -32601. */
  lemma UnknownCall(reg: Registry, n: Subs, supported: bool, r: JsonRequest, a: string, b: string, o: Outcome)
    requires Ordinary(r, a, b) && (a in reg ==> b !in reg[a].callbacks)
    ensures ParseElement(r).Parsed? && Refused(Result(reg, n, supported, r, o), n, r.id, -32601)
  {
    OrdinaryRead(r, a, b);
  }

  /** The params of a subscribe request begin with the name of the subscription; the callback gets
      the others. */
  predicate SubscribesTo(r: JsonRequest, a: string, name: string) {
    && ValidId(r.id) && r.name == a + SUBSCRIBE && SubscriptionName(r.params) == Some(name)
    && !HasSuffix(name, UNSUBSCRIBE)
  }

  /** A subscription that exists: argument i is the param after it, or zero where it is missing. A
      created subscription is answered by its id and set to be activated in its service's namespace;
      any other outcome is answered with code -32000. */
  lemma SubscribeCall(reg: Registry, n: Subs, supported: bool, r: JsonRequest, a: string, name: string, o: Outcome)
    requires Registered(reg) && SubscribesTo(r, a, name) && a in reg && name in reg[a].subscriptions
    ensures ParseElement(r).Parsed?
    ensures var h, c := Result(reg, n, supported, r, o), reg[a].subscriptions[name];
            if c.argTypes == [] then Called(h, c, []) && AnsweredSubscribe(h, n, r.id, a, o)
            else if Fits(r.params, [StringType] + c.argTypes) then
              && h.call.Some? && Called(h, c, h.call.value.args) && AnsweredSubscribe(h, n, r.id, a, o)
              && forall i :: 0 <= i < |c.argTypes| ==>
                   if i + 1 < |r.params.elems| then DecodeElem(r.params.elems[i + 1], c.argTypes[i]) == Some(h.call.value.args[i])
                   else h.call.value.args[i] == Zero
            else Refused(h, n, r.id, -32602)
  {
    SubscribeName(a);
    SuffixesDiffer(r.name);
    var types := [StringType] + reg[a].subscriptions[name].argTypes;
    ArgumentsFillTypes(r.params, types);
  }

  predicate AnsweredSubscribe(h: Handled, n: Subs, id: RawId, service: string, o: Outcome) {
    && h.response.id == id
    && (if o.Subscribes? then h.response.body == Created(o.sub) && h.activation == Some(Activation(o.sub, service))
        else h.response.body == Failure(-32000) && h.activation == None)
    && (if o.Subscribes? || o.FailsAfterCreating? then h.subs == n.(inactive := n.inactive + {o.sub}) else h.subs == n)
  }

  lemma UnknownSubscription(reg: Registry, n: Subs, supported: bool, r: JsonRequest, a: string, name: string, o: Outcome)
    requires SubscribesTo(r, a, name) && (a in reg ==> name !in reg[a].subscriptions)
    ensures ParseElement(r).Parsed? && Refused(Result(reg, n, supported, r, o), n, r.id, -32601)
  {
    SubscribeName(a);
    SuffixesDiffer(r.name);
  }

  /** An unsubscribe request ends the subscription whose id is its only param, when that is active
      and the connection has a notifier; otherwise nothing changes and it is answered with code
      -32000, or -32602 when its params are not one string. */
  lemma UnsubscribeCall(reg: Registry, n: Subs, supported: bool, r: JsonRequest, o: Outcome)
    requires ValidId(r.id) && HasSuffix(r.name, UNSUBSCRIBE)
    ensures ParseElement(r).Parsed?
    ensures var h := Result(reg, n, supported, r, o);
            if Fits(r.params, [StringType]) && |r.params.elems| == 1 then
              var id := DecodeElem(r.params.elems[0], StringType).value;
              id.Text? &&
              if supported && id.s in n.active then
                h == Handled(n.(active := n.active - {id.s}, closed := n.closed + [id.s]), Response(r.id, Unsubscribed(id.s)), None, None)
              else Refused(h, n, r.id, -32000)
            else Refused(h, n, r.id, -32602)
  {
    UnsubscribeRead(r);
    ArgumentsFillTypes(r.params, [StringType]);
  }

  /** A message that is not an array of requests, and a batch with an element that cannot be read, are
      answered by one error with a null id, and nothing is executed: the first such element decides. */
  lemma {:induction false} BatchRefused(reg: Registry, n: Subs, rs: seq<JsonRequest>, os: seq<Outcome>, i: nat)
    requires |os| == |rs| && i < |rs| && ParseElement(rs[i]).Rejected?
    requires forall j :: 0 <= j < i ==> ParseElement(rs[j]).Parsed?
    ensures Answer(reg, n, None, []) == Single(Response(NullId, Failure(-32700)))
    ensures Answer(reg, n, Some(rs), os) == Single(Response(NullId, Failure(if ValidId(rs[i].id) then -32600 else -32700)))
    ensures ActivatedBy(reg, n, Some(rs), os) == []
  {
    FirstRejected(rs, i);
  }

  lemma {:induction false} FirstRejected(rs: seq<JsonRequest>, i: nat)
    requires i < |rs| && ParseElement(rs[i]).Rejected?
    requires forall j :: 0 <= j < i ==> ParseElement(rs[j]).Parsed?
    ensures ParseBatch(rs) == ParseElement(rs[i])
    decreases i
  {
    if i > 0 {
      assert ParseElement(rs[0]).Parsed?;
      assert forall j :: 0 <= j < i ==> rs[1..][j] == rs[j + 1];
      FirstRejected(rs[1..], i - 1);
    }
  }
}
