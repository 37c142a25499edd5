/** Parsing of JSON-RPC 2.0 requests (pkg/codec/jsonc.go). JSON itself is an oracle: a message
    comes with the values that the JSON decoder would produce for each target type. */
module Jsonrpc {
  import opened Wrappers

  /** The raw `id` member, as far as checkReqId tells ids apart. */
  datatype RawId = MissingId | NumberId(n: int) | StringId(s: string) | NullId | OtherId

  /** A Go type: only its identity and whether it is a pointer matter here. */
  datatype Type = Type(name: string, pointer: bool)

  const StringType := Type("string", false)

  datatype Value = Text(s: string) | Decoded(n: int) | Zero

  /** One element of a params array. A null comes with the types whose own decoders refuse it;
      any other element with the string it decodes to, if any, and the values it decodes to for
      other types. */
  datatype Elem = Null(refused: set<Type>) | Elem(str: Option<string>, values: map<Type, Value>)

  /** The zero value of a type. */
  function ZeroOf(t: Type): Value {
    if t == StringType then Text("") else Zero
  }

  /** A null makes a pointer nil and leaves any other type at its zero value, unless the type has
      a decoder of its own that refuses it. */
  function DecodeElem(e: Elem, t: Type): Option<Value> {
    match e
    case Null(refused) => if t.pointer || t == StringType || t !in refused then Some(ZeroOf(t)) else None
    case Elem(str, values) =>
      if t == StringType then (match str case Some(s) => Some(Text(s)) case None => None)
      else if t in values then Some(values[t]) else None
  }

  /** The raw `params` member. */
  datatype Params = Absent | NullParams | NonArray | Array(elems: seq<Elem>)

  datatype JsonRequest = JsonRequest(name: string, id: RawId, params: Params)

  datatype Error = MethodNotFound | InvalidRequest | InvalidMessage | InvalidParams | CallbackError

  function ErrorCode(e: Error): int {
    match e
    case MethodNotFound => -32601
    case InvalidRequest => -32600
    case InvalidMessage => -32700
    case InvalidParams => -32602
    case CallbackError => -32000
  }

  /** `params` is None when the program leaves the field unset. */
  datatype RpcRequest = RpcRequest(service: string, name: string, id: RawId, pubSub: bool, params: Option<Params>, err: Option<Error>)

  datatype ParseResult = Parsed(reqs: seq<RpcRequest>, batch: bool) | Rejected(err: Error, batch: bool)

  // ---------------------------------------------------------------------------------------
  // Strings

  predicate HasSuffix(s: string, suffix: string) {
    |suffix| <= |s| && s[|s| - |suffix|..] == suffix
  }

  function TrimSuffix(s: string, suffix: string): string {
    if HasSuffix(s, suffix) then s[..|s| - |suffix|] else s
  }

  function Split(s: string, sep: char): (parts: seq<string>)
    ensures |parts| >= 1
  {
    if s == "" then [""]
    else
      var rest := Split(s[1..], sep);
      if s[0] == sep then [""] + rest else [[s[0]] + rest[0]] + rest[1..]
  }

  function Join(parts: seq<string>, sep: char): string
    requires |parts| >= 1
  {
    if |parts| == 1 then parts[0] else parts[0] + [sep] + Join(parts[1..], sep)
  }

  const SUBSCRIBE := "_subscribe"
  const UNSUBSCRIBE := "_unsubscribe"

  /** A split name is put together again from its parts, and no part contains the separator: a
      two-part name has exactly one separator. */
  lemma {:induction false} SplitJoins(s: string, sep: char)
    ensures Join(Split(s, sep), sep) == s
    ensures forall i :: 0 <= i < |Split(s, sep)| ==> sep !in Split(s, sep)[i]
  {
    if s != "" {
      SplitJoins(s[1..], sep);
      var rest := Split(s[1..], sep);
      assert s == [s[0]] + s[1..];
      if s[0] == sep {
        assert ([""] + rest)[1..] == rest;
      } else {
        var parts := [[s[0]] + rest[0]] + rest[1..];
        assert parts[1..] == rest[1..];
        if |rest| > 1 {
          assert Join(parts, sep) == [s[0]] + (rest[0] + [sep] + Join(rest[1..], sep));
        }
        assert forall i :: 1 <= i < |parts| ==> parts[i] == rest[i];
      }
    }
  }

  // ---------------------------------------------------------------------------------------
  // Batches

  predicate Blank(c: char) {
    c == ' ' || c == '\t' || c == '\n' || c == '\r'
  }

  /** The first character that is not whitespace is an opening bracket. */
  ghost predicate StartsBatch(msg: string) {
    exists k :: 0 <= k < |msg| && msg[k] == '[' && forall j :: 0 <= j < k ==> Blank(msg[j])
  }

  method IsBatch(msg: string) returns (b: bool)
    ensures b <==> StartsBatch(msg)
  {
    for i := 0 to |msg|
      invariant forall j :: 0 <= j < i ==> Blank(msg[j])
    {
      if Blank(msg[i]) {
        continue;
      }
      return msg[i] == '[';
    }
    return false;
  }

  predicate ValidId(id: RawId) {
    !id.MissingId? && !id.OtherId?
  }

  /** The name of the wanted subscription: the first param as a string. Extra params are ignored,
      and a missing or null one reads as the empty name. */
  function SubscriptionName(p: Params): Option<string> {
    match p
    case Absent => None
    case NullParams => Some("")
    case NonArray => None
    case Array(elems) => if elems == [] || elems[0].Null? then Some("") else elems[0].str
  }

  function ParseRequest(message: Option<JsonRequest>): ParseResult {
    if message.None? || !ValidId(message.value.id) then Rejected(InvalidMessage, false)
    else
      var r := message.value;
      if HasSuffix(r.name, SUBSCRIBE) then
        match SubscriptionName(r.params)
        case None => Rejected(InvalidRequest, false)
        case Some(name) => Parsed([RpcRequest(TrimSuffix(r.name, SUBSCRIBE), name, r.id, true, Some(r.params), None)], false)
      else if HasSuffix(r.name, UNSUBSCRIBE) then
        Parsed([RpcRequest("", r.name, r.id, true, Some(r.params), None)], false)
      else
        var parts := Split(r.name, '_');
        if |parts| != 2 then Rejected(MethodNotFound, false)
        else Parsed([RpcRequest(parts[0], parts[1], r.id, false, if r.params.Absent? then None else Some(r.params), None)], false)
  }

  /** One element of a batch. Rejecting an element rejects the batch, except that an unknown
      name stays an error of its element. */
  function ParseElement(r: JsonRequest): ParseResult {
    if !ValidId(r.id) then Rejected(InvalidMessage, false)
    else if HasSuffix(r.name, SUBSCRIBE) then
      if r.params.Absent? then Rejected(InvalidRequest, true)
      else
        match SubscriptionName(r.params)
        case None => Rejected(InvalidRequest, false)
        case Some(name) => Parsed([RpcRequest(TrimSuffix(r.name, SUBSCRIBE), name, r.id, true, Some(r.params), None)], true)
    else if HasSuffix(r.name, UNSUBSCRIBE) then
      Parsed([RpcRequest("", r.name, r.id, true, Some(r.params), None)], true)
    else
      var params := if r.params.Absent? then None else Some(r.params);
      var parts := Split(r.name, '_');
      if |parts| == 2 then Parsed([RpcRequest(parts[0], parts[1], r.id, false, params, None)], true)
      else Parsed([RpcRequest("", "", r.id, false, params, Some(MethodNotFound))], true)
  }

  function ParseBatch(rs: seq<JsonRequest>): ParseResult {
    if rs == [] then Parsed([], true)
    else
      var first := ParseElement(rs[0]);
      if first.Rejected? then first
      else
        var rest := ParseBatch(rs[1..]);
        if rest.Rejected? then rest else Parsed(first.reqs + rest.reqs, true)
  }

  /** The loop of parseBatchRequest: it stops at the first rejected element. */
  method ParseBatchRequest(message: Option<seq<JsonRequest>>) returns (res: ParseResult)
    ensures message.None? ==> res == Rejected(InvalidMessage, false)
    ensures message.Some? ==> res == ParseBatch(message.value)
  {
    if message.None? {
      return Rejected(InvalidMessage, false);
    }
    var rs := message.value;
    var requests: seq<RpcRequest> := [];
    var i := 0;
    while i < |rs|
      invariant i <= |rs|
      invariant ParseBatch(rs) == if ParseBatch(rs[i..]).Rejected? then ParseBatch(rs[i..])
                                  else Parsed(requests + ParseBatch(rs[i..]).reqs, true)
    {
      var e := ParseElement(rs[i]);
      assert rs[i..][1..] == rs[i + 1..];
      if e.Rejected? {
        return e;
      }
      requests := requests + e.reqs;
      i := i + 1;
    }
    return Parsed(requests, true);
  }

  lemma ElementParsesAlone(r: JsonRequest)
    ensures ParseElement(r).Parsed? ==> |ParseElement(r).reqs| == 1 && ParseElement(r).reqs[0].id == r.id
  {
  }

  /** An accepted batch yields one request per element, in order, with the element's id; each is
      what the element parses to on its own. */
  lemma {:induction false} BatchKeepsOrder(rs: seq<JsonRequest>)
    requires ParseBatch(rs).Parsed?
    ensures var reqs := ParseBatch(rs).reqs;
            |reqs| == |rs| && ParseBatch(rs).batch &&
            forall i :: 0 <= i < |rs| ==> ParseElement(rs[i]) == Parsed([reqs[i]], true) && reqs[i].id == rs[i].id
  {
    if rs != [] {
      BatchKeepsOrder(rs[1..]);
      ElementParsesAlone(rs[0]);
      var reqs, rest := ParseBatch(rs).reqs, ParseBatch(rs[1..]).reqs;
      forall i | 0 <= i < |rs|
        ensures ParseElement(rs[i]) == Parsed([reqs[i]], true) && reqs[i].id == rs[i].id
      {
        if i > 0 {
          assert reqs[i] == rest[i - 1] && rs[i] == rs[1..][i - 1];
        }
      }
    }
  }

  /** A batch is accepted exactly when every element is: the two error paths that keep a batch
      alive are unknown names. */
  lemma {:induction false} BatchAccepted(rs: seq<JsonRequest>)
    ensures ParseBatch(rs).Parsed? <==> forall i :: 0 <= i < |rs| ==> ParseElement(rs[i]).Parsed?
  {
    if rs != [] {
      BatchAccepted(rs[1..]);
      assert forall i :: 0 < i < |rs| ==> rs[i] == rs[1..][i - 1];
      assert ParseElement(rs[0]).Parsed? ==> ParseElement(rs[0]).batch;
      if ParseBatch(rs).Parsed? {
        forall i | 0 <= i < |rs|
          ensures ParseElement(rs[i]).Parsed?
        {
        }
      } else if ParseElement(rs[0]).Parsed? {
        var i :| 0 <= i < |rs[1..]| && !ParseElement(rs[1..][i]).Parsed?;
        assert !ParseElement(rs[i + 1]).Parsed?;
      }
    }
  }

  /** Sent alone or inside a batch, a request is read the same way, except that an unknown name
      rejects it when alone and is an error of the element in a batch. */
  lemma BatchAgreesWithSingle(r: JsonRequest)
    ensures ParseRequest(Some(r)).Parsed? <==> ParseElement(r).Parsed? && ParseElement(r).reqs[0].err == None
    ensures ParseRequest(Some(r)).Parsed? ==> ParseRequest(Some(r)).reqs == ParseElement(r).reqs
    ensures ParseRequest(Some(r)).Rejected? && ParseElement(r).Parsed? ==>
              ParseRequest(Some(r)).err == MethodNotFound && ParseElement(r).reqs[0].err == Some(MethodNotFound)
  {
    if HasSuffix(r.name, SUBSCRIBE) {
      assert ParseElement(r).Parsed? <==> ParseRequest(Some(r)).Parsed?;
    }
  }

  // ---------------------------------------------------------------------------------------
  // Arguments

  /** The values of the supplied elements, or None when one does not decode or there are more
      elements than types. */
  function Supplied(elems: seq<Elem>, types: seq<Type>): Option<seq<Value>> {
    if elems == [] then Some([])
    else if types == [] then None
    else
      match (DecodeElem(elems[0], types[0]), Supplied(elems[1..], types[1..]))
      case (Some(v), Some(vs)) => Some([v] + vs)
      case _ => None
  }

  /** The arguments for a callback that takes `types`. */
  function Arguments(params: Params, types: seq<Type>): Option<seq<Value>> {
    if !params.Array? then None
    else
      match Supplied(params.elems, types)
      case None => None
      case Some(vs) =>
        if |vs| <= |types| && (forall i :: |vs| <= i < |types| ==> types[i].pointer)
        then Some(vs + seq(|types| - |vs|, _ => Zero)) else None
  }

  /** The two loops of parsePositionalArguments. */
  method ParsePositionalArguments(params: Params, types: seq<Type>) returns (args: Option<seq<Value>>)
    ensures args == Arguments(params, types)
  {
    if !params.Array? {
      return None;
    }
    var elems, vs := params.elems, [];
    var i := 0;
    assert elems[0..] == elems && types[0..] == types;
    assert Supplied(elems, types).Some? ==> [] + Supplied(elems, types).value == Supplied(elems, types).value;
    while i < |elems|
      invariant i == |vs| <= |elems| && |vs| <= |types|
      invariant Supplied(elems, types) == Prepend(vs, Supplied(elems[i..], types[i..]))
    {
      if i >= |types| {
        assert types[i..] == [];
        return None;
      }
      var v := DecodeElem(elems[i], types[i]);
      assert elems[i..][1..] == elems[i + 1..] && types[i..][1..] == types[i + 1..];
      if v.None? {
        return None;
      }
      ghost var rest := Supplied(elems[i + 1..], types[i + 1..]);
      assert rest.Some? ==> vs + ([v.value] + rest.value) == vs + [v.value] + rest.value;
      vs := vs + [v.value];
      i := i + 1;
    }
    assert Supplied(elems, types) == Some(vs) by {
      assert elems[i..] == [] && vs + [] == vs;
    }
    args := FillPointers(vs, types);
  }

  /** The second loop: zero values for the types that are left over, which have to be pointers. */
  method FillPointers(given: seq<Value>, types: seq<Type>) returns (args: Option<seq<Value>>)
    requires |given| <= |types|
    ensures args == if forall i :: |given| <= i < |types| ==> types[i].pointer
                    then Some(given + seq(|types| - |given|, _ => Zero)) else None
  {
    var vs, j := given, |given|;
    while j < |types|
      invariant |given| <= j <= |types| && vs == given + seq(j - |given|, _ => Zero)
      invariant forall k :: |given| <= k < j ==> types[k].pointer
    {
      if !types[j].pointer {
        return None;
      }
      vs := vs + [Zero];
      j := j + 1;
    }
    return Some(vs);
  }

  function Prepend(vs: seq<Value>, rest: Option<seq<Value>>): Option<seq<Value>> {
    match rest
    case Some(ws) => Some(vs + ws)
    case None => None
  }

  lemma {:induction false} SuppliedInOrder(elems: seq<Elem>, types: seq<Type>)
    ensures Supplied(elems, types).Some? <==>
              |elems| <= |types| && forall i :: 0 <= i < |elems| ==> DecodeElem(elems[i], types[i]).Some?
    ensures Supplied(elems, types).Some? ==>
              |Supplied(elems, types).value| == |elems| &&
              forall i :: 0 <= i < |elems| ==> DecodeElem(elems[i], types[i]) == Some(Supplied(elems, types).value[i])
  {
    if elems != [] && types != [] {
      SuppliedInOrder(elems[1..], types[1..]);
      assert forall i :: 0 < i < |elems| && i < |types| ==> elems[i] == elems[1..][i - 1] && types[i] == types[1..][i - 1];
      if Supplied(elems[1..], types[1..]).None? && |elems| <= |types| {
        var i :| 0 <= i < |elems[1..]| && !DecodeElem(elems[1..][i], types[1..][i]).Some?;
        assert DecodeElem(elems[i + 1], types[i + 1]) == DecodeElem(elems[1..][i], types[1..][i]);
      }
    }
  }

  /** The params are an array of at most as many elements as there are types, each decodes to its
      type, and only pointers are left over. */
  predicate Fits(params: Params, types: seq<Type>) {
    && params.Array? && |params.elems| <= |types|
    && (forall i :: 0 <= i < |params.elems| ==> DecodeElem(params.elems[i], types[i]).Some?)
    && (forall i :: |params.elems| <= i < |types| ==> types[i].pointer)
  }

  /** Parsing succeeds exactly for params that fit. It then returns one value per type: the
      supplied ones first and in order, then zero values. */
  lemma ArgumentsFillTypes(params: Params, types: seq<Type>)
    ensures Arguments(params, types).Some? <==> Fits(params, types)
    ensures Arguments(params, types).Some? ==>
              var vs := Arguments(params, types).value;
              && |vs| == |types|
              && (forall i :: 0 <= i < |params.elems| ==> DecodeElem(params.elems[i], types[i]) == Some(vs[i]))
              && (forall i :: |params.elems| <= i < |types| ==> vs[i] == Zero)
  {
    if params.Array? {
      SuppliedInOrder(params.elems, types);
    }
  }

  // ---------------------------------------------------------------------------------------
  // Null for a required argument

  /** The supplied values if the test for a missing required argument did what its message says:
      a null would be refused for a type that is not a pointer. */
  function SuppliedAsMeant(elems: seq<Elem>, types: seq<Type>): Option<seq<Value>> {
    if elems == [] then Some([])
    else if types == [] || (elems[0].Null? && !types[0].pointer) then None
    else
      match (DecodeElem(elems[0], types[0]), SuppliedAsMeant(elems[1..], types[1..]))
      case (Some(v), Some(vs)) => Some([v] + vs)
      case _ => None
  }

  function ArgumentsAsMeant(params: Params, types: seq<Type>): Option<seq<Value>> {
    if params.Array? && SuppliedAsMeant(params.elems, types).None? then None else Arguments(params, types)
  }

  predicate NullForRequired(elems: seq<Elem>, types: seq<Type>, i: int) {
    0 <= i < |elems| && i < |types| && elems[i].Null? && !types[i].pointer
  }

  lemma {:induction false} MeantRefusesNulls(elems: seq<Elem>, types: seq<Type>)
    ensures SuppliedAsMeant(elems, types) ==
              if exists i :: NullForRequired(elems, types, i) then None else Supplied(elems, types)
  {
    if elems != [] && types != [] {
      MeantRefusesNulls(elems[1..], types[1..]);
      assert forall i :: NullForRequired(elems[1..], types[1..], i) ==> NullForRequired(elems, types, i + 1);
      assert NullForRequired(elems, types, 0) <==> elems[0].Null? && !types[0].pointer;
      if i :| NullForRequired(elems, types, i) {
        assert i > 0 ==> NullForRequired(elems[1..], types[1..], i - 1);
      }
    }
  }

  /** The code differs from what it means exactly on params that fit and hold a null for a type
      that is not a pointer; such an argument is then the zero value of its type. */
  lemma RequiredNullAccepted(params: Params, types: seq<Type>)
    ensures Arguments(params, types) != ArgumentsAsMeant(params, types) <==>
              Fits(params, types) && exists i :: NullForRequired(params.elems, types, i)
    ensures Fits(params, types) ==>
              Arguments(params, types).Some? && |Arguments(params, types).value| == |types|
              && forall i :: NullForRequired(params.elems, types, i) ==> Arguments(params, types).value[i] == ZeroOf(types[i])
  {
    ArgumentsFillTypes(params, types);
    if params.Array? {
      MeantRefusesNulls(params.elems, types);
    }
  }

  /** `[null]` for one required string reads as the empty string. */
  lemma NullForString()
    ensures Arguments(Array([Null({})]), [StringType]) == Some([Text("")])
    ensures ArgumentsAsMeant(Array([Null({})]), [StringType]) == None
  {
    var params, types := Array([Null({})]), [StringType];
    ArgumentsFillTypes(params, types);
    RequiredNullAccepted(params, types);
    assert NullForRequired(params.elems, types, 0);
    assert Arguments(params, types).value == [Text("")];
  }
}
