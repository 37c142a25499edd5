/** The code that serves one connection performs runs of the protocol: what it computes for a request
    or a batch is what one goroutine does there when no other one interferes. */
module ServedAlone {
  import opened Server
  import opened Wrappers
  import opened NotifierProtocol

  lemma RunExtends(s: State, ls: seq<(Tid, Action)>, x: (Tid, Action))
    requires CanRunAll(s, ls) && Enabled(RunAll(s, ls), x.0, x.1)
    ensures CanRunAll(s, ls + [x]) && RunAll(s, ls + [x]) == Apply(RunAll(s, ls), x.0, x.1)
  {
    var none: seq<(Tid, Action)> := [];
    RunPrepends(RunAll(s, ls), x, none);
    assert [x] + none == [x];
    RunsCompose(s, ls, [x]);
  }

  /** The callbacks create subscriptions with ids that were never used. */
  ghost predicate FreshIds(used: set<SubId>, os: seq<Outcome>) {
    && (forall i :: 0 <= i < |os| ==> MadeBy(os[i]) !! used)
    && (forall i, j :: 0 <= i < j < |os| ==> MadeBy(os[i]) !! MadeBy(os[j]))
  }

  /** The goroutine has handled the first `k` requests as the code does, alone. */
  ghost predicate HandledFirst(s: State, s': State, t: Tid, reqs: seq<ServerRequest>, batch: bool, os: seq<Outcome>, k: nat)
    requires k <= |reqs| == |os|
  {
    var r := HandleAll(s.subs, true, reqs[..k], os[..k]);
    && P(s', t) == Handling(reqs, batch, r.responses, r.activations)
    && s'.subs == r.subs && s'.readers == s.readers
    && (s'.wire, s'.answered, s'.down) == (s.wire, s.answered, s.down)
    && forall i :: k <= i < |os| ==> MadeBy(os[i]) !! s'.used
  }

  lemma {:induction false} HandleRun(s: State, t: Tid, reqs: seq<ServerRequest>, batch: bool, os: seq<Outcome>, k: nat)
    returns (ls: seq<(Tid, Action)>)
    requires P(s, t) == Handling(reqs, batch, [], []) && s.readers == {} && |os| == |reqs| && FreshIds(s.used, os) && k <= |reqs|
    ensures CanRunAll(s, ls) && HandledFirst(s, RunAll(s, ls), t, reqs, batch, os, k)
    ensures forall j :: 0 <= j < |ls| ==> ls[j].0 == t
  {
    if k == 0 {
      ls := [];
    } else {
      ls := HandleRun(s, t, reqs, batch, os, k - 1);
      OneMoreHandled(s, RunAll(s, ls), t, reqs, batch, os, k);
      RunExtends(s, ls, (t, HandleNext(os[k - 1])));
      ls := ls + [(t, HandleNext(os[k - 1]))];
    }
  }

  lemma OneMoreHandled(s: State, s': State, t: Tid, reqs: seq<ServerRequest>, batch: bool, os: seq<Outcome>, k: nat)
    requires 0 < k <= |reqs| == |os| && s.readers == {} && FreshIds(s.used, os)
    requires HandledFirst(s, s', t, reqs, batch, os, k - 1)
    ensures Enabled(s', t, HandleNext(os[k - 1]))
    ensures HandledFirst(s, Apply(s', t, HandleNext(os[k - 1])), t, reqs, batch, os, k)
  {
    assert reqs[..k][..k - 1] == reqs[..k - 1] && os[..k][..k - 1] == os[..k - 1];
    assert MadeBy(os[k - 1]) !! s'.used;
  }

  lemma {:induction false} ActivateFirst(n: Subs, acts: seq<Activation>)
    requires acts != []
    ensures ActivateAll(n, acts) == ActivateAll(Activate(n, acts[0].sub, acts[0].namespace), acts[1..])
    decreases |acts|
  {
    var k := |acts| - 1;
    if k > 0 {
      ActivateFirst(n, acts[..k]);
      assert acts[..k][1..] == acts[1..][..k - 1];
    }
  }

  predicate Activates(acts: seq<Activation>, id: SubId) {
    exists a :: a in acts && a.sub == id
  }

  /** Activating makes exactly the inactive subscriptions among them active and leaves every other one
      as it is. */
  lemma {:induction false} ActivatesExactly(n: Subs, acts: seq<Activation>, id: SubId)
    ensures var n' := ActivateAll(n, acts);
            && n'.closed == n.closed
            && (id in n'.inactive <==> id in n.inactive && !Activates(acts, id))
            && (id in n.inactive && Activates(acts, id) ==> id in n'.active && Activation(id, n'.active[id]) in acts)
            && (!(id in n.inactive && Activates(acts, id)) ==> (id in n'.active <==> id in n.active))
            && (!(id in n.inactive && Activates(acts, id)) && id in n.active ==> n'.active[id] == n.active[id])
    decreases |acts|
  {
    if acts != [] {
      var k := |acts| - 1;
      ActivatesExactly(n, acts[..k], id);
      assert acts == acts[..k] + [acts[k]];
      assert Activates(acts, id) <==> Activates(acts[..k], id) || acts[k].sub == id;
    }
  }

  lemma {:induction false} ActivateRun(s: State, t: Tid) returns (ls: seq<(Tid, Action)>)
    requires P(s, t).Activating? && s.readers == {}
    ensures CanRunAll(s, ls) && P(RunAll(s, ls), t) == Idle
    ensures var s' := RunAll(s, ls);
            s'.subs == ActivateAll(s.subs, P(s, t).acts) && (s'.wire, s'.answered, s'.down) == (s.wire, s.answered, s.down)
    ensures forall j :: 0 <= j < |ls| ==> ls[j].0 == t
    decreases |P(s, t).acts|
  {
    var acts := P(s, t).acts;
    if acts == [] {
      ls := [(t, EndServe)];
      assert ls[1..] == [];
    } else {
      ActivateFirst(s.subs, acts);
      var rest := ActivateRun(Apply(s, t, ActivateNext), t);
      ls := [(t, ActivateNext)] + rest;
      assert ls[1..] == rest;
    }
  }

  /** `s'` is what serving `reqs` alone leaves behind: the responses in one message, and the
      subscriptions it announces activated. */
  predicate Served(s: State, s': State, t: Tid, r: Run, reqs: seq<ServerRequest>, batch: bool, ok: bool) {
    && P(s', t) == Idle
    && (batch || |r.responses| == 1)
    && s'.wire == s.wire + [if batch then Batch(r.responses) else Single(r.responses[0])]
    && s'.answered == s.answered + [reqs]
    && s'.subs == ActivateAll(r.subs, r.activations)
    && s'.down == (s.down || !ok)
  }

  lemma {:induction false} FinishRun(s: State, t: Tid, ok: bool) returns (ls: seq<(Tid, Action)>)
    requires Enabled(s, t, Respond(ok)) && s.readers == {}
    ensures CanRunAll(s, ls)
    ensures var p := P(s, t); Served(s, RunAll(s, ls), t, Run(s.subs, p.rs, p.acts), p.reqs, p.batch, ok)
    ensures forall j :: 0 <= j < |ls| ==> ls[j].0 == t
  {
    var last := ActivateRun(Apply(s, t, Respond(ok)), t);
    RunPrepends(s, (t, Respond(ok)), last);
    ls := [(t, Respond(ok))] + last;
  }

  lemma {:induction false} ServeRun(s: State, t: Tid, reqs: seq<ServerRequest>, batch: bool, os: seq<Outcome>, ok: bool)
    returns (ls: seq<(Tid, Action)>)
    requires P(s, t) == Handling(reqs, batch, [], []) && (batch || |reqs| == 1) && s.readers == {}
    requires |os| == |reqs| && FreshIds(s.used, os)
    ensures CanRunAll(s, ls) && Served(s, RunAll(s, ls), t, HandleAll(s.subs, true, reqs, os), reqs, batch, ok)
    ensures forall j :: 0 <= j < |ls| ==> ls[j].0 == t
  {
    var first := HandleRun(s, t, reqs, batch, os, |reqs|);
    assert reqs[..|reqs|] == reqs && os[..|os|] == os;
    var last := FinishRun(RunAll(s, first), t, ok);
    RunsCompose(s, first, last);
    ls := first + last;
  }

  /** What `Connection.Notifier.Exec` and `ExecBatch` write and leave behind is what a goroutine of
      the protocol writes and leaves behind when it serves the requests alone: one message with all
      responses in order, then the activations. */
  lemma {:induction false} CodeIsARun(s: State, t: Tid, reqs: seq<ServerRequest>, batch: bool, os: seq<Outcome>, ok: bool)
    requires P(s, t) == Idle && (batch || |reqs| == 1) && s.readers == {} && |os| == |reqs| && FreshIds(s.used, os)
    ensures exists ls: seq<(Tid, Action)> ::
              && CanRunAll(s, ls) && (forall j :: 0 <= j < |ls| ==> ls[j].0 == t)
              && Served(s, RunAll(s, ls), t, HandleAll(s.subs, true, reqs, os), reqs, batch, ok)
  {
    var serve := (t, Serve(reqs, batch));
    var rest := ServeRun(Apply(s, t, serve.1), t, reqs, batch, os, ok);
    RunPrepends(s, serve, rest);
    var ls := [serve] + rest;
    assert CanRunAll(s, ls);
  }
}
