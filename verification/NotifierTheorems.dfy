/** What each message on the wire says, over whole runs of the connection's goroutines. */
module NotifierTheorems {
  import opened Jsonrpc
  import opened Server
  import opened Wrappers
  import opened Calls
  import opened NotifierProtocol

  // ---------------------------------------------------------------------------------------
  // A notification carries the namespace its subscription was announced in

  /** Response i of the message creates `id` for a request to the service `ns`. */
  predicate Tells(m: Message, qs: seq<ServerRequest>, i: int, id: SubId, ns: string) {
    0 <= i < |ResponsesOf(m)| && i < |qs| && ResponsesOf(m)[i].body == Created(id) && qs[i].service == ns
  }

  /** One of the first k messages announced `id` to a subscriber of the service `ns`. */
  ghost predicate Told(wire: seq<Message>, answered: seq<seq<ServerRequest>>, k: nat, id: SubId, ns: string)
    requires k <= |wire| == |answered|
  {
    exists j, i :: 0 <= j < k && Tells(wire[j], answered[j], i, id, ns)
  }

  ghost predicate AboutToTell(rs: seq<Response>, qs: seq<ServerRequest>, a: Activation) {
    exists i :: 0 <= i < |rs| && i < |qs| && rs[i].body == Created(a.sub) && qs[i].service == a.namespace
  }

  ghost predicate NameFits(s: State, p: Pc)
    requires |s.wire| == |s.answered|
  {
    match p
    case Handling(reqs, _, rs, acts) => forall a :: a in acts ==> AboutToTell(rs, reqs, a)
    case Activating(acts) => forall a :: a in acts ==> Told(s.wire, s.answered, |s.wire|, a.sub, a.namespace)
    case Sending(sub, ns, _) => Told(s.wire, s.answered, |s.wire|, sub, ns)
    case _ => true
  }

  ghost predicate NameInv(s: State) {
    && |s.wire| == |s.answered|
    && (forall t: Tid :: NameFits(s, P(s, t)))
    && (forall id :: id in s.subs.active ==> Told(s.wire, s.answered, |s.wire|, id, s.subs.active[id]))
    && (forall k :: 0 <= k < |s.wire| && s.wire[k].Notification? ==> Told(s.wire, s.answered, k, s.wire[k].sub, s.wire[k].namespace))
  }

  /** What has been told stays told. */
  lemma ToldStays(s: State, s': State, k: nat, k': nat, id: SubId, ns: string)
    requires |s.wire| == |s.answered| && |s'.wire| == |s'.answered| && s.wire <= s'.wire && s.answered <= s'.answered
    requires k <= |s.wire| && k <= k' <= |s'.wire| && Told(s.wire, s.answered, k, id, ns)
    ensures Told(s'.wire, s'.answered, k', id, ns)
  {
    var j, i :| 0 <= j < k && Tells(s.wire[j], s.answered[j], i, id, ns);
    assert Tells(s'.wire[j], s'.answered[j], i, id, ns);
  }

  lemma LogGrows(s: State, t: Tid, a: Action)
    requires Enabled(s, t, a) && |s.wire| == |s.answered|
    ensures var s' := Apply(s, t, a);
            && |s'.wire| == |s'.answered| && s.wire <= s'.wire && s.answered <= s'.answered
            && (!a.Respond? && !a.SendNotification? ==> s'.wire == s.wire && s'.answered == s.answered)
  {
  }

  lemma NameStep(s: State, t: Tid, a: Action)
    requires Inv(s) && NameInv(s) && Enabled(s, t, a)
    ensures NameInv(Apply(s, t, a))
  {
    var s' := Apply(s, t, a);
    LogGrows(s, t, a);
    forall u: Tid
      ensures NameFits(s', P(s', u))
    {
      PcNames(s, t, a, u);
    }
    forall id | id in s'.subs.active
      ensures Told(s'.wire, s'.answered, |s'.wire|, id, s'.subs.active[id])
    {
      ActiveNames(s, t, a, id);
    }
    forall k | 0 <= k < |s'.wire| && s'.wire[k].Notification?
      ensures Told(s'.wire, s'.answered, k, s'.wire[k].sub, s'.wire[k].namespace)
    {
      WireNames(s, t, a, k);
    }
  }

  lemma PcNames(s: State, t: Tid, a: Action, u: Tid)
    requires Inv(s) && NameInv(s) && Enabled(s, t, a) && |Apply(s, t, a).wire| == |Apply(s, t, a).answered|
    ensures NameFits(Apply(s, t, a), P(Apply(s, t, a), u))
  {
    if u == t {
      ActorNames(s, t, a);
    } else {
      LogGrows(s, t, a);
      assert NameFits(s, P(s, u)) && P(Apply(s, t, a), u) == P(s, u);
      NamesStay(s, Apply(s, t, a), P(s, u));
    }
  }

  lemma NamesStay(s: State, s': State, p: Pc)
    requires |s.wire| == |s.answered| && |s'.wire| == |s'.answered| && s.wire <= s'.wire && s.answered <= s'.answered
    requires NameFits(s, p)
    ensures NameFits(s', p)
  {
    match p
    case Activating(acts) =>
      forall a | a in acts
        ensures Told(s'.wire, s'.answered, |s'.wire|, a.sub, a.namespace)
      {
        ToldStays(s, s', |s.wire|, |s'.wire|, a.sub, a.namespace);
      }
    case Sending(sub, ns, _) => ToldStays(s, s', |s.wire|, |s'.wire|, sub, ns);
    case _ =>
  }

  lemma ActorNames(s: State, t: Tid, a: Action)
    requires Inv(s) && NameInv(s) && Enabled(s, t, a)
    ensures |Apply(s, t, a).wire| == |Apply(s, t, a).answered| && NameFits(Apply(s, t, a), P(Apply(s, t, a), t))
  {
    var s' := Apply(s, t, a);
    LogGrows(s, t, a);
    assert NameFits(s, P(s, t)) && PcFits(s, P(s, t));
    if a.HandleNext? {
      HandlerNames(s, t, a.o);
    } else if a.Respond? {
      RespondNames(s, t, a.ok);
    } else if a.ActivateNext? {
      assert forall b :: b in P(s, t).acts[1..] ==> b in P(s, t).acts;
    }
  }

  lemma HandlerNames(s: State, t: Tid, o: Outcome)
    requires |s.wire| == |s.answered| && Enabled(s, t, HandleNext(o)) && NameFits(s, P(s, t))
    ensures NameFits(HandleStep(s, t, o), P(HandleStep(s, t, o), t))
  {
    var p, p' := P(s, t), P(HandleStep(s, t, o), t);
    HandleResponds(s.subs, true, p.reqs[|p.rs|], o);
    forall b | b in p'.acts
      ensures AboutToTell(p'.rs, p'.reqs, b)
    {
      if b in p.acts {
        var i :| 0 <= i < |p.rs| && i < |p.reqs| && p.rs[i].body == Created(b.sub) && p.reqs[i].service == b.namespace;
        assert p'.rs[i] == p.rs[i];
      } else {
        assert p'.rs[|p.rs|].body == Created(b.sub) && p'.reqs[|p.rs|].service == b.namespace;
      }
    }
  }

  lemma RespondNames(s: State, t: Tid, ok: bool)
    requires |s.wire| == |s.answered| && Enabled(s, t, Respond(ok)) && NameFits(s, P(s, t))
    ensures |Apply(s, t, Respond(ok)).wire| == |Apply(s, t, Respond(ok)).answered|
    ensures NameFits(Apply(s, t, Respond(ok)), P(Apply(s, t, Respond(ok)), t))
  {
    var p, s', n := P(s, t), Apply(s, t, Respond(ok)), |s.wire|;
    assert ResponsesOf(s'.wire[n]) == p.rs && s'.answered[n] == p.reqs;
    forall b | b in p.acts
      ensures Told(s'.wire, s'.answered, n + 1, b.sub, b.namespace)
    {
      var i :| 0 <= i < |p.rs| && i < |p.reqs| && p.rs[i].body == Created(b.sub) && p.reqs[i].service == b.namespace;
      assert Tells(s'.wire[n], s'.answered[n], i, b.sub, b.namespace);
    }
  }

  lemma ActiveNames(s: State, t: Tid, a: Action, id: SubId)
    requires Inv(s) && NameInv(s) && Enabled(s, t, a) && id in Apply(s, t, a).subs.active
    ensures |Apply(s, t, a).wire| == |Apply(s, t, a).answered|
    ensures var s' := Apply(s, t, a); Told(s'.wire, s'.answered, |s'.wire|, id, s'.subs.active[id])
  {
    var s' := Apply(s, t, a);
    LogGrows(s, t, a);
    ActiveSource(s, t, a, id);
    if id in s.subs.active && s'.subs.active[id] == s.subs.active[id] {
      ToldStays(s, s', |s.wire|, |s'.wire|, id, s'.subs.active[id]);
    } else {
      var b := P(s, t).acts[0];
      assert NameFits(s, P(s, t)) && b in P(s, t).acts;
    }
  }

  /** An active subscription was active before, in the same namespace, or is activated now. */
  lemma ActiveSource(s: State, t: Tid, a: Action, id: SubId)
    requires Enabled(s, t, a) && id in Apply(s, t, a).subs.active
    ensures (id in s.subs.active && Apply(s, t, a).subs.active[id] == s.subs.active[id])
            || (a.ActivateNext? && P(s, t).acts[0] == Activation(id, Apply(s, t, a).subs.active[id]))
  {
    if a.HandleNext? {
      HandleEffect(s.subs, P(s, t).reqs[|P(s, t).rs|], a.o);
    }
  }

  lemma WireNames(s: State, t: Tid, a: Action, k: nat)
    requires NameInv(s) && Enabled(s, t, a) && k < |Apply(s, t, a).wire| && Apply(s, t, a).wire[k].Notification?
    ensures |Apply(s, t, a).wire| == |Apply(s, t, a).answered|
    ensures var s' := Apply(s, t, a); Told(s'.wire, s'.answered, k, s'.wire[k].sub, s'.wire[k].namespace)
  {
    var s' := Apply(s, t, a);
    LogGrows(s, t, a);
    if k < |s.wire| {
      assert s'.wire[k] == s.wire[k];
      ToldStays(s, s', k, k, s.wire[k].sub, s.wire[k].namespace);
    } else {
      assert a.SendNotification? && k == |s.wire| && NameFits(s, P(s, t));
      ToldStays(s, s', |s.wire|, k, P(s, t).sub, P(s, t).namespace);
    }
  }

  lemma {:induction false} NameRun(s: State, ls: seq<(Tid, Action)>)
    requires Inv(s) && NameInv(s) && CanRunAll(s, ls)
    ensures NameInv(RunAll(s, ls))
    decreases |ls|
  {
    if ls != [] {
      NameStep(s, ls[0].0, ls[0].1);
      InvStep(s, ls[0].0, ls[0].1);
      NameRun(Apply(s, ls[0].0, ls[0].1), ls[1..]);
    }
  }

  /** In every run a notification is in the namespace of the service whose request created its
      subscription, and the answer to that request is already on the wire. */
  lemma {:induction false} NotificationsAreNamed(s: State, k: nat)
    requires Reachable(s) && k < |s.wire| && s.wire[k].Notification?
    ensures |s.answered| == |s.wire|
    ensures exists j, i :: 0 <= j < k && Tells(s.wire[j], s.answered[j], i, s.wire[k].sub, s.wire[k].namespace)
  {
    var ls :| CanRunAll(Init(), ls) && RunAll(Init(), ls) == s;
    NameRun(Init(), ls);
  }

  // ---------------------------------------------------------------------------------------
  // A notification carries data that the service passed for it

  function Noted(ls: seq<(Tid, Action)>): set<(SubId, int)> {
    set x | x in ls && x.1.CallNotify? :: (x.1.sub, x.1.data)
  }

  ghost predicate DataFits(s: State, calls: set<(SubId, int)>) {
    && (forall t: Tid :: P(s, t).Locking? || P(s, t).Checking? || P(s, t).Sending? ==> (P(s, t).sub, P(s, t).data) in calls)
    && (forall k :: 0 <= k < |s.wire| && s.wire[k].Notification? ==> (s.wire[k].sub, s.wire[k].data) in calls)
  }

  lemma DataStep(s: State, t: Tid, a: Action, calls: set<(SubId, int)>)
    requires DataFits(s, calls) && Enabled(s, t, a) && (a.CallNotify? ==> (a.sub, a.data) in calls)
    ensures DataFits(Apply(s, t, a), calls)
  {
    var s' := Apply(s, t, a);
    forall u: Tid | P(s', u).Locking? || P(s', u).Checking? || P(s', u).Sending?
      ensures (P(s', u).sub, P(s', u).data) in calls
    {
      assert u != t ==> P(s', u) == P(s, u);
    }
    forall k | 0 <= k < |s'.wire| && s'.wire[k].Notification?
      ensures (s'.wire[k].sub, s'.wire[k].data) in calls
    {
      assert k < |s.wire| ==> s'.wire[k] == s.wire[k];
    }
  }

  lemma {:induction false} DataRun(s: State, ls: seq<(Tid, Action)>, calls: set<(SubId, int)>)
    requires DataFits(s, calls) && CanRunAll(s, ls) && Noted(ls) <= calls
    ensures DataFits(RunAll(s, ls), calls)
    decreases |ls|
  {
    if ls != [] {
      assert ls[0] in ls && forall x :: x in ls[1..] ==> x in ls;
      assert ls[0].1.CallNotify? ==> (ls[0].1.sub, ls[0].1.data) in Noted(ls);
      assert Noted(ls[1..]) <= Noted(ls);
      DataStep(s, ls[0].0, ls[0].1, calls);
      DataRun(Apply(s, ls[0].0, ls[0].1), ls[1..], calls);
    }
  }

  /** Every notification on the wire carries what some call of Notify passed for its subscription. */
  lemma {:induction false} NotificationsWereCalled(ls: seq<(Tid, Action)>, k: nat)
    requires CanRunAll(Init(), ls) && k < |RunAll(Init(), ls).wire| && RunAll(Init(), ls).wire[k].Notification?
    ensures var m := RunAll(Init(), ls).wire[k];
            exists x :: x in ls && x.1 == CallNotify(m.sub, m.data)
  {
    DataRun(Init(), ls, Noted(ls));
  }

  // ---------------------------------------------------------------------------------------
  // Notify writes for an active subscription

  /** The notification was written at or after position n. */
  ghost predicate WrittenFrom(wire: seq<Message>, n: nat, m: Message) {
    exists k :: n <= k < |wire| && wire[k] == m
  }

  /** The goroutine is past the lookup that found the subscription, or about to find it. */
  ghost predicate OnItsWay(s: State, t: Tid, id: SubId, ns: string, data: int, n: nat) {
    || (P(s, t) == Checking(id, data) && id in s.subs.active && s.subs.active[id] == ns)
    || P(s, t) == Sending(id, ns, data)
    || WrittenFrom(s.wire, n, Notification(id, ns, data))
  }

  lemma OnItsWayStep(s: State, u: Tid, a: Action, t: Tid, id: SubId, ns: string, data: int, n: nat)
    requires LockInv(s) && Enabled(s, u, a) && n <= |s.wire| && OnItsWay(s, t, id, ns, data, n)
    ensures n <= |Apply(s, u, a).wire| && OnItsWay(Apply(s, u, a), t, id, ns, data, n)
  {
    var s' := Apply(s, u, a);
    if WrittenFrom(s.wire, n, Notification(id, ns, data)) {
      var k :| n <= k < |s.wire| && s.wire[k] == Notification(id, ns, data);
      assert s'.wire[k] == s.wire[k];
    } else {
      assert Reads(P(s, t)) && t in s.readers;
      if u == t {
        OwnStep(s, t, a, id, ns, data, n);
      } else {
        SubsUnderReadLock(s, u, a);
        assert P(s', t) == P(s, t);
      }
    }
  }

  lemma OwnStep(s: State, t: Tid, a: Action, id: SubId, ns: string, data: int, n: nat)
    requires Enabled(s, t, a) && n <= |s.wire|
    requires (P(s, t) == Checking(id, data) && id in s.subs.active && s.subs.active[id] == ns) || P(s, t) == Sending(id, ns, data)
    ensures OnItsWay(Apply(s, t, a), t, id, ns, data, n)
  {
    if P(s, t).Sending? {
      assert Apply(s, t, a).wire[|s.wire|] == Notification(id, ns, data);
    }
  }

  /** While anyone holds the read lock the notifier does not change. */
  lemma SubsUnderReadLock(s: State, t: Tid, a: Action)
    requires Enabled(s, t, a) && s.readers != {}
    ensures Apply(s, t, a).subs == s.subs
  {
  }

  lemma {:induction false} OnItsWayRun(s: State, ls: seq<(Tid, Action)>, t: Tid, id: SubId, ns: string, data: int, n: nat)
    requires Inv(s) && CanRunAll(s, ls) && n <= |s.wire| && OnItsWay(s, t, id, ns, data, n)
    ensures OnItsWay(RunAll(s, ls), t, id, ns, data, n)
    decreases |ls|
  {
    if ls != [] {
      OnItsWayStep(s, ls[0].0, ls[0].1, t, id, ns, data, n);
      InvStep(s, ls[0].0, ls[0].1);
      OnItsWayRun(Apply(s, ls[0].0, ls[0].1), ls[1..], t, id, ns, data, n);
    }
  }

  /** Once it holds the read lock while its subscription is active, a Notify has written its data in
      the subscription's namespace by the time it returns. */
  lemma {:induction false} NotifyWrites(s: State, t: Tid, id: SubId, data: int, ls: seq<(Tid, Action)>)
    requires Reachable(s) && P(s, t) == Checking(id, data) && id in s.subs.active
    requires CanRunAll(s, ls) && P(RunAll(s, ls), t) == Idle
    ensures WrittenFrom(RunAll(s, ls).wire, |s.wire|, Notification(id, s.subs.active[id], data))
  {
    InvReachable(s);
    OnItsWayRun(s, ls, t, id, s.subs.active[id], data, |s.wire|);
  }

  lemma {:induction false} RunSplits(s: State, ls: seq<(Tid, Action)>, j: nat)
    requires CanRunAll(s, ls) && j <= |ls|
    ensures CanRunAll(s, ls[..j]) && CanRunAll(RunAll(s, ls[..j]), ls[j..])
    ensures RunAll(RunAll(s, ls[..j]), ls[j..]) == RunAll(s, ls)
    decreases j
  {
    if j == 0 {
      assert ls[..0] == [] && ls[0..] == ls;
    } else {
      RunSplits(Apply(s, ls[0].0, ls[0].1), ls[1..], j - 1);
      assert ls[..j] == [ls[0]] + ls[1..][..j - 1] && ls[j..] == ls[1..][j - 1..];
      RunPrepends(s, ls[0], ls[1..][..j - 1]);
    }
  }

  /** A Notify that returns has looked its subscription up under the read lock on the way. */
  lemma {:induction false} LooksUp(s: State, t: Tid, id: SubId, data: int, ls: seq<(Tid, Action)>) returns (j: nat)
    requires P(s, t) == Locking(id, data) && CanRunAll(s, ls) && P(RunAll(s, ls), t) == Idle
    ensures j <= |ls| && CanRunAll(s, ls[..j]) && P(RunAll(s, ls[..j]), t) == Checking(id, data)
    decreases |ls|
  {
    var s' := Apply(s, ls[0].0, ls[0].1);
    if ls[0].0 == t {
      j := 1;
      assert ls[..1] == [ls[0]] + [];
      RunPrepends(s, ls[0], []);
    } else {
      assert P(s', t) == P(s, t);
      var k := LooksUp(s', t, id, data, ls[1..]);
      j := k + 1;
      assert ls[..j] == [ls[0]] + ls[1..][..k];
      RunPrepends(s, ls[0], ls[1..][..k]);
    }
  }

  /** Calling Notify, from the call to its return and whatever other goroutines do meanwhile: there is
      a moment at which it looks its subscription up, and when that is active then, its data is
      written in the namespace it has then. */
  lemma {:induction false} NotifyCall(s: State, t: Tid, id: SubId, data: int, ls: seq<(Tid, Action)>)
    requires Reachable(s) && Enabled(s, t, CallNotify(id, data)) && CanRunAll(Apply(s, t, CallNotify(id, data)), ls)
    requires P(RunAll(Apply(s, t, CallNotify(id, data)), ls), t) == Idle
    ensures var called := Apply(s, t, CallNotify(id, data));
            exists j: nat :: j <= |ls| && CanRunAll(called, ls[..j]) && LooksUpAndWrites(RunAll(called, ls[..j]), RunAll(called, ls), t, id, data)
  {
    var called := Apply(s, t, CallNotify(id, data));
    ReachableStep(s, t, CallNotify(id, data));
    var j := LooksUp(called, t, id, data, ls);
    RunSplits(called, ls, j);
    ReachableRuns(called, ls[..j]);
    if id in RunAll(called, ls[..j]).subs.active {
      NotifyWrites(RunAll(called, ls[..j]), t, id, data, ls[j..]);
    }
  }

  ghost predicate LooksUpAndWrites(s: State, s': State, t: Tid, id: SubId, data: int) {
    && P(s, t) == Checking(id, data)
    && (id in s.subs.active ==> WrittenFrom(s'.wire, |s.wire|, Notification(id, s.subs.active[id], data)))
  }

  // ---------------------------------------------------------------------------------------
  // No Notify writes twice

  /** How often the data was written for the subscription. */
  function Written(wire: seq<Message>, id: SubId, data: int): nat {
    if wire == [] then 0
    else
      var m := wire[|wire| - 1];
      Written(wire[..|wire| - 1], id, data) + if m.Notification? && m.sub == id && m.data == data then 1 else 0
  }

  /** How often Notify was called with the data for the subscription. */
  function TimesCalled(ls: seq<(Tid, Action)>, id: SubId, data: int): nat {
    if ls == [] then 0 else (if ls[0].1 == CallNotify(id, data) then 1 else 0) + TimesCalled(ls[1..], id, data)
  }

  predicate Carrying(p: Pc, id: SubId, data: int) {
    (p.Locking? || p.Checking? || p.Sending?) && p.sub == id && p.data == data
  }

  /** The goroutines that may still write the data for the subscription. */
  function Carriers(s: State, id: SubId, data: int): set<Tid> {
    set t | t in s.pc && Carrying(s.pc[t], id, data)
  }

  lemma WrittenSnoc(wire: seq<Message>, m: Message, id: SubId, data: int)
    ensures Written(wire + [m], id, data) == Written(wire, id, data) + if m.Notification? && m.sub == id && m.data == data then 1 else 0
  {
    assert (wire + [m])[..|wire|] == wire;
  }

  lemma CarriersStep(s: State, t: Tid, a: Action, id: SubId, data: int)
    requires Enabled(s, t, a)
    ensures var s' := Apply(s, t, a);
            Carriers(s', id, data) == Carriers(s, id, data) - {t} + if Carrying(P(s', t), id, data) then {t} else {}
  {
    var s' := Apply(s, t, a);
    assert t in s'.pc && forall u :: u != t ==> P(s', u) == P(s, u) && (u in s'.pc <==> u in s.pc);
  }

  lemma WrittenStep(s: State, t: Tid, a: Action, id: SubId, data: int)
    requires Enabled(s, t, a)
    ensures var s' := Apply(s, t, a);
            Written(s'.wire, id, data) <= Written(s.wire, id, data) + if a.SendNotification? && Carrying(P(s, t), id, data) then 1 else 0
    ensures a.SendNotification? ==> !Carrying(P(Apply(s, t, a), t), id, data)
    ensures Carrying(P(Apply(s, t, a), t), id, data) ==> Carrying(P(s, t), id, data) || a == CallNotify(id, data)
  {
    var s' := Apply(s, t, a);
    if a.SendNotification? || a.Respond? {
      WrittenSnoc(s.wire, s'.wire[|s.wire|], id, data);
    } else {
      assert s'.wire == s.wire;
    }
  }

  lemma OneCarrierStep(s: State, t: Tid, a: Action, id: SubId, data: int)
    requires Enabled(s, t, a)
    ensures var s' := Apply(s, t, a);
            Written(s'.wire, id, data) + |Carriers(s', id, data)|
            <= Written(s.wire, id, data) + |Carriers(s, id, data)| + if a == CallNotify(id, data) then 1 else 0
  {
    CarriersStep(s, t, a, id, data);
    WrittenStep(s, t, a, id, data);
    OneMember(Carriers(s, id, data), t, Carrying(P(Apply(s, t, a), t), id, data));
    assert Carrying(P(s, t), id, data) <==> t in Carriers(s, id, data);
  }

  lemma OneMember(c: set<Tid>, t: Tid, stays: bool)
    ensures |c - {t} + if stays then {t} else {}| == |c| - (if t in c then 1 else 0) + if stays then 1 else 0
  {
    if t in c {
      assert c == (c - {t}) + {t};
    } else {
      assert c - {t} == c;
    }
  }

  lemma {:induction false} CarriersRun(s: State, ls: seq<(Tid, Action)>, id: SubId, data: int)
    requires CanRunAll(s, ls)
    ensures var s' := RunAll(s, ls);
            Written(s'.wire, id, data) + |Carriers(s', id, data)|
            <= Written(s.wire, id, data) + |Carriers(s, id, data)| + TimesCalled(ls, id, data)
    decreases |ls|
  {
    if ls != [] {
      OneCarrierStep(s, ls[0].0, ls[0].1, id, data);
      CarriersRun(Apply(s, ls[0].0, ls[0].1), ls[1..], id, data);
    }
  }

  /** In every run data is written for a subscription at most as often as Notify was called with it,
      less the calls that may still write. */
  lemma {:induction false} NotifyWritesOnce(ls: seq<(Tid, Action)>, id: SubId, data: int)
    requires CanRunAll(Init(), ls)
    ensures var s := RunAll(Init(), ls); Written(s.wire, id, data) + |Carriers(s, id, data)| <= TimesCalled(ls, id, data)
  {
    CarriersRun(Init(), ls, id, data);
    assert Carriers(Init(), id, data) == {};
  }

  // ---------------------------------------------------------------------------------------
  // Failed writes

  /** The connection is down exactly when a write has failed. */
  lemma {:induction false} DownAfterFailure(s: State, ls: seq<(Tid, Action)>)
    requires CanRunAll(s, ls)
    ensures RunAll(s, ls).down <==> s.down || (exists x :: x in ls && (x.1 == Respond(false) || x.1 == SendNotification(false)))
    decreases |ls|
  {
    if ls != [] {
      var s' := Apply(s, ls[0].0, ls[0].1);
      DownAfterFailure(s', ls[1..]);
      assert ls == [ls[0]] + ls[1..];
      assert s'.down <==> s.down || ls[0].1 == Respond(false) || ls[0].1 == SendNotification(false);
    }
  }

  // ---------------------------------------------------------------------------------------
  // Every answer follows from what a callback did

  /** The response is what handling the request gives, in some state of the notifier, for an outcome
      that the goroutine met in the run. */
  ghost predicate ComesFrom(r: Response, q: ServerRequest, t: Tid, ls: seq<(Tid, Action)>) {
    exists n: Subs, o: Outcome :: (t, HandleNext(o)) in ls && Handle(n, true, q, o).response == r
  }

  /** The goroutine is handling `reqs`, and its answers so far come from the run. */
  ghost predicate AnswersSoFar(p: Pc, reqs: seq<ServerRequest>, t: Tid, ls: seq<(Tid, Action)>) {
    && p.Handling? && p.reqs == reqs && |p.rs| <= |reqs|
    && forall i :: 0 <= i < |p.rs| ==> ComesFrom(p.rs[i], reqs[i], t, ls)
  }

  lemma {:induction false} AnswersComeFrom(s: State, reqs: seq<ServerRequest>, t: Tid, ls: seq<(Tid, Action)>, done: seq<(Tid, Action)>)
    requires CanRunAll(s, ls) && AnswersSoFar(P(s, t), reqs, t, done)
    requires forall k :: 0 <= k < |ls| ==> !(ls[k].0 == t && ls[k].1.Respond?)
    ensures AnswersSoFar(P(RunAll(s, ls), t), reqs, t, done + ls)
    decreases |ls|
  {
    if ls == [] {
      assert done + ls == done;
    } else {
      assert forall k :: 0 <= k < |ls[1..]| ==> ls[1..][k] == ls[k + 1];
      OneMoreAnswer(s, reqs, t, ls[0], done);
      AnswersComeFrom(Apply(s, ls[0].0, ls[0].1), reqs, t, ls[1..], done + [ls[0]]);
      assert done + [ls[0]] + ls[1..] == done + ls;
    }
  }

  lemma OneMoreAnswer(s: State, reqs: seq<ServerRequest>, t: Tid, x: (Tid, Action), done: seq<(Tid, Action)>)
    requires Enabled(s, x.0, x.1) && !(x.0 == t && x.1.Respond?) && AnswersSoFar(P(s, t), reqs, t, done)
    ensures AnswersSoFar(P(Apply(s, x.0, x.1), t), reqs, t, done + [x])
  {
    var p, p' := P(s, t), P(Apply(s, x.0, x.1), t);
    forall i | 0 <= i < |p.rs|
      ensures ComesFrom(p.rs[i], reqs[i], t, done + [x])
    {
      StillComesFrom(p.rs[i], reqs[i], t, done, x);
    }
    if x.0 == t {
      assert x == (t, HandleNext(x.1.o)) && x in done + [x];
      assert p'.rs == p.rs + [Handle(s.subs, true, reqs[|p.rs|], x.1.o).response];
    } else {
      assert p' == p;
    }
  }

  lemma StillComesFrom(r: Response, q: ServerRequest, t: Tid, done: seq<(Tid, Action)>, x: (Tid, Action))
    requires ComesFrom(r, q, t, done)
    ensures ComesFrom(r, q, t, done + [x])
  {
    var n: Subs, o: Outcome :| (t, HandleNext(o)) in done && Handle(n, true, q, o).response == r;
    assert (t, HandleNext(o)) in done + [x];
  }

  /** The goroutine is about to handle the looked-up request. */
  predicate NextIs(s: State, t: Tid, reg: Registry, r: JsonRequest) {
    && P(s, t).Handling? && |P(s, t).rs| < |P(s, t).reqs| && ParseElement(r).Parsed?
    && |ParseElement(r).reqs| == 1 && P(s, t).reqs[|P(s, t).rs|] == Lookup(reg, ParseElement(r).reqs[0])
  }

  /** An unsubscribe that is handled while its subscription is active ends it and is confirmed; one
      that is handled at any other time changes nothing and is answered by an error. */
  lemma {:induction false} UnsubscribeStep(reg: Registry, r: JsonRequest, e: Elem, id: SubId, s: State, t: Tid, o: Outcome)
    requires ValidId(r.id) && HasSuffix(r.name, UNSUBSCRIBE) && r.params == Array([e]) && DecodeElem(e, StringType) == Some(Text(id))
    requires Reachable(s) && NextIs(s, t, reg, r) && Enabled(s, t, HandleNext(o))
    ensures var s' := Apply(s, t, HandleNext(o));
            && P(s', t).Handling?
            && (id in s.subs.active ==> P(s', t).rs == P(s, t).rs + [Response(r.id, Unsubscribed(id))] && StageOf(s'.subs, id) == Ended)
            && (id !in s.subs.active ==> P(s', t).rs == P(s, t).rs + [Response(r.id, Failure(-32000))] && s'.subs == s.subs)
            && (forall other :: other != id ==> StageOf(s'.subs, other) == StageOf(s.subs, other))
  {
    UnsubscribeCall(reg, s.subs, true, r, o);
    assert Fits(r.params, [StringType]) && r.params.elems[0] == e;
    assert HandleNow(s, t, o) == Result(reg, s.subs, true, r, o);
  }

  /** A subscription that is created is answered by its id, inactive for now, and set to be activated
      in its service's namespace after the answer. */
  lemma {:induction false} SubscribeStep(reg: Registry, r: JsonRequest, a: string, name: string, s: State, t: Tid, id: SubId)
    requires Registered(reg) && SubscribesTo(r, a, name) && a in reg && name in reg[a].subscriptions
    requires Reachable(s) && NextIs(s, t, reg, r) && Enabled(s, t, HandleNext(Subscribes(id)))
    requires reg[a].subscriptions[name].argTypes == [] || Fits(r.params, [StringType] + reg[a].subscriptions[name].argTypes)
    ensures var s' := Apply(s, t, HandleNext(Subscribes(id)));
            && P(s', t).Handling? && P(s', t).rs == P(s, t).rs + [Response(r.id, Created(id))]
            && P(s', t).acts == P(s, t).acts + [Activation(id, a)] && StageOf(s'.subs, id) == Inactive
  {
    InvReachable(s);
    SubscribeCall(reg, s.subs, true, r, a, name, Subscribes(id));
  }

  /** In every run the answer to an ordinary call, alone or in a batch, is the one that follows from
      what its callback did, or the refusal of params that do not fit. */
  lemma {:induction false} OrdinaryCallInRun(reg: Registry, r: JsonRequest, a: string, b: string, reqs: seq<ServerRequest>, batch: bool,
                                             s: State, t: Tid, ls: seq<(Tid, Action)>, i: nat, ok: bool)
    requires Registered(reg) && Ordinary(r, a, b) && a in reg && b in reg[a].callbacks && ParseElement(r).Parsed?
    requires i < |reqs| && |ParseElement(r).reqs| == 1 && reqs[i] == Lookup(reg, ParseElement(r).reqs[0])
    requires Reachable(s) && Enabled(s, t, Serve(reqs, batch)) && CanRunAll(Apply(s, t, Serve(reqs, batch)), ls)
    requires forall k :: 0 <= k < |ls| ==> !(ls[k].0 == t && ls[k].1.Respond?)
    requires Enabled(RunAll(Apply(s, t, Serve(reqs, batch)), ls), t, Respond(ok))
    ensures var s1 := RunAll(Apply(s, t, Serve(reqs, batch)), ls);
            var s2 := Apply(s1, t, Respond(ok));
            && |s2.wire| == |s1.wire| + 1 && (batch <==> s2.wire[|s1.wire|].Batch?) && i < |ResponsesOf(s2.wire[|s1.wire|])|
            && var x, types := ResponsesOf(s2.wire[|s1.wire|])[i], reg[a].callbacks[b].argTypes;
               && x.id == r.id
               && if types != [] && !Fits(r.params, types) then x.body == Failure(-32602)
                  else exists o :: (t, HandleNext(o)) in ls && AnswerFor(x.body, o)
  {
    var s0 := Apply(s, t, Serve(reqs, batch));
    StillHandling(s0, t, ls);
    AnswersComeFrom(s0, reqs, t, ls, []);
    var p := P(RunAll(s0, ls), t);
    assert [] + ls == ls;
    var n: Subs, o: Outcome :| (t, HandleNext(o)) in ls && Handle(n, true, reqs[i], o).response == p.rs[i];
    OrdinaryCall(reg, n, true, r, a, b, o);
    assert ResponsesOf(Apply(RunAll(s0, ls), t, Respond(ok)).wire[|RunAll(s0, ls).wire|]) == p.rs;
  }
}
