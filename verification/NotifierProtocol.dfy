/** One connection served by any number of goroutines: requests and batches are executed in
    parallel while services send notifications and clients unsubscribe. Every access to shared
    state is a step of its own; the notifier's read-write lock and the wire are shared. */
module NotifierProtocol {
  import opened Jsonrpc
  import opened Server
  import opened Wrappers

  type Tid = nat

  /** A goroutine executes `reqs` (a single request unless `batch`): it has handled
      |rs| of them. Then it writes, then it activates. A notifying goroutine holds the read lock
      from Checking to Unlocking. */
  datatype Pc =
    | Idle
    | Handling(reqs: seq<ServerRequest>, batch: bool, rs: seq<Response>, acts: seq<Activation>)
    | Activating(acts: seq<Activation>)
    | Locking(sub: SubId, data: int)
    | Checking(sub: SubId, data: int)
    | Sending(sub: SubId, namespace: string, data: int)
    | Unlocking

  /** `wire` holds every attempted write in order, and `answered`, which is history, the requests
      that each of them answers; `used` holds every subscription id ever created. */
  datatype State = State(pc: map<Tid, Pc>, readers: set<Tid>, subs: Subs, used: set<SubId>,
                         wire: seq<Message>, answered: seq<seq<ServerRequest>>, down: bool)

  datatype Action =
    | Serve(reqs: seq<ServerRequest>, batch: bool)
    | HandleNext(o: Outcome)
    | Respond(ok: bool)
    | ActivateNext
    | EndServe
    | CallNotify(sub: SubId, data: int)
    | ReadLock
    | Check
    | SendNotification(ok: bool)
    | ReadUnlock

  function Init(): State {
    State(map[], {}, Subs(map[], {}, []), {}, [], [], false)
  }

  function P(s: State, t: Tid): Pc {
    if t in s.pc then s.pc[t] else Idle
  }

  function MadeBy(o: Outcome): set<SubId> {
    if o.Subscribes? || o.FailsAfterCreating? then {o.sub} else {}
  }

  function HandleNow(s: State, t: Tid, o: Outcome): Handled
    requires P(s, t).Handling? && |P(s, t).rs| < |P(s, t).reqs|
  {
    Handle(s.subs, true, P(s, t).reqs[|P(s, t).rs|], o)
  }

  /** Changing the notifier needs the write lock, so no goroutine may hold the read lock. New
      subscription ids are fresh. */
  predicate Enabled(s: State, t: Tid, a: Action) {
    match a
    case Serve(reqs, batch) => P(s, t).Idle? && (batch || |reqs| == 1)
    case HandleNext(o) =>
      P(s, t).Handling? && |P(s, t).rs| < |P(s, t).reqs| && MadeBy(o) !! s.used
      && (HandleNow(s, t, o).subs == s.subs || s.readers == {})
    case Respond(_) => P(s, t).Handling? && |P(s, t).rs| == |P(s, t).reqs| && (P(s, t).batch || |P(s, t).rs| == 1)
    case ActivateNext => P(s, t).Activating? && P(s, t).acts != [] && s.readers == {}
    case EndServe => P(s, t).Activating? && P(s, t).acts == []
    case CallNotify(_, _) => P(s, t).Idle?
    case ReadLock => P(s, t).Locking?
    case Check => P(s, t).Checking?
    case SendNotification(_) => P(s, t).Sending?
    case ReadUnlock => P(s, t).Unlocking?
  }

  function Goto(s: State, t: Tid, p: Pc): State {
    s.(pc := s.pc[t := p])
  }

  function Apply(s: State, t: Tid, a: Action): State
    requires Enabled(s, t, a)
  {
    match a
    case Serve(reqs, batch) => Goto(s, t, Handling(reqs, batch, [], []))
    case HandleNext(o) => HandleStep(s, t, o)
    case Respond(ok) =>
      var p := P(s, t);
      Goto(s, t, Activating(p.acts)).(wire := s.wire + [if p.batch then Batch(p.rs) else Single(p.rs[0])],
                                      answered := s.answered + [p.reqs], down := s.down || !ok)
    case ActivateNext =>
      var acts := P(s, t).acts;
      Goto(s, t, Activating(acts[1..])).(subs := Activate(s.subs, acts[0].sub, acts[0].namespace))
    case EndServe => Goto(s, t, Idle)
    case CallNotify(sub, data) => Goto(s, t, Locking(sub, data))
    case ReadLock => Goto(s, t, Checking(P(s, t).sub, P(s, t).data)).(readers := s.readers + {t})
    case Check =>
      var p := P(s, t);
      Goto(s, t, if p.sub in s.subs.active then Sending(p.sub, s.subs.active[p.sub], p.data) else Unlocking)
    case SendNotification(ok) =>
      var p := P(s, t);
      Goto(s, t, Unlocking).(wire := s.wire + [Notification(p.sub, p.namespace, p.data)],
                             answered := s.answered + [[]], down := s.down || !ok)
    case ReadUnlock => Goto(s, t, Idle).(readers := s.readers - {t})
  }

  function HandleStep(s: State, t: Tid, o: Outcome): State
    requires P(s, t).Handling? && |P(s, t).rs| < |P(s, t).reqs|
  {
    var p, h := P(s, t), HandleNow(s, t, o);
    Goto(s, t, Handling(p.reqs, p.batch, p.rs + [h.response],
                        if h.activation.Some? then p.acts + [h.activation.value] else p.acts))
    .(subs := h.subs, used := s.used + MadeBy(o))
  }

  predicate CanRunAll(s: State, ls: seq<(Tid, Action)>)
    decreases |ls|
  {
    ls == [] || (Enabled(s, ls[0].0, ls[0].1) && CanRunAll(Apply(s, ls[0].0, ls[0].1), ls[1..]))
  }

  function RunAll(s: State, ls: seq<(Tid, Action)>): State
    requires CanRunAll(s, ls)
    decreases |ls|
  {
    if ls == [] then s else RunAll(Apply(s, ls[0].0, ls[0].1), ls[1..])
  }

  ghost predicate Reachable(s: State) {
    exists ls :: CanRunAll(Init(), ls) && RunAll(Init(), ls) == s
  }

  // ---------------------------------------------------------------------------------------
  // The wire

  function ResponsesOf(m: Message): seq<Response> {
    match m
    case Single(r) => [r]
    case Batch(rs) => rs
    case Notification(_, _, _) => []
  }

  /** The response that tells the client its subscription id, or that it is unsubscribed. */
  predicate Announces(m: Message, id: SubId) {
    exists i :: 0 <= i < |ResponsesOf(m)| && ResponsesOf(m)[i].body == Created(id)
  }

  predicate Confirms(m: Message, id: SubId) {
    exists i :: 0 <= i < |ResponsesOf(m)| && ResponsesOf(m)[i].body == Unsubscribed(id)
  }

  ghost predicate AnnouncedBefore(wire: seq<Message>, k: nat, id: SubId)
    requires k <= |wire|
  {
    exists j :: 0 <= j < k && Announces(wire[j], id)
  }

  /** Notifications come after the announcement of their id and before its confirmation. */
  ghost predicate Ordered(wire: seq<Message>) {
    && (forall k :: 0 <= k < |wire| && wire[k].Notification? ==> AnnouncedBefore(wire, k, wire[k].sub))
    && (forall j, k :: 0 <= j <= k < |wire| && wire[k].Notification? ==> !Confirms(wire[j], wire[k].sub))
  }

  // ---------------------------------------------------------------------------------------
  // The invariant

  predicate Reads(p: Pc) {
    p.Checking? || p.Sending? || p.Unlocking?
  }

  function Closings(n: Subs, id: SubId): nat {
    multiset(n.closed)[id]
  }

  /** Every id is in at most one of the three stages, and ended exactly once if at all. */
  ghost predicate StagesInv(s: State) {
    && (forall id :: id in s.subs.active ==> id !in s.subs.inactive && id !in s.subs.closed)
    && (forall id :: id in s.subs.inactive ==> id !in s.subs.closed)
    && (forall id :: id in s.subs.active || id in s.subs.inactive || id in s.subs.closed ==> id in s.used)
    && (forall i, j :: 0 <= i < j < |s.subs.closed| ==> s.subs.closed[i] != s.subs.closed[j])
  }

  ghost predicate LockInv(s: State) {
    && (forall t: Tid :: Reads(P(s, t)) <==> t in s.readers)
    && (forall t: Tid :: P(s, t).Sending? ==> P(s, t).sub in s.subs.active)
  }

  /** Whatever a goroutine has prepared: its responses answer its requests in order, it will
      activate exactly what it announces, and it confirms only what has ended. */
  ghost predicate PcFits(s: State, p: Pc) {
    match p
    case Handling(reqs, batch, rs, acts) =>
      && |rs| <= |reqs| && (batch || |reqs| == 1)
      && (forall i :: 0 <= i < |rs| ==> rs[i].id == reqs[i].id)
      && Announced(rs, acts) && Complete(rs, reqs[..|rs|], acts)
      && (forall i :: 0 <= i < |rs| && rs[i].body.Unsubscribed? ==> rs[i].body.sub in s.subs.closed)
    case Activating(acts) => forall a :: a in acts ==> AnnouncedBefore(s.wire, |s.wire|, a.sub)
    case _ => true
  }

  ghost predicate WireInv(s: State) {
    && Ordered(s.wire)
    && (forall t: Tid :: PcFits(s, P(s, t)))
    && (forall id :: id in s.subs.active ==> AnnouncedBefore(s.wire, |s.wire|, id))
    && (forall k, id :: 0 <= k < |s.wire| && Confirms(s.wire[k], id) ==> id in s.subs.closed)
  }

  function ActsOf(p: Pc): seq<Activation> {
    if p.Handling? || p.Activating? then p.acts else []
  }

  /** The goroutine is going to activate `id`, having announced it. */
  ghost predicate PendingFor(p: Pc, id: SubId) {
    p.Activating? && exists a :: a in p.acts && a.sub == id
  }

  /** The subscription was activated, or some goroutine is about to do that. */
  ghost predicate Followed(s: State, id: SubId) {
    StageOf(s.subs, id) == Active || StageOf(s.subs, id) == Ended || exists t: Tid :: PendingFor(P(s, t), id)
  }

  /** No announcement is forgotten, and what will be activated exists. */
  ghost predicate FollowInv(s: State) {
    && (forall t: Tid, a :: a in ActsOf(P(s, t)) ==> StageOf(s.subs, a.sub) != Unused)
    && (forall id :: AnnouncedBefore(s.wire, |s.wire|, id) ==> Followed(s, id))
  }

  ghost predicate Inv(s: State) {
    StagesInv(s) && LockInv(s) && WireInv(s) && FollowInv(s)
  }

  lemma HandleEffect(n: Subs, q: ServerRequest, o: Outcome)
    ensures var h := Handle(n, true, q, o);
            && h.response.id == q.id
            && (h.activation.Some? ==> h.response.body == Created(h.activation.value.sub))
            && (h.response.body.Unsubscribed? ==> h.response.body.sub in n.active && h.subs == Unsubscribe(n, h.response.body.sub))
            && (!h.response.body.Unsubscribed? ==> h.subs == n || (MadeBy(o) == {o.sub} && h.subs == Create(n, o.sub)))
  {
  }

  lemma StagesStep(s: State, t: Tid, a: Action)
    requires StagesInv(s) && Enabled(s, t, a)
    ensures StagesInv(Apply(s, t, a))
  {
    if a.HandleNext? {
      HandleEffect(s.subs, P(s, t).reqs[|P(s, t).rs|], a.o);
    }
  }

  lemma LockStep(s: State, t: Tid, a: Action)
    requires LockInv(s) && Enabled(s, t, a)
    ensures LockInv(Apply(s, t, a))
  {
    var s' := Apply(s, t, a);
    assert forall u: Tid :: u != t ==> P(s', u) == P(s, u);
    assert Reads(P(s, t)) <==> t in s.readers;
    forall u: Tid
      ensures Reads(P(s', u)) <==> u in s'.readers
      ensures P(s', u).Sending? ==> P(s', u).sub in s'.subs.active
    {
      assert (Reads(P(s, u)) <==> u in s.readers) && (P(s, u).Sending? ==> P(s, u).sub in s.subs.active);
    }
  }

  lemma AnnouncedStays(wire: seq<Message>, m: Message, k: nat, id: SubId)
    requires k <= |wire| && AnnouncedBefore(wire, k, id)
    ensures AnnouncedBefore(wire + [m], k, id) && AnnouncedBefore(wire + [m], |wire| + 1, id)
  {
    var j :| 0 <= j < k && Announces(wire[j], id);
    assert Announces((wire + [m])[j], id);
  }

  /** Appending a message keeps the order when a notification is appended only for an announced
      id that was not confirmed. */
  lemma OrderedGrows(wire: seq<Message>, m: Message)
    requires Ordered(wire)
    requires m.Notification? ==> AnnouncedBefore(wire, |wire|, m.sub) && forall j :: 0 <= j < |wire| ==> !Confirms(wire[j], m.sub)
    ensures Ordered(wire + [m])
  {
    var wire' := wire + [m];
    forall k | 0 <= k < |wire'| && wire'[k].Notification?
      ensures AnnouncedBefore(wire', k, wire'[k].sub)
    {
      AnnouncedStays(wire, m, k, wire'[k].sub);
    }
  }

  /** How a step changes the wire and the ended and active subscriptions. */
  lemma WireGrows(s: State, t: Tid, a: Action)
    requires StagesInv(s) && LockInv(s) && WireInv(s) && Enabled(s, t, a)
    ensures var s' := Apply(s, t, a);
            && (forall id :: id in s.subs.closed ==> id in s'.subs.closed)
            && (forall id :: id in s'.subs.active ==> id in s.subs.active || (a.ActivateNext? && id == P(s, t).acts[0].sub))
            && s'.wire == match a
                          case Respond(_) => s.wire + [if P(s, t).batch then Batch(P(s, t).rs) else Single(P(s, t).rs[0])]
                          case SendNotification(_) => s.wire + [Notification(P(s, t).sub, P(s, t).namespace, P(s, t).data)]
                          case _ => s.wire
  {
    if a.HandleNext? {
      HandleEffect(s.subs, P(s, t).reqs[|P(s, t).rs|], a.o);
    }
  }

  lemma OrderStep(s: State, t: Tid, a: Action)
    requires Inv(s) && Enabled(s, t, a)
    ensures var s' := Apply(s, t, a);
            && Ordered(s'.wire)
            && (forall k, id :: 0 <= k < |s'.wire| && Confirms(s'.wire[k], id) ==> id in s'.subs.closed)
  {
    var s' := Apply(s, t, a);
    WireGrows(s, t, a);
    assert PcFits(s, P(s, t));
    if s'.wire != s.wire {
      var m := s'.wire[|s.wire|];
      if a.SendNotification? {
        assert P(s, t).sub in s.subs.active;
      }
      OrderedGrows(s.wire, m);
      forall id | Confirms(m, id)
        ensures id in s'.subs.closed
      {
        var i :| 0 <= i < |ResponsesOf(m)| && ResponsesOf(m)[i].body == Unsubscribed(id);
        assert ResponsesOf(m)[i] == P(s, t).rs[i];
      }
    }
  }

  lemma PcFitsStep(s: State, t: Tid, a: Action, u: Tid)
    requires Inv(s) && Enabled(s, t, a)
    ensures PcFits(Apply(s, t, a), P(Apply(s, t, a), u))
  {
    var s' := Apply(s, t, a);
    WireGrows(s, t, a);
    assert PcFits(s, P(s, t)) && PcFits(s, P(s, u));
    if u == t {
      ActorFits(s, t, a);
    } else {
      assert P(s', u) == P(s, u);
      if P(s, u).Activating? {
        forall b | b in P(s, u).acts
          ensures AnnouncedBefore(s'.wire, |s'.wire|, b.sub)
        {
          if s'.wire != s.wire {
            AnnouncedStays(s.wire, s'.wire[|s.wire|], |s.wire|, b.sub);
          }
        }
      }
    }
  }

  lemma ActorFits(s: State, t: Tid, a: Action)
    requires Inv(s) && Enabled(s, t, a) && PcFits(s, P(s, t))
    ensures PcFits(Apply(s, t, a), P(Apply(s, t, a), t))
  {
    match a
    case HandleNext(o) => HandlerFits(s, t, o);
    case Respond(ok) =>
      var p, s' := P(s, t), Apply(s, t, a);
      var m := s'.wire[|s.wire|];
      assert ResponsesOf(m) == p.rs;
      forall b | b in p.acts
        ensures AnnouncedBefore(s'.wire, |s'.wire|, b.sub)
      {
        assert AnnouncedIn(p.rs, b.sub);
        assert Announces(s'.wire[|s.wire|], b.sub);
      }
    case ActivateNext => assert forall b :: b in P(s, t).acts[1..] ==> b in P(s, t).acts;
    case _ =>
  }

  lemma HandlerFits(s: State, t: Tid, o: Outcome)
    requires StagesInv(s) && Enabled(s, t, HandleNext(o)) && PcFits(s, P(s, t))
    ensures PcFits(HandleStep(s, t, o), P(HandleStep(s, t, o), t))
  {
    var p, s' := P(s, t), HandleStep(s, t, o);
    var h := HandleNow(s, t, o);
    var q := p.reqs[|p.rs|];
    HandleEffect(s.subs, q, o);
    HandleResponds(s.subs, true, q, o);
    assert p.reqs[..|p.rs| + 1] == p.reqs[..|p.rs|] + [q];
    OneMoreAnnounced(p.rs, p.reqs[..|p.rs|], p.acts, h.response, q, h.activation);
  }

  /** Handling one more request keeps the activations those of the announced subscriptions. */
  lemma OneMoreAnnounced(rs: seq<Response>, qs: seq<ServerRequest>, acts: seq<Activation>,
                         r: Response, q: ServerRequest, activation: Option<Activation>)
    requires |rs| == |qs| && Announced(rs, acts) && Complete(rs, qs, acts)
    requires activation == if r.body.Created? then Some(Activation(r.body.sub, q.service)) else None
    ensures var acts' := if activation.Some? then acts + [activation.value] else acts;
            Announced(rs + [r], acts') && Complete(rs + [r], qs + [q], acts')
  {
    var acts' := if activation.Some? then acts + [activation.value] else acts;
    forall b | b in acts'
      ensures AnnouncedIn(rs + [r], b.sub)
    {
      if b in acts {
        var i :| 0 <= i < |rs| && rs[i].body == Created(b.sub);
        assert (rs + [r])[i].body == Created(b.sub);
      } else {
        assert (rs + [r])[|rs|].body == Created(b.sub);
      }
    }
  }

  /** Stages only move on. */
  lemma StageMoves(s: State, t: Tid, a: Action, id: SubId)
    requires StagesInv(s) && Enabled(s, t, a)
    ensures var before, after := StageOf(s.subs, id), StageOf(Apply(s, t, a).subs, id);
            match after
            case Unused => before == Unused
            case Inactive => before == Inactive || (before == Unused && a.HandleNext? && MadeBy(a.o) == {id})
            case Active => before == Active || (before == Inactive && a.ActivateNext? && P(s, t).acts[0].sub == id)
            case Ended => before == Ended || (before == Active && a.HandleNext?)
    ensures a.ActivateNext? && P(s, t).acts[0].sub == id && StageOf(s.subs, id) == Inactive ==>
              StageOf(Apply(s, t, a).subs, id) == Active
  {
    if a.HandleNext? {
      StageMovesInHandler(s, t, a.o, id);
    } else if !a.ActivateNext? {
      assert Apply(s, t, a).subs == s.subs;
    }
  }

  lemma StageMovesInHandler(s: State, t: Tid, o: Outcome, id: SubId)
    requires StagesInv(s) && Enabled(s, t, HandleNext(o))
    ensures var before, after := StageOf(s.subs, id), StageOf(HandleStep(s, t, o).subs, id);
            match after
            case Unused => before == Unused
            case Inactive => before == Inactive || (before == Unused && MadeBy(o) == {id})
            case Active => before == Active
            case Ended => before == Ended || before == Active
  {
    HandleEffect(s.subs, P(s, t).reqs[|P(s, t).rs|], o);
  }

  lemma ActsStep(s: State, t: Tid, a: Action, u: Tid, b: Activation)
    requires StagesInv(s) && FollowInv(s) && Enabled(s, t, a) && b in ActsOf(P(Apply(s, t, a), u))
    ensures StageOf(Apply(s, t, a).subs, b.sub) != Unused
  {
    StageMoves(s, t, a, b.sub);
    if b !in ActsOf(P(s, u)) {
      assert u == t && a.HandleNext?;
      CreatedExists(s.subs, P(s, t).reqs[|P(s, t).rs|], a.o);
    }
  }

  lemma CreatedExists(n: Subs, q: ServerRequest, o: Outcome)
    ensures var h := Handle(n, true, q, o); h.activation.Some? ==> StageOf(h.subs, h.activation.value.sub) != Unused
  {
  }

  lemma FollowedStep(s: State, t: Tid, a: Action, id: SubId)
    requires StagesInv(s) && WireInv(s) && FollowInv(s) && Enabled(s, t, a)
    requires AnnouncedBefore(Apply(s, t, a).wire, |Apply(s, t, a).wire|, id)
    ensures Followed(Apply(s, t, a), id)
  {
    var s' := Apply(s, t, a);
    if AnnouncedBefore(s.wire, |s.wire|, id) {
      StageMoves(s, t, a, id);
      if StageOf(s.subs, id) != Active && StageOf(s.subs, id) != Ended {
        var u: Tid :| PendingFor(P(s, u), id);
        PendingStep(s, t, a, u, id);
      }
    } else {
      NewlyAnnounced(s, t, a, id);
    }
  }

  lemma PendingStep(s: State, t: Tid, a: Action, u: Tid, id: SubId)
    requires StagesInv(s) && FollowInv(s) && Enabled(s, t, a) && PendingFor(P(s, u), id)
    ensures Followed(Apply(s, t, a), id)
  {
    var s' := Apply(s, t, a);
    var b :| b in P(s, u).acts && b.sub == id;
    if u != t {
      assert PendingFor(P(s', u), id);
    } else if b == P(s, t).acts[0] {
      assert b in ActsOf(P(s, t));
      StageMoves(s, t, a, id);
    } else {
      assert b in P(s', t).acts;
      assert PendingFor(P(s', t), id);
    }
  }

  lemma AnnouncedByLast(wire: seq<Message>, m: Message, id: SubId)
    requires !AnnouncedBefore(wire, |wire|, id) && AnnouncedBefore(wire + [m], |wire| + 1, id)
    ensures Announces(m, id)
  {
    assert forall i :: 0 <= i < |wire| ==> (wire + [m])[i] == wire[i];
    var j :| 0 <= j < |wire| + 1 && Announces((wire + [m])[j], id);
    assert j == |wire|;
  }

  lemma NewlyAnnounced(s: State, t: Tid, a: Action, id: SubId)
    requires WireInv(s) && Enabled(s, t, a) && !AnnouncedBefore(s.wire, |s.wire|, id)
    requires AnnouncedBefore(Apply(s, t, a).wire, |Apply(s, t, a).wire|, id)
    ensures Followed(Apply(s, t, a), id)
  {
    var s', p := Apply(s, t, a), P(s, t);
    var m := s'.wire[|s.wire|];
    AnnouncedByLast(s.wire, m, id);
    assert a.Respond? && ResponsesOf(m) == p.rs;
    assert PcFits(s, p) && p.reqs[..|p.rs|] == p.reqs;
    var i :| 0 <= i < |p.rs| && p.rs[i].body == Created(id);
    assert Activation(id, p.reqs[i].service) in p.acts;
    assert PendingFor(P(s', t), id);
  }

  lemma InvStep(s: State, t: Tid, a: Action)
    requires Inv(s) && Enabled(s, t, a)
    ensures Inv(Apply(s, t, a))
  {
    var s' := Apply(s, t, a);
    StagesStep(s, t, a);
    LockStep(s, t, a);
    OrderStep(s, t, a);
    WireGrows(s, t, a);
    assert PcFits(s, P(s, t));
    forall u: Tid
      ensures PcFits(s', P(s', u))
    {
      PcFitsStep(s, t, a, u);
    }
    forall u: Tid, b | b in ActsOf(P(s', u))
      ensures StageOf(s'.subs, b.sub) != Unused
    {
      ActsStep(s, t, a, u, b);
    }
    forall id | AnnouncedBefore(s'.wire, |s'.wire|, id)
      ensures Followed(s', id)
    {
      FollowedStep(s, t, a, id);
    }
    forall id | id in s'.subs.active
      ensures AnnouncedBefore(s'.wire, |s'.wire|, id)
    {
      assert AnnouncedBefore(s.wire, |s.wire|, id);
      if s'.wire != s.wire {
        AnnouncedStays(s.wire, s'.wire[|s.wire|], |s.wire|, id);
      }
    }
  }

  lemma {:induction false} InvRun(s: State, ls: seq<(Tid, Action)>)
    requires Inv(s) && CanRunAll(s, ls)
    ensures Inv(RunAll(s, ls))
    decreases |ls|
  {
    if ls != [] {
      InvStep(s, ls[0].0, ls[0].1);
      InvRun(Apply(s, ls[0].0, ls[0].1), ls[1..]);
    }
  }

  lemma InvReachable(s: State)
    requires Reachable(s)
    ensures Inv(s)
  {
    var ls :| CanRunAll(Init(), ls) && RunAll(Init(), ls) == s;
    InvRun(Init(), ls);
  }

  // ---------------------------------------------------------------------------------------
  // What clients rely on

  /** In every run, each notification write comes after the write of the response that carries
      its subscription's id, and before the write that confirms its unsubscribe. */
  lemma NotificationsInOrder(s: State, k: nat)
    requires Reachable(s) && k < |s.wire| && s.wire[k].Notification?
    ensures exists j :: 0 <= j < k && Announces(s.wire[j], s.wire[k].sub)
    ensures forall j :: 0 <= j < |s.wire| && Confirms(s.wire[j], s.wire[k].sub) ==> k < j
  {
    InvReachable(s);
    assert AnnouncedBefore(s.wire, k, s.wire[k].sub);
  }

  /** An id only moves from unused to inactive to active to ended, one stage at a time; it ends
      by a successful unsubscribe, which closes its error channel, and never again. */
  lemma StagesOneWay(s: State, t: Tid, a: Action, id: SubId)
    requires Reachable(s) && Enabled(s, t, a)
    ensures var s' := Apply(s, t, a);
            match StageOf(s'.subs, id)
            case Unused => StageOf(s.subs, id) == Unused
            case Inactive => StageOf(s.subs, id) == Inactive || (StageOf(s.subs, id) == Unused && a.HandleNext? && MadeBy(a.o) == {id})
            case Active => StageOf(s.subs, id) == Active || (StageOf(s.subs, id) == Inactive && a.ActivateNext?)
            case Ended => StageOf(s.subs, id) == Ended || (StageOf(s.subs, id) == Active && a.HandleNext?)
    ensures Closings(Apply(s, t, a).subs, id) <= 1
  {
    InvReachable(s);
    StagesStep(s, t, a);
    ClosedOnce(Apply(s, t, a).subs.closed, id);
    StageMoves(s, t, a, id);
  }

  lemma {:induction false} ClosedOnce(ids: seq<SubId>, id: SubId)
    requires forall i, j :: 0 <= i < j < |ids| ==> ids[i] != ids[j]
    ensures multiset(ids)[id] <= 1
    decreases |ids|
  {
    if ids != [] {
      ClosedOnce(ids[1..], id);
      assert ids == [ids[0]] + ids[1..];
    }
  }

  /** When a goroutine writes its answer, it answers every request it took, in order, in one
      message, and what it is about to activate is exactly what that message announces. */
  lemma OneAnswerForAll(s: State, t: Tid, ok: bool)
    requires Reachable(s) && Enabled(s, t, Respond(ok))
    ensures var s', qs := Apply(s, t, Respond(ok)), P(s, t).reqs;
            && |s'.wire| == |s.wire| + 1
            && var m := s'.wire[|s.wire|];
               && s'.wire == s.wire + [m] && (P(s, t).batch ==> m.Batch?)
               && |ResponsesOf(m)| == |qs|
               && (forall i :: 0 <= i < |qs| ==> ResponsesOf(m)[i].id == qs[i].id)
               && Announced(ResponsesOf(m), P(s', t).acts) && Complete(ResponsesOf(m), qs, P(s', t).acts)
  {
    InvReachable(s);
    assert PcFits(s, P(s, t));
    assert P(s, t).reqs[..|P(s, t).rs|] == P(s, t).reqs;
    assert ResponsesOf(Apply(s, t, Respond(ok)).wire[|s.wire|]) == P(s, t).rs;
  }

  /** Until it writes its answer, a goroutine goes on handling the requests it took. */
  lemma {:induction false} StillHandling(s: State, t: Tid, ls: seq<(Tid, Action)>)
    requires P(s, t).Handling? && CanRunAll(s, ls)
    requires forall k :: 0 <= k < |ls| ==> !(ls[k].0 == t && ls[k].1.Respond?)
    ensures var p := P(RunAll(s, ls), t); p.Handling? && p.reqs == P(s, t).reqs && p.batch == P(s, t).batch
    decreases |ls|
  {
    if ls != [] {
      assert forall k :: 0 <= k < |ls[1..]| ==> ls[1..][k] == ls[k + 1];
      var s' := Apply(s, ls[0].0, ls[0].1);
      assert ls[0].0 == t ==> ls[0].1.HandleNext?;
      assert P(s', t).Handling? && P(s', t).reqs == P(s, t).reqs && P(s', t).batch == P(s, t).batch;
      StillHandling(s', t, ls[1..]);
    }
  }

  /** From the parsed batch to the wire, whatever other goroutines do meanwhile: an accepted batch
      of n requests is answered by one message of n responses, the i-th with the i-th request's id,
      and its goroutine then activates exactly the subscriptions this message announces. */
  lemma {:induction false} AcceptedBatchIsAnswered(reg: Registry, rs: seq<JsonRequest>, s: State, t: Tid, ls: seq<(Tid, Action)>, ok: bool)
    requires ParseBatch(rs).Parsed? && Reachable(s) && Enabled(s, t, Serve(Requests(reg, ParseBatch(rs).reqs), true))
    requires CanRunAll(Apply(s, t, Serve(Requests(reg, ParseBatch(rs).reqs), true)), ls)
    requires forall k :: 0 <= k < |ls| ==> !(ls[k].0 == t && ls[k].1.Respond?)
    requires Enabled(RunAll(Apply(s, t, Serve(Requests(reg, ParseBatch(rs).reqs), true)), ls), t, Respond(ok))
    ensures var s1 := RunAll(Apply(s, t, Serve(Requests(reg, ParseBatch(rs).reqs), true)), ls);
            var s2 := Apply(s1, t, Respond(ok));
            exists m: seq<Response> ::
              && s2.wire == s1.wire + [Batch(m)] && |m| == |rs|
              && (forall i :: 0 <= i < |rs| ==> m[i].id == rs[i].id)
              && |Requests(reg, ParseBatch(rs).reqs)| == |rs|
              && Announced(m, P(s2, t).acts) && Complete(m, Requests(reg, ParseBatch(rs).reqs), P(s2, t).acts)
  {
    var serve := Serve(Requests(reg, ParseBatch(rs).reqs), true);
    var s0 := Apply(s, t, serve);
    ReachableStep(s, t, serve);
    StillHandling(s0, t, ls);
    ReachableRuns(s0, ls);
    OneAnswerForAll(RunAll(s0, ls), t, ok);
    RequestsKeepIds(reg, rs);
    var m := Apply(RunAll(s0, ls), t, Respond(ok)).wire[|RunAll(s0, ls).wire|];
    assert m == Batch(ResponsesOf(m));
  }

  lemma ReachableRuns(s: State, ls: seq<(Tid, Action)>)
    requires Reachable(s) && CanRunAll(s, ls)
    ensures Reachable(RunAll(s, ls))
  {
    var before :| CanRunAll(Init(), before) && RunAll(Init(), before) == s;
    RunsCompose(Init(), before, ls);
  }

  lemma ReachableStep(s: State, t: Tid, a: Action)
    requires Reachable(s) && Enabled(s, t, a)
    ensures Reachable(Apply(s, t, a))
  {
    assert [(t, a)] == [(t, a)] + [];
    RunPrepends(s, (t, a), []);
    ReachableRuns(s, [(t, a)]);
  }

  /** In every run the answer to an accepted batch is an empty array exactly for the empty one. */
  lemma {:induction false} EmptyBatchOnWire(reg: Registry, rs: seq<JsonRequest>, s: State, t: Tid, ls: seq<(Tid, Action)>, ok: bool)
    requires ParseBatch(rs).Parsed? && Reachable(s) && Enabled(s, t, Serve(Requests(reg, ParseBatch(rs).reqs), true))
    requires CanRunAll(Apply(s, t, Serve(Requests(reg, ParseBatch(rs).reqs), true)), ls)
    requires forall k :: 0 <= k < |ls| ==> !(ls[k].0 == t && ls[k].1.Respond?)
    requires Enabled(RunAll(Apply(s, t, Serve(Requests(reg, ParseBatch(rs).reqs), true)), ls), t, Respond(ok))
    ensures var s1 := RunAll(Apply(s, t, Serve(Requests(reg, ParseBatch(rs).reqs), true)), ls);
            Apply(s1, t, Respond(ok)).wire == s1.wire + [Batch([])] <==> rs == []
  {
    AcceptedBatchIsAnswered(reg, rs, s, t, ls, ok);
    var s1 := RunAll(Apply(s, t, Serve(Requests(reg, ParseBatch(rs).reqs), true)), ls);
    var m :| Apply(s1, t, Respond(ok)).wire == s1.wire + [Batch(m)] && |m| == |rs|;
    assert (s1.wire + [Batch(m)])[|s1.wire|] == Batch(m) && (s1.wire + [Batch([])])[|s1.wire|] == Batch([]);
  }

  /** Every subscription whose id is on the wire was activated, or a goroutine is about to do
      that. So when all goroutines are done, every announced subscription was activated. */
  lemma AnnouncedIsActivated(s: State, j: nat, id: SubId)
    requires Reachable(s) && j < |s.wire| && Announces(s.wire[j], id)
    ensures Followed(s, id)
    ensures (forall t: Tid :: P(s, t) == Idle) ==> StageOf(s.subs, id) == Active || StageOf(s.subs, id) == Ended
  {
    InvReachable(s);
    assert AnnouncedBefore(s.wire, |s.wire|, id);
  }

  // ---------------------------------------------------------------------------------------
  // The write lock

  /** What a goroutine that holds the read lock does. */
  predicate ReaderStep(a: Action) {
    a.Check? || a.SendNotification? || a.ReadUnlock?
  }

  /** A run of readers, none of them `t`, that leaves the subscriptions and all others alone. */
  ghost predicate OnlyReaders(s: State, s': State, ls: seq<(Tid, Action)>) {
    && (forall k :: 0 <= k < |ls| ==> ls[k].0 in s.readers && ReaderStep(ls[k].1))
    && s'.subs == s.subs && s'.used == s.used && s'.readers <= s.readers
    && (forall t: Tid :: t !in s.readers ==> P(s', t) == P(s, t))
  }

  /** A goroutine that is about to change the notifier can always do so: goroutines that hold the
      read lock can leave by their own steps, during which the waiting one stays where it is, and
      then its step is enabled. This covers an unsubscribe, the creation of a subscription and an
      activation. */
  lemma WriterCanProceed(s: State, t: Tid)
    requires Reachable(s)
    requires (P(s, t).Handling? && |P(s, t).rs| < |P(s, t).reqs|) || (P(s, t).Activating? && P(s, t).acts != [])
    ensures exists ls: seq<(Tid, Action)> ::
              && CanRunAll(s, ls)
              && (forall k :: 0 <= k < |ls| ==> ls[k].0 != t && ReaderStep(ls[k].1))
              && P(RunAll(s, ls), t) == P(s, t)
              && (P(s, t).Activating? ==> Enabled(RunAll(s, ls), t, ActivateNext))
              && (P(s, t).Handling? ==> forall o :: MadeBy(o) !! s.used ==> Enabled(RunAll(s, ls), t, HandleNext(o)))
  {
    InvReachable(s);
    assert Reads(P(s, t)) <==> t in s.readers;
    var ls := ReadersCanLeave(s);
    WriterEnabled(RunAll(s, ls), t);
    assert CanRunAll(s, ls);
  }

  lemma WriterEnabled(s: State, t: Tid)
    requires s.readers == {}
    ensures P(s, t).Activating? && P(s, t).acts != [] ==> Enabled(s, t, ActivateNext)
    ensures P(s, t).Handling? && |P(s, t).rs| < |P(s, t).reqs| ==> forall o :: MadeBy(o) !! s.used ==> Enabled(s, t, HandleNext(o))
  {
  }

  lemma {:induction false} ReadersCanLeave(s: State) returns (ls: seq<(Tid, Action)>)
    requires LockInv(s)
    ensures CanRunAll(s, ls) && RunAll(s, ls).readers == {} && OnlyReaders(s, RunAll(s, ls), ls)
    decreases |s.readers|
  {
    if s.readers == {} {
      ls := [];
    } else {
      var t :| t in s.readers;
      var first := ReaderLeaves(s, t);
      var rest := ReadersCanLeave(RunAll(s, first));
      RunsCompose(s, first, rest);
      ls := first + rest;
    }
  }

  lemma RunPrepends(s: State, x: (Tid, Action), rest: seq<(Tid, Action)>)
    requires Enabled(s, x.0, x.1) && CanRunAll(Apply(s, x.0, x.1), rest)
    ensures CanRunAll(s, [x] + rest) && RunAll(s, [x] + rest) == RunAll(Apply(s, x.0, x.1), rest)
  {
    assert ([x] + rest)[1..] == rest;
  }

  lemma {:induction false} RunsCompose(s: State, ls: seq<(Tid, Action)>, ms: seq<(Tid, Action)>)
    requires CanRunAll(s, ls) && CanRunAll(RunAll(s, ls), ms)
    ensures CanRunAll(s, ls + ms) && RunAll(s, ls + ms) == RunAll(RunAll(s, ls), ms)
    decreases |ls|
  {
    if ls == [] {
      assert ls + ms == ms;
    } else {
      var x, rest := ls[0], ls[1..];
      RunsCompose(Apply(s, x.0, x.1), rest, ms);
      RunPrepends(s, x, rest + ms);
      assert ls + ms == [x] + (rest + ms);
    }
  }

  lemma {:induction false} ReaderLeaves(s: State, t: Tid) returns (ls: seq<(Tid, Action)>)
    requires LockInv(s) && t in s.readers
    ensures CanRunAll(s, ls) && LockInv(RunAll(s, ls))
    ensures RunAll(s, ls).readers == s.readers - {t} && OnlyReaders(s, RunAll(s, ls), ls)
    decreases if P(s, t).Checking? then 2 else if P(s, t).Sending? then 1 else 0
  {
    assert Reads(P(s, t));
    var a := if P(s, t).Checking? then Check else if P(s, t).Sending? then SendNotification(true) else ReadUnlock;
    LockStep(s, t, a);
    var s' := Apply(s, t, a);
    var rest := [];
    if a != ReadUnlock {
      rest := ReaderLeaves(s', t);
    }
    RunPrepends(s, (t, a), rest);
    ls := [(t, a)] + rest;
  }
}
