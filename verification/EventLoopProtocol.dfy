/** The generated event loop (template/subscribe.go.tpl): one loop goroutine installs and
    uninstalls subscriptions and broadcasts events to their results channels, while any number of
    clients subscribe, receive and unsubscribe. Several subscriptions may share a channel. A client
    in Unsubscribe drains its subscription's channel until the loop takes its request. */
module EventLoopProtocol {

  type SubId = nat
  type ChanId = nat
  type Event = int

  const RESULT_CHAN_SIZE := 10

  /** What travels on a results channel. The subscription it was sent for is history: the program
      sends the event alone. */
  datatype Item = Item(sub: SubId, ev: Event)

  /** A channel of capacity `cap` holds `buf`. History: everything sent on it and received from it. */
  datatype Chan = Chan(cap: nat, buf: seq<Item>, sent: seq<Item>, received: seq<Item>)

  /** Waiting for `installed`; installed; in the loop of Unsubscribe; uninstalled; returned. */
  datatype Phase = Wanting | Installed | Unsubscribing | Closed | Returned

  /** History: the numbers of events taken by the loop at install and uninstall. */
  datatype Sub = Sub(phase: Phase, ch: ChanId, from: nat, until: nat)

  /** The loop waits in its select, is between two sends of a broadcast, is blocked sending to
      `f`, or has exited. `rest` are the subscriptions the broadcast has not reached. */
  datatype LoopPc = Waiting | Broadcasting(ev: Event, rest: set<SubId>) | Sending(ev: Event, f: SubId, rest: set<SubId>) | Stopped

  datatype State = State(loop: LoopPc, queue: seq<Event>, index: set<SubId>, subs: map<SubId, Sub>, chans: map<ChanId, Chan>,
                         taken: seq<Event>)

  datatype Action =
    | Publish(ev: Event)
    | Take
    | Pick(f: SubId)
    | Put
    | HandOver(ch: ChanId)
    | EndBroadcast
    | MakeChan(ch: ChanId, cap: nat)
    | Subscribe(f: SubId, ch: ChanId)
    | Install(f: SubId)
    | Consume(ch: ChanId)
    | CallUnsubscribe(f: SubId)
    | DrainBuffer(f: SubId)
    | DrainHandOver(f: SubId)
    | Uninstall(f: SubId)
    | Return(f: SubId)
    | Stop

  function Init(): State {
    State(Waiting, [], {}, map[], map[], [])
  }

  predicate In(s: State, f: SubId, p: Phase) {
    f in s.subs && s.subs[f].phase == p
  }

  function ChanOf(s: State, ch: ChanId): Chan {
    if ch in s.chans then s.chans[ch] else Chan(0, [], [], [])
  }

  /** The channel of a subscription. */
  function Results(s: State, f: SubId): Chan
    requires f in s.subs
  {
    ChanOf(s, s.subs[f].ch)
  }

  /** The loop is blocked sending on `ch` and nothing is buffered, so a receiver gets the value
      directly. */
  predicate Direct(s: State, ch: ChanId) {
    s.loop.Sending? && s.loop.f in s.subs && s.subs[s.loop.f].ch == ch && ChanOf(s, ch).buf == []
  }

  predicate Enabled(s: State, a: Action) {
    match a
    case Publish(_) => |s.queue| < RESULT_CHAN_SIZE
    case Take => s.loop.Waiting? && s.queue != []
    case Pick(f) => s.loop.Broadcasting? && f in s.loop.rest
    case Put => s.loop.Sending? && s.loop.f in s.subs && |Results(s, s.loop.f).buf| < Results(s, s.loop.f).cap
    case HandOver(ch) => Direct(s, ch)
    case EndBroadcast => s.loop.Broadcasting? && s.loop.rest == {}
    case MakeChan(ch, _) => ch !in s.chans
    case Subscribe(f, ch) => f !in s.subs && ch in s.chans
    case Install(f) => s.loop.Waiting? && In(s, f, Wanting)
    case Consume(ch) => ChanOf(s, ch).buf != []
    case CallUnsubscribe(f) => In(s, f, Installed)
    case DrainBuffer(f) => In(s, f, Unsubscribing) && Results(s, f).buf != []
    case DrainHandOver(f) => In(s, f, Unsubscribing) && Direct(s, s.subs[f].ch)
    case Uninstall(f) => s.loop.Waiting? && In(s, f, Unsubscribing)
    case Return(f) => In(s, f, Closed)
    case Stop => s.loop.Waiting?
  }

  function SetSub(s: State, f: SubId, x: Sub): State {
    s.(subs := s.subs[f := x])
  }

  function SetChan(s: State, ch: ChanId, c: Chan): State {
    s.(chans := s.chans[ch := c])
  }

  function TakeOut(c: Chan): Chan
    requires c.buf != []
  {
    c.(buf := c.buf[1..], received := c.received + [c.buf[0]])
  }

  /** The pending send goes into the buffer, or directly to a receiver. */
  function Delivered(c: Chan, m: Item, direct: bool): Chan {
    if direct then c.(sent := c.sent + [m], received := c.received + [m])
    else c.(sent := c.sent + [m], buf := c.buf + [m])
  }

  function Deliver(s: State, direct: bool): State
    requires s.loop.Sending? && s.loop.f in s.subs
  {
    SetChan(s, s.subs[s.loop.f].ch, Delivered(Results(s, s.loop.f), Item(s.loop.f, s.loop.ev), direct))
    .(loop := Broadcasting(s.loop.ev, s.loop.rest))
  }

  function Apply(s: State, a: Action): State
    requires Enabled(s, a)
  {
    match a
    case Publish(ev) => s.(queue := s.queue + [ev])
    case Take => s.(loop := Broadcasting(s.queue[0], s.index), queue := s.queue[1..], taken := s.taken + [s.queue[0]])
    case Pick(f) => s.(loop := Sending(s.loop.ev, f, s.loop.rest - {f}))
    case Put => Deliver(s, false)
    case HandOver(_) => Deliver(s, true)
    case EndBroadcast => s.(loop := Waiting)
    case MakeChan(ch, cap) => SetChan(s, ch, Chan(cap, [], [], []))
    case Subscribe(f, ch) => SetSub(s, f, Sub(Wanting, ch, 0, 0))
    case Install(f) => SetSub(s, f, s.subs[f].(phase := Installed, from := |s.taken|)).(index := s.index + {f})
    case Consume(ch) => SetChan(s, ch, TakeOut(ChanOf(s, ch)))
    case CallUnsubscribe(f) => SetSub(s, f, s.subs[f].(phase := Unsubscribing))
    case DrainBuffer(f) => SetChan(s, s.subs[f].ch, TakeOut(Results(s, f)))
    case DrainHandOver(_) => Deliver(s, true)
    case Uninstall(f) => SetSub(s, f, s.subs[f].(phase := Closed, until := |s.taken|)).(index := s.index - {f})
    case Return(f) => SetSub(s, f, s.subs[f].(phase := Returned))
    case Stop => s.(loop := Stopped)
  }

  predicate CanRunAll(s: State, ls: seq<Action>)
    decreases |ls|
  {
    ls == [] || (Enabled(s, ls[0]) && CanRunAll(Apply(s, ls[0]), ls[1..]))
  }

  function RunAll(s: State, ls: seq<Action>): State
    requires CanRunAll(s, ls)
    decreases |ls|
  {
    if ls == [] then s else RunAll(Apply(s, ls[0]), ls[1..])
  }

  lemma RunPrepends(s: State, a: Action, rest: seq<Action>)
    requires Enabled(s, a) && CanRunAll(Apply(s, a), rest)
    ensures CanRunAll(s, [a] + rest) && RunAll(s, [a] + rest) == RunAll(Apply(s, a), rest)
  {
    assert ([a] + rest)[1..] == rest;
  }

  ghost predicate Reachable(s: State) {
    exists ls :: CanRunAll(Init(), ls) && RunAll(Init(), ls) == s
  }

  // ---------------------------------------------------------------------------------------
  // What was sent for one subscription

  /** The events among `ms` that were sent for `f`. */
  function SentFor(ms: seq<Item>, f: SubId): seq<Event> {
    if ms == [] then []
    else
      var k := |ms| - 1;
      SentFor(ms[..k], f) + if ms[k].sub == f then [ms[k].ev] else []
  }

  lemma SentForSnoc(ms: seq<Item>, m: Item, f: SubId)
    ensures SentFor(ms + [m], f) == SentFor(ms, f) + if m.sub == f then [m.ev] else []
  {
    assert (ms + [m])[..|ms|] == ms;
  }

  /** On a channel that carries only items of `f`, they are everything. */
  lemma {:induction false} SentForAll(ms: seq<Item>, f: SubId)
    requires forall m :: m in ms ==> m.sub == f
    ensures |SentFor(ms, f)| == |ms| && forall i :: 0 <= i < |ms| ==> SentFor(ms, f)[i] == ms[i].ev
    decreases |ms|
  {
    if ms != [] {
      SentForAll(ms[..|ms| - 1], f);
    }
  }

  lemma {:induction false} SentForNone(ms: seq<Item>, f: SubId)
    requires forall m :: m in ms ==> m.sub != f
    ensures SentFor(ms, f) == []
    decreases |ms|
  {
    if ms != [] {
      SentForNone(ms[..|ms| - 1], f);
    }
  }

  // ---------------------------------------------------------------------------------------
  // The invariant

  /** The subscriptions that still miss the last event taken. */
  function Owed(p: LoopPc): set<SubId> {
    match p
    case Broadcasting(_, rest) => rest
    case Sending(_, f, rest) => rest + {f}
    case _ => {}
  }

  ghost predicate LoopInv(s: State) {
    && Owed(s.loop) <= s.index
    && (s.loop.Broadcasting? || s.loop.Sending? ==> s.taken != [] && s.taken[|s.taken| - 1] == s.loop.ev)
    && (s.loop.Sending? ==> s.loop.f !in s.loop.rest)
    && (forall f :: f in s.index <==> In(s, f, Installed) || In(s, f, Unsubscribing))
  }

  /** What is sent is received in order, and only for subscriptions of the channel. */
  ghost predicate ChanFits(s: State, ch: ChanId, c: Chan) {
    && c.received + c.buf == c.sent && |c.buf| <= c.cap
    && forall m :: m in c.sent ==> m.sub in s.subs && s.subs[m.sub].ch == ch
  }

  /** The events taken in positions `a` to `b` were sent, in order, once each. */
  predicate Sent(evs: seq<Event>, taken: seq<Event>, a: nat, b: int) {
    a <= b <= |taken| && evs == taken[a..b]
  }

  /** `evs` are the events a subscription should have been sent by now. */
  predicate UpToNow(x: Sub, evs: seq<Event>, taken: seq<Event>, owed: bool) {
    match x.phase
    case Wanting => evs == []
    case Installed => Sent(evs, taken, x.from, |taken| - if owed then 1 else 0)
    case Unsubscribing => Sent(evs, taken, x.from, |taken| - if owed then 1 else 0)
    case Closed => Sent(evs, taken, x.from, x.until)
    case Returned => Sent(evs, taken, x.from, x.until)
  }

  predicate SubFits(s: State, f: SubId, x: Sub) {
    x.ch in s.chans && UpToNow(x, SentFor(s.chans[x.ch].sent, f), s.taken, f in Owed(s.loop))
  }

  ghost predicate Inv(s: State) {
    && LoopInv(s)
    && (forall ch :: ch in s.chans ==> ChanFits(s, ch, s.chans[ch]))
    && (forall f :: f in s.subs ==> SubFits(s, f, s.subs[f]))
  }

  predicate ByClient(a: Action) {
    a.Subscribe? || a.Install? || a.CallUnsubscribe? || a.Uninstall? || a.Return?
  }

  predicate Delivers(a: Action) {
    a.Put? || a.HandOver? || a.DrainHandOver?
  }

  predicate Receives(a: Action) {
    a.Consume? || a.DrainBuffer?
  }

  lemma LoopStep(s: State, a: Action)
    requires LoopInv(s) && Enabled(s, a)
    ensures LoopInv(Apply(s, a))
  {
    if ByClient(a) {
      ClientKeepsLoop(s, a);
    }
  }

  lemma ClientKeepsLoop(s: State, a: Action)
    requires LoopInv(s) && Enabled(s, a) && ByClient(a)
    ensures LoopInv(Apply(s, a))
  {
  }

  lemma ChanStep(s: State, a: Action, ch: ChanId)
    requires Inv(s) && Enabled(s, a) && ch in Apply(s, a).chans
    ensures ChanFits(Apply(s, a), ch, Apply(s, a).chans[ch])
  {
    assert ch in s.chans ==> ChanFits(s, ch, s.chans[ch]);
    if Delivers(a) {
      assert SubFits(s, s.loop.f, s.subs[s.loop.f]);
      DeliverFits(s, a, ch);
    } else if Receives(a) {
      ReceiveFits(s, a, ch);
    }
  }

  lemma DeliverFits(s: State, a: Action, ch: ChanId)
    requires Enabled(s, a) && Delivers(a) && ch in s.chans && ChanFits(s, ch, s.chans[ch])
    ensures ChanFits(Apply(s, a), ch, Apply(s, a).chans[ch])
  {
    var c, c' := s.chans[ch], Apply(s, a).chans[ch];
    if ch == s.subs[s.loop.f].ch {
      var m := Item(s.loop.f, s.loop.ev);
      assert c'.sent == c.sent + [m];
      assert c.received + c.buf + [m] == c.received + (c.buf + [m]);
    }
  }

  lemma ReceiveFits(s: State, a: Action, ch: ChanId)
    requires Enabled(s, a) && Receives(a) && ch in Apply(s, a).chans && (ch in s.chans ==> ChanFits(s, ch, s.chans[ch]))
    ensures ch in s.chans && ChanFits(Apply(s, a), ch, Apply(s, a).chans[ch])
  {
    var c, c' := s.chans[ch], Apply(s, a).chans[ch];
    if c' != c {
      assert c.received + [c.buf[0]] + c.buf[1..] == c.received + c.buf;
    }
  }

  lemma SubStep(s: State, a: Action, f: SubId)
    requires Inv(s) && Enabled(s, a) && f in Apply(s, a).subs
    ensures SubFits(Apply(s, a), f, Apply(s, a).subs[f])
  {
    assert f in s.subs ==> SubFits(s, f, s.subs[f]);
    if Delivers(a) {
      assert s.loop.f in s.index;
      DeliverStep(s, a, f);
    } else if a.Take? {
      TakeStep(s, f);
    } else if Receives(a) {
      ReceiveStep(s, a, f);
    } else if ByClient(a) {
      if a.Subscribe? && f == a.f {
        FreshSub(s, f, a.ch);
      } else {
        ClientStep(s, a, f);
      }
    } else {
      LoopOnlyStep(s, a, f);
    }
  }

  lemma ReceiveStep(s: State, a: Action, f: SubId)
    requires Enabled(s, a) && Receives(a) && f in s.subs && SubFits(s, f, s.subs[f])
    ensures SubFits(Apply(s, a), f, Apply(s, a).subs[f])
  {
    SameItems(s, Apply(s, a), f);
  }

  lemma LoopOnlyStep(s: State, a: Action, f: SubId)
    requires Enabled(s, a) && (a.Publish? || a.Pick? || a.EndBroadcast? || a.MakeChan? || a.Stop?)
    requires f in s.subs && SubFits(s, f, s.subs[f])
    ensures SubFits(Apply(s, a), f, Apply(s, a).subs[f])
  {
    assert Owed(Apply(s, a).loop) == Owed(s.loop);
    SameItems(s, Apply(s, a), f);
  }

  /** As long as the loop's progress and what is on the channel are the same. */
  lemma SameItems(s: State, s': State, f: SubId)
    requires f in s.subs && SubFits(s, f, s.subs[f]) && s'.subs == s.subs && s'.taken == s.taken
    requires Owed(s'.loop) == Owed(s.loop)
    requires s.subs[f].ch in s'.chans && s'.chans[s.subs[f].ch].sent == s.chans[s.subs[f].ch].sent
    ensures SubFits(s', f, s'.subs[f])
  {
  }

  lemma FreshSub(s: State, f: SubId, ch: ChanId)
    requires Inv(s) && Enabled(s, Subscribe(f, ch))
    ensures SubFits(Apply(s, Subscribe(f, ch)), f, Sub(Wanting, ch, 0, 0))
  {
    assert ChanFits(s, ch, s.chans[ch]);
    SentForNone(s.chans[ch].sent, f);
  }

  lemma ClientStep(s: State, a: Action, f: SubId)
    requires LoopInv(s) && Enabled(s, a) && ByClient(a) && !(a.Subscribe? && f == a.f)
    requires f in s.subs && SubFits(s, f, s.subs[f])
    ensures SubFits(Apply(s, a), f, Apply(s, a).subs[f])
  {
    if f == a.f {
      assert f in s.index <==> In(s, f, Installed) || In(s, f, Unsubscribing);
      assert s.taken[|s.taken|..|s.taken|] == [];
    }
  }

  lemma SliceOfPrefix(taken: seq<Event>, e: Event, a: nat, b: nat)
    requires a <= b <= |taken|
    ensures (taken + [e])[a..b] == taken[a..b]
  {
  }

  /** Taking an event does not change what was taken before. */
  lemma SentStays(evs: seq<Event>, taken: seq<Event>, e: Event, a: nat, b: int)
    requires Sent(evs, taken, a, b)
    ensures Sent(evs, taken + [e], a, b)
  {
    SliceOfPrefix(taken, e, a, b);
  }

  lemma SentOneMore(evs: seq<Event>, taken: seq<Event>, a: nat)
    requires taken != [] && Sent(evs, taken, a, |taken| - 1)
    ensures Sent(evs + [taken[|taken| - 1]], taken, a, |taken|)
  {
    assert taken[a..|taken| - 1] + [taken[|taken| - 1]] == taken[a..|taken|];
  }

  /** In `s'` the pending send has been delivered, and nothing else was sent. */
  predicate OneDelivery(s: State, s': State)
    requires s.loop.Sending? && s.loop.f in s.subs
  {
    && s'.subs == s.subs && s'.taken == s.taken && s'.index == s.index && s'.loop == Broadcasting(s.loop.ev, s.loop.rest)
    && (forall ch :: ch in s.chans ==> ch in s'.chans)
    && (forall ch :: ch in s.chans ==>
          s'.chans[ch].sent == s.chans[ch].sent + if ch == s.subs[s.loop.f].ch then [Item(s.loop.f, s.loop.ev)] else [])
  }

  lemma DeliversOnce(s: State, a: Action)
    requires Enabled(s, a) && Delivers(a)
    ensures s.loop.Sending? && s.loop.f in s.subs && OneDelivery(s, Apply(s, a))
  {
  }

  lemma DeliverStep(s: State, a: Action, f: SubId)
    requires LoopInv(s) && Enabled(s, a) && Delivers(a) && s.loop.f in s.index
    requires f in s.subs && SubFits(s, f, s.subs[f])
    ensures SubFits(Apply(s, a), f, Apply(s, a).subs[f])
  {
    DeliversOnce(s, a);
    if f == s.loop.f {
      FitsOwnDelivery(s, Apply(s, a));
    } else {
      FitsOtherDelivery(s, Apply(s, a), f);
    }
  }

  lemma FitsOwnDelivery(s: State, s': State)
    requires s.loop.Sending? && s.loop.f in s.subs && OneDelivery(s, s') && SubFits(s, s.loop.f, s.subs[s.loop.f])
    requires In(s, s.loop.f, Installed) || In(s, s.loop.f, Unsubscribing)
    requires s.taken != [] && s.taken[|s.taken| - 1] == s.loop.ev && s.loop.f !in s.loop.rest
    ensures SubFits(s', s.loop.f, s'.subs[s.loop.f])
  {
    var f := s.loop.f;
    SentAfterDelivery(s, s', f);
    Caught(s.subs[f], SentFor(s.chans[s.subs[f].ch].sent, f), s.taken);
  }

  lemma FitsOtherDelivery(s: State, s': State, f: SubId)
    requires s.loop.Sending? && s.loop.f in s.subs && OneDelivery(s, s')
    requires f != s.loop.f && f in s.subs && SubFits(s, f, s.subs[f])
    ensures SubFits(s', f, s'.subs[f])
  {
    SentAfterDelivery(s, s', f);
    assert f in Owed(s'.loop) <==> f in Owed(s.loop);
  }

  /** The event that was owed is sent. */
  lemma Caught(x: Sub, evs: seq<Event>, taken: seq<Event>)
    requires (x.phase == Installed || x.phase == Unsubscribing) && taken != [] && UpToNow(x, evs, taken, true)
    ensures UpToNow(x, evs + [taken[|taken| - 1]], taken, false)
  {
    SentOneMore(evs, taken, x.from);
  }

  lemma SentAfterDelivery(s: State, s': State, f: SubId)
    requires s.loop.Sending? && s.loop.f in s.subs && OneDelivery(s, s') && f in s.subs && s.subs[f].ch in s.chans
    ensures var ms, ms' := s.chans[s.subs[f].ch].sent, s'.chans[s.subs[f].ch].sent;
            SentFor(ms', f) == if f == s.loop.f then SentFor(ms, f) + [s.loop.ev] else SentFor(ms, f)
  {
    var ms := s.chans[s.subs[f].ch].sent;
    SentForSnoc(ms, Item(s.loop.f, s.loop.ev), f);
    assert ms + [] == ms;
  }

  lemma TakeStep(s: State, f: SubId)
    requires LoopInv(s) && Enabled(s, Take)
    requires f in s.subs && SubFits(s, f, s.subs[f])
    ensures SubFits(Apply(s, Take), f, Apply(s, Take).subs[f])
  {
    var x, e := s.subs[f], s.queue[0];
    var evs := SentFor(s.chans[x.ch].sent, f);
    assert f in s.index <==> In(s, f, Installed) || In(s, f, Unsubscribing);
    if x.phase == Closed || x.phase == Returned {
      SentStays(evs, s.taken, e, x.from, x.until);
    } else if x.phase != Wanting {
      SentStays(evs, s.taken, e, x.from, |s.taken|);
    }
  }

  lemma InvStep(s: State, a: Action)
    requires Inv(s) && Enabled(s, a)
    ensures Inv(Apply(s, a))
  {
    LoopStep(s, a);
    forall ch | ch in Apply(s, a).chans
      ensures ChanFits(Apply(s, a), ch, Apply(s, a).chans[ch])
    {
      ChanStep(s, a, ch);
    }
    forall f | f in Apply(s, a).subs
      ensures SubFits(Apply(s, a), f, Apply(s, a).subs[f])
    {
      SubStep(s, a, f);
    }
  }

  lemma {:induction false} InvRun(s: State, ls: seq<Action>)
    requires Inv(s) && CanRunAll(s, ls)
    ensures Inv(RunAll(s, ls))
    decreases |ls|
  {
    if ls != [] {
      InvStep(s, ls[0]);
      InvRun(Apply(s, ls[0]), ls[1..]);
    }
  }

  lemma InvReachable(s: State)
    requires Reachable(s)
    ensures Inv(s)
  {
    var ls :| CanRunAll(Init(), ls) && RunAll(Init(), ls) == s;
    InvRun(Init(), ls);
  }

  // ---------------------------------------------------------------------------------------
  // What subscribers rely on

  /** What was sent for a subscription is exactly the events the loop took between its install and
      its uninstall, in order and once each; while a broadcast has not reached it, the last one is
      missing. The channel passes items on in the order in which they were sent. */
  lemma SentBetweenInstallAndUninstall(s: State, f: SubId)
    requires Reachable(s) && f in s.subs && s.subs[f].phase != Wanting
    ensures var x, c := s.subs[f], Results(s, f);
            && (x.phase == Closed || x.phase == Returned ==> x.from <= x.until <= |s.taken| && SentFor(c.sent, f) == s.taken[x.from..x.until])
            && (x.phase == Installed || x.phase == Unsubscribing ==>
                  var n := |s.taken| - if f in Owed(s.loop) then 1 else 0;
                  x.from <= n && SentFor(c.sent, f) == s.taken[x.from..n])
            && c.received <= c.sent && |c.sent| - |c.received| <= c.cap
  {
    InvReachable(s);
    assert SubFits(s, f, s.subs[f]);
    assert ChanFits(s, s.subs[f].ch, s.chans[s.subs[f].ch]);
  }

  /** On a channel that no other subscription uses, that is everything that was ever sent. */
  lemma OwnChannel(s: State, f: SubId)
    requires Reachable(s) && f in s.subs && forall g :: g in s.subs && s.subs[g].ch == s.subs[f].ch ==> g == f
    ensures var c := Results(s, f);
            |SentFor(c.sent, f)| == |c.sent| && forall i :: 0 <= i < |c.sent| ==> SentFor(c.sent, f)[i] == c.sent[i].ev
  {
    InvReachable(s);
    assert SubFits(s, f, s.subs[f]);
    assert ChanFits(s, s.subs[f].ch, s.chans[s.subs[f].ch]);
    SentForAll(Results(s, f).sent, f);
  }

  /** Nothing is sent for a subscription once it is uninstalled, so nothing after Unsubscribe has
      returned, over any continuation. */
  lemma {:induction false} NothingAfterUninstall(s: State, f: SubId, ls: seq<Action>)
    requires Inv(s) && (In(s, f, Closed) || In(s, f, Returned)) && CanRunAll(s, ls)
    ensures f in RunAll(s, ls).subs && SentFor(Results(RunAll(s, ls), f).sent, f) == SentFor(Results(s, f).sent, f)
    decreases |ls|
  {
    if ls != [] {
      NothingNow(s, f, ls[0]);
      InvStep(s, ls[0]);
      NothingAfterUninstall(Apply(s, ls[0]), f, ls[1..]);
    }
  }

  lemma NothingNow(s: State, f: SubId, a: Action)
    requires Inv(s) && (In(s, f, Closed) || In(s, f, Returned)) && Enabled(s, a)
    ensures var s' := Apply(s, a);
            (In(s', f, Closed) || In(s', f, Returned)) && SentFor(Results(s', f).sent, f) == SentFor(Results(s, f).sent, f)
  {
    assert SubFits(s, f, s.subs[f]);
    assert f !in s.index;
    if Delivers(a) {
      DeliversOnce(s, a);
      SentAfterDelivery(s, Apply(s, a), f);
    } else {
      QuietStep(s, a, f);
    }
  }

  lemma QuietStep(s: State, a: Action, f: SubId)
    requires Enabled(s, a) && !Delivers(a) && f in s.subs && s.subs[f].ch in s.chans
    requires s.subs[f].phase == Closed || s.subs[f].phase == Returned
    ensures var s' := Apply(s, a);
            (In(s', f, Closed) || In(s', f, Returned)) && Results(s', f).sent == Results(s, f).sent
  {
  }

  /** A loop blocked sending on a channel is never stuck while the owner of a subscription of that
      channel is in Unsubscribe: that owner can receive, or the channel has room. */
  lemma BlockedLoopHasReceiver(s: State, g: SubId)
    requires Reachable(s) && s.loop.Sending? && In(s, g, Unsubscribing)
    requires s.loop.f in s.subs && s.subs[s.loop.f].ch == s.subs[g].ch
    ensures Enabled(s, Put) || Enabled(s, DrainBuffer(g)) || Enabled(s, DrainHandOver(g))
  {
    InvReachable(s);
    assert ChanFits(s, s.subs[g].ch, s.chans[s.subs[g].ch]) by {
      assert SubFits(s, g, s.subs[g]);
    }
    var a := UnblockLoop(s, g, s.loop.f);
  }

  /** Steps that need neither a new call nor a client to receive from `ch`. */
  predicate WithoutClient(a: Action, ch: ChanId) {
    match a
    case Consume(c) => c != ch
    case HandOver(c) => c != ch
    case Publish(_) => false
    case MakeChan(_, _) => false
    case Subscribe(_, _) => false
    case CallUnsubscribe(_) => false
    case Stop => false
    case _ => true
  }

  /** Sends left before the loop is back in its select. */
  function Left(s: State): nat {
    match s.loop
    case Broadcasting(_, rest) => 3 * |rest| + 1
    case Sending(_, f, rest) => 3 * |rest| + if f in s.subs && Results(s, f).buf != [] && |Results(s, f).buf| >= Results(s, f).cap then 3 else 2
    case _ => 0
  }

  /** While the loop runs, an Unsubscribe can always complete although nobody else receives from
      its channel; the clients of other channels have to receive what they are owed. */
  lemma {:induction false} UnsubscribeCanFinish(s: State, f: SubId) returns (ls: seq<Action>)
    requires Inv(s) && In(s, f, Unsubscribing) && !s.loop.Stopped?
    ensures CanRunAll(s, ls) && In(RunAll(s, ls), f, Closed)
    ensures forall k :: 0 <= k < |ls| ==> WithoutClient(ls[k], s.subs[f].ch)
    decreases Left(s)
  {
    var a, s' := OneStepCloser(s, f);
    ls := [];
    if !In(s', f, Closed) {
      ls := UnsubscribeCanFinish(s', f);
    }
    assert CloseRun(s', ls, f);
    ls := [a] + ls;
    assert CloseRun(s, ls, f);
  }

  predicate CloseRun(s: State, ls: seq<Action>, f: SubId) {
    CanRunAll(s, ls) && In(RunAll(s, ls), f, Closed)
  }

  lemma OneStepCloser(s: State, f: SubId) returns (a: Action, s': State)
    requires Inv(s) && In(s, f, Unsubscribing) && !s.loop.Stopped?
    ensures WithoutClient(a, s.subs[f].ch) && Inv(s') && Closer(s, s', f)
    ensures forall rest :: CloseRun(s', rest, f) ==> CloseRun(s, [a] + rest, f)
  {
    a := NextStep(s, f);
    s' := Apply(s, a);
    InvStep(s, a);
    forall rest | CloseRun(s', rest, f)
      ensures CloseRun(s, [a] + rest, f)
    {
      RunPrepends(s, a, rest);
    }
  }

  /** The Unsubscribe is done, or still running with fewer sends before it. */
  predicate Closer(s: State, s': State, f: SubId)
    requires f in s.subs
  {
    In(s', f, Closed)
    || (In(s', f, Unsubscribing) && s'.subs[f].ch == s.subs[f].ch && !s'.loop.Stopped? && Left(s') < Left(s))
  }

  lemma NextStep(s: State, f: SubId) returns (a: Action)
    requires Inv(s) && In(s, f, Unsubscribing) && !s.loop.Stopped?
    ensures Enabled(s, a) && WithoutClient(a, s.subs[f].ch) && Closer(s, Apply(s, a), f)
  {
    match s.loop
    case Waiting => a := Uninstall(f);
    case Broadcasting(_, rest) =>
      if rest == {} {
        a := EndBroadcast;
      } else {
        var g :| g in rest;
        a := Pick(g);
        assert |rest - {g}| == |rest| - 1;
      }
    case Sending(_, g, rest) =>
      assert g in s.index && SubFits(s, g, s.subs[g]);
      a := UnblockLoop(s, f, g);
  }

  lemma UnblockLoop(s: State, f: SubId, g: SubId) returns (a: Action)
    requires In(s, f, Unsubscribing) && s.loop.Sending? && s.loop.f == g && g in s.subs
    requires s.subs[g].ch in s.chans && |Results(s, g).buf| <= Results(s, g).cap
    ensures Enabled(s, a) && WithoutClient(a, s.subs[f].ch) && Closer(s, Apply(s, a), f)
    ensures s.subs[g].ch == s.subs[f].ch ==> a == Put || a == DrainBuffer(f) || a == DrainHandOver(f)
  {
    var ch := s.subs[g].ch;
    if |Results(s, g).buf| < Results(s, g).cap {
      a := Put;
    } else if Results(s, g).buf != [] {
      a := if ch == s.subs[f].ch then DrainBuffer(f) else Consume(ch);
    } else {
      a := if ch == s.subs[f].ch then DrainHandOver(f) else HandOver(ch);
    }
  }
}
