/** SubscriptionScope under concurrency: wrappers are tracked, unsubscribed and closed by any
    number of goroutines. Close holds the mutex over many steps, and the subscriptions it
    unsubscribes may be in the middle of another Unsubscribe. */
module ScopeProtocol {

  type Tid = nat

  /** The sync.Once of a subscription: not entered, being executed by `t`, or completed. */
  datatype Once = Fresh | Running(t: Tid) | Done

  datatype Lock = Free | HeldBy(t: Tid)

  /** What follows the underlying Unsubscribe: return to the caller, delete wrapper `w` from the
      scope, or go on closing with the wrappers `todo`. */
  datatype Next = Return | ThenDelete(w: nat) | ThenClose(w: nat, todo: set<nat>)

  /** Removing: the goroutine is inside the Once, removing the subscription from its feed. */
  datatype Pc = Idle | Unsubscribing(sub: nat, k: Next) | Removing(sub: nat, k: Next) | Deleting(w: nat) | Closing(todo: set<nat>)

  /** `of` maps every wrapper ever tracked to its subscription; `removals` counts removals from
      the feed. */
  datatype State = State(pc: map<Tid, Pc>, mu: Lock, closed: bool, subs: set<nat>,
                         of: map<nat, nat>, once: map<nat, Once>, removals: map<nat, nat>)

  datatype Action =
    | Track(w: nat, sub: nat)
    | CallUnsubscribe(sub: nat)
    | CallWrapper(w: nat)
    | StartClose
    | CloseNext(w: nat)
    | EndClose
    | EnterOnce
    | FinishRemoval
    | SkipOnce
    | DeleteWrapper

  function Init(): State {
    State(map[], Free, false, {}, map[], map[], map[])
  }

  function P(s: State, t: Tid): Pc {
    if t in s.pc then s.pc[t] else Idle
  }

  function OnceOf(s: State, sub: nat): Once {
    if sub in s.once then s.once[sub] else Fresh
  }

  function Removals(s: State, sub: nat): nat {
    if sub in s.removals then s.removals[sub] else 0
  }

  predicate Enabled(s: State, t: Tid, a: Action) {
    match a
    case Track(w, _) => P(s, t).Idle? && s.mu == Free && w !in s.of
    case CallUnsubscribe(_) => P(s, t).Idle?
    case CallWrapper(w) => P(s, t).Idle? && w in s.of
    case StartClose => P(s, t).Idle? && s.mu == Free
    case CloseNext(w) => P(s, t).Closing? && w in P(s, t).todo && w in s.of
    case EndClose => P(s, t).Closing? && P(s, t).todo == {}
    case EnterOnce => P(s, t).Unsubscribing? && OnceOf(s, P(s, t).sub) == Fresh
    case FinishRemoval => P(s, t).Removing?
    case SkipOnce => P(s, t).Unsubscribing? && OnceOf(s, P(s, t).sub) == Done
    case DeleteWrapper => P(s, t).Deleting? && s.mu == Free
  }

  function Goto(s: State, t: Tid, p: Pc): State {
    s.(pc := s.pc[t := p])
  }

  function After(k: Next): Pc {
    match k
    case Return => Idle
    case ThenDelete(w) => Deleting(w)
    case ThenClose(_, todo) => Closing(todo)
  }

  function Apply(s: State, t: Tid, a: Action): State
    requires Enabled(s, t, a)
  {
    match a
    case Track(w, sub) => if s.closed then s else s.(of := s.of[w := sub], subs := s.subs + {w})
    case CallUnsubscribe(sub) => Goto(s, t, Unsubscribing(sub, Return))
    case CallWrapper(w) => Goto(s, t, Unsubscribing(s.of[w], ThenDelete(w)))
    case StartClose =>
      if s.closed then s else Goto(s, t, Closing(s.subs)).(closed := true, mu := HeldBy(t))
    case CloseNext(w) => Goto(s, t, Unsubscribing(s.of[w], ThenClose(w, P(s, t).todo - {w})))
    case EndClose => Goto(s, t, Idle).(subs := {}, mu := Free)
    case EnterOnce => Goto(s, t, Removing(P(s, t).sub, P(s, t).k)).(once := s.once[P(s, t).sub := Running(t)])
    case FinishRemoval =>
      var sub := P(s, t).sub;
      Goto(s, t, After(P(s, t).k)).(once := s.once[sub := Done], removals := s.removals[sub := Removals(s, sub) + 1])
    case SkipOnce => Goto(s, t, After(P(s, t).k))
    case DeleteWrapper => Goto(s, t, Idle).(subs := s.subs - {P(s, t).w})
  }

  predicate CanRunAll(s: State, ls: seq<(Tid, Action)>)
    decreases |ls|
  {
    ls == [] || (Enabled(s, ls[0].0, ls[0].1) && CanRunAll(Apply(s, ls[0].0, ls[0].1), ls[1..]))
  }

  function RunAll(s: State, ls: seq<(Tid, Action)>): State
    requires CanRunAll(s, ls)
    decreases |ls|
  {
    if ls == [] then s else RunAll(Apply(s, ls[0].0, ls[0].1), ls[1..])
  }

  ghost predicate Reachable(s: State) {
    exists ls :: CanRunAll(Init(), ls) && RunAll(Init(), ls) == s
  }

  // ---------------------------------------------------------------------------------------
  // The invariant

  /** The wrappers a closing goroutine has not dealt with yet. */
  function Pending(p: Pc): set<nat> {
    match p
    case Closing(todo) => todo
    case Unsubscribing(_, ThenClose(w, todo)) => todo + {w}
    case Removing(_, ThenClose(w, todo)) => todo + {w}
    case _ => {}
  }

  predicate Closes(p: Pc) {
    p.Closing? || (p.Unsubscribing? && p.k.ThenClose?) || (p.Removing? && p.k.ThenClose?)
  }

  /** A goroutine about to delete or pass over a wrapper acts on that wrapper's subscription. */
  predicate NextFits(s: State, p: Pc) {
    match p
    case Unsubscribing(sub, ThenDelete(w)) => w in s.of && s.of[w] == sub
    case Unsubscribing(sub, ThenClose(w, todo)) => w in s.of && s.of[w] == sub && w !in todo
    case Removing(sub, ThenDelete(w)) => w in s.of && s.of[w] == sub
    case Removing(sub, ThenClose(w, todo)) => w in s.of && s.of[w] == sub && w !in todo
    case Deleting(w) => w in s.of && OnceOf(s, s.of[w]) == Done
    case _ => true
  }

  predicate Settled(s: State, w: nat) {
    w in s.of && OnceOf(s, s.of[w]) == Done
  }

  ghost predicate PcInv(s: State) {
    && (forall t: Tid :: Closes(P(s, t)) <==> s.mu == HeldBy(t))
    && (forall t: Tid :: NextFits(s, P(s, t)) && Pending(P(s, t)) <= s.of.Keys)
    && (forall t: Tid :: P(s, t).Removing? ==> OnceOf(s, P(s, t).sub) == Running(t))
    && (forall sub: nat :: OnceOf(s, sub).Running? ==> P(s, OnceOf(s, sub).t).Removing? && P(s, OnceOf(s, sub).t).sub == sub)
  }

  ghost predicate Inv(s: State) {
    && PcInv(s)
    && s.subs <= s.of.Keys
    && (s.mu != Free ==> s.closed)
    && (s.mu == Free && s.closed ==> s.subs == {})
    && (forall sub: nat :: Removals(s, sub) == if OnceOf(s, sub) == Done then 1 else 0)
    && (forall w :: w in s.of ==> Accounted(s, w))
  }

  /** A wrapper is in the scope, or its subscription is removed, or Close still has it to do. */
  predicate Accounted(s: State, w: nat) {
    Settled(s, w) || (!s.closed && w in s.subs) || (s.mu.HeldBy? && w in Pending(P(s, s.mu.t)))
  }

  lemma PcStep(s: State, t: Tid, a: Action)
    requires Inv(s) && Enabled(s, t, a)
    ensures PcInv(Apply(s, t, a))
  {
    var s' := Apply(s, t, a);
    assert forall u: Tid :: u != t ==> P(s', u) == P(s, u);
    assert NextFits(s, P(s, t));
    assert Closes(P(s, t)) <==> s.mu == HeldBy(t);
    assert forall sub: nat :: OnceOf(s, sub) == Done ==> OnceOf(s', sub) == Done;
    forall u: Tid
      ensures Closes(P(s', u)) <==> s'.mu == HeldBy(u)
      ensures NextFits(s', P(s', u)) && Pending(P(s', u)) <= s'.of.Keys
    {
      assert NextFits(s, P(s, u)) && (Closes(P(s, u)) <==> s.mu == HeldBy(u)) && Pending(P(s, u)) <= s.of.Keys;
      if u == t {
        ActorFits(s, t, a);
      } else {
        OtherFits(s, t, a, u);
      }
    }
    OnceStep(s, t, a);
  }

  lemma ActorFits(s: State, t: Tid, a: Action)
    requires Enabled(s, t, a) && NextFits(s, P(s, t)) && (Closes(P(s, t)) <==> s.mu == HeldBy(t)) && Pending(P(s, t)) <= s.of.Keys
    requires s.subs <= s.of.Keys
    ensures var s' := Apply(s, t, a);
            (Closes(P(s', t)) <==> s'.mu == HeldBy(t)) && NextFits(s', P(s', t)) && Pending(P(s', t)) <= s'.of.Keys
  {
  }

  lemma OtherFits(s: State, t: Tid, a: Action, u: Tid)
    requires Enabled(s, t, a) && u != t && (Closes(P(s, t)) <==> s.mu == HeldBy(t))
    requires NextFits(s, P(s, u)) && (Closes(P(s, u)) <==> s.mu == HeldBy(u)) && Pending(P(s, u)) <= s.of.Keys
    requires P(s, t).Removing? ==> OnceOf(s, P(s, t).sub) == Running(t)
    ensures var s' := Apply(s, t, a);
            (Closes(P(s, u)) <==> s'.mu == HeldBy(u)) && NextFits(s', P(s, u)) && Pending(P(s, u)) <= s'.of.Keys
  {
  }

  lemma OnceStep(s: State, t: Tid, a: Action)
    requires Inv(s) && Enabled(s, t, a)
    ensures var s' := Apply(s, t, a);
            && (forall u: Tid :: P(s', u).Removing? ==> OnceOf(s', P(s', u).sub) == Running(u))
            && (forall sub: nat :: OnceOf(s', sub).Running? ==> P(s', OnceOf(s', sub).t).Removing? && P(s', OnceOf(s', sub).t).sub == sub)
  {
    var s' := Apply(s, t, a);
    assert forall u: Tid :: u != t ==> P(s', u) == P(s, u);
    assert P(s, t).Removing? ==> OnceOf(s, P(s, t).sub) == Running(t);
    forall sub: nat | OnceOf(s', sub).Running?
      ensures P(s', OnceOf(s', sub).t).Removing? && P(s', OnceOf(s', sub).t).sub == sub
    {
      assert OnceOf(s, sub).Running? ==> P(s, OnceOf(s, sub).t).Removing? && P(s, OnceOf(s, sub).t).sub == sub;
    }
  }

  lemma InvStep(s: State, t: Tid, a: Action)
    requires Inv(s) && Enabled(s, t, a)
    ensures Inv(Apply(s, t, a))
  {
    var s' := Apply(s, t, a);
    PcStep(s, t, a);
    assert forall u: Tid :: u != t ==> P(s', u) == P(s, u);
    assert NextFits(s, P(s, t)) && (Closes(P(s, t)) <==> s.mu == HeldBy(t));
    assert P(s, t).Removing? ==> OnceOf(s, P(s, t).sub) == Running(t);
    forall w | w in s'.of
      ensures Accounted(s', w)
    {
      AccountStep(s, t, a, w);
    }
    forall sub: nat
      ensures Removals(s', sub) == if OnceOf(s', sub) == Done then 1 else 0
    {
      assert Removals(s, sub) == if OnceOf(s, sub) == Done then 1 else 0;
    }
  }

  lemma AccountStep(s: State, t: Tid, a: Action, w: nat)
    requires Inv(s) && Enabled(s, t, a) && w in Apply(s, t, a).of
    ensures Accounted(Apply(s, t, a), w)
  {
    var s' := Apply(s, t, a);
    assert w in s.of ==> Accounted(s, w);
    assert NextFits(s, P(s, t)) && (Closes(P(s, t)) <==> s.mu == HeldBy(t));
    assert forall u: Tid :: u != t ==> P(s', u) == P(s, u);
  }

  lemma {:induction false} InvRun(s: State, ls: seq<(Tid, Action)>)
    requires Inv(s) && CanRunAll(s, ls)
    ensures Inv(RunAll(s, ls))
    decreases |ls|
  {
    if ls != [] {
      InvStep(s, ls[0].0, ls[0].1);
      InvRun(Apply(s, ls[0].0, ls[0].1), ls[1..]);
    }
  }

  lemma InvReachable(s: State)
    requires Reachable(s)
    ensures Inv(s)
  {
    var ls :| CanRunAll(Init(), ls) && RunAll(Init(), ls) == s;
    InvRun(Init(), ls);
  }

  // ---------------------------------------------------------------------------------------
  // What users rely on

  /** Once a Close has returned, every subscription ever tracked has been removed from its feed
      exactly once, however wrapper calls interleaved with it. */
  lemma ClosedRemovesAll(s: State, w: nat)
    requires Reachable(s) && s.closed && s.mu == Free && w in s.of
    ensures OnceOf(s, s.of[w]) == Done && Removals(s, s.of[w]) == 1
  {
    InvReachable(s);
    assert Accounted(s, w);
  }

  /** Before Close, a tracked subscription that is still in its feed is in the scope. */
  lemma OpenScopeHoldsLive(s: State, w: nat)
    requires Reachable(s) && !s.closed && w in s.of && Removals(s, s.of[w]) == 0
    ensures w in s.subs
  {
    InvReachable(s);
    assert Accounted(s, w);
    assert s.mu == Free;
  }

  /** The tracked wrappers whose subscription is still in its feed. */
  function Live(s: State): set<nat> {
    set w | w in s.of && Removals(s, s.of[w]) == 0
  }

  /** What Count tells: never more than was tracked, nothing once a Close has returned, and before
      that at least the tracked subscriptions still in their feeds. */
  lemma CountBounds(s: State)
    requires Reachable(s)
    ensures |s.subs| <= |s.of|
    ensures s.closed && s.mu == Free ==> |s.subs| == 0
    ensures !s.closed ==> |Live(s)| <= |s.subs|
  {
    InvReachable(s);
    SubsetCard(s.subs, s.of.Keys);
    if !s.closed {
      forall w | w in Live(s)
        ensures w in s.subs
      {
        OpenScopeHoldsLive(s, w);
      }
      SubsetCard(Live(s), s.subs);
    }
  }

  lemma SubsetCard(a: set<nat>, b: set<nat>)
    requires a <= b
    ensures |a| <= |b|
  {
    assert b == a + (b - a);
    assert |b| == |a| + |b - a|;
  }

  /** Every subscription is removed from its feed at most once in any run. */
  lemma RemovedAtMostOnce(s: State, sub: nat)
    requires Reachable(s)
    ensures Removals(s, sub) <= 1 && (Removals(s, sub) == 1 <==> OnceOf(s, sub) == Done)
  {
    InvReachable(s);
  }

  /** A closed scope stays closed and tracks nothing more, over any continuation. */
  lemma {:induction false} ClosedForGood(s: State, ls: seq<(Tid, Action)>)
    requires s.closed && CanRunAll(s, ls)
    ensures RunAll(s, ls).closed && RunAll(s, ls).of == s.of && RunAll(s, ls).subs <= s.subs
    decreases |ls|
  {
    if ls != [] {
      var s' := Apply(s, ls[0].0, ls[0].1);
      assert s'.closed && s'.of == s.of && s'.subs <= s.subs;
      ClosedForGood(s', ls[1..]);
    }
  }

  /** How far the closing goroutine is from its next wrapper. */
  function Stage(s: State, p: Pc): nat {
    match p
    case Closing(_) => 4
    case Unsubscribing(sub, _) => if OnceOf(s, sub).Running? then 3 else if OnceOf(s, sub) == Fresh then 2 else 1
    case _ => 1
  }

  /** A Close in progress can always run to its end: a subscription that blocks it is being
      removed by a goroutine that does not need the mutex. */
  lemma {:induction false} CloseCanFinish(s: State, t: Tid) returns (ls: seq<(Tid, Action)>)
    requires Inv(s) && s.mu == HeldBy(t)
    ensures CanRunAll(s, ls) && RunAll(s, ls).mu == Free
    decreases |Pending(P(s, t))|, Stage(s, P(s, t))
  {
    var u, a := ClosingStep(s, t);
    var s' := Apply(s, u, a);
    InvStep(s, u, a);
    var rest := [];
    if s'.mu != Free {
      rest := CloseCanFinish(s', t);
    }
    ls := [(u, a)] + rest;
    assert ls[1..] == rest;
  }

  lemma ClosingStep(s: State, t: Tid) returns (u: Tid, a: Action)
    requires Inv(s) && s.mu == HeldBy(t)
    ensures Enabled(s, u, a)
    ensures var s' := Apply(s, u, a);
            s'.mu == Free
            || (s'.mu == HeldBy(t) && |Pending(P(s', t))| < |Pending(P(s, t))|)
            || (s'.mu == HeldBy(t) && Pending(P(s', t)) == Pending(P(s, t)) && Stage(s', P(s', t)) < Stage(s, P(s, t)))
  {
    assert Closes(P(s, t)) && Pending(P(s, t)) <= s.of.Keys && NextFits(s, P(s, t));
    u := t;
    match P(s, t)
    case Closing(todo) => a := CloseOne(s, t, todo);
    case Removing(_, k) => a := FinishRemoval;
    case Unsubscribing(sub, k) => u, a := OnceWaits(s, t);
  }

  lemma CloseOne(s: State, t: Tid, todo: set<nat>) returns (a: Action)
    requires P(s, t) == Closing(todo) && todo <= s.of.Keys && s.mu == HeldBy(t)
    ensures Enabled(s, t, a)
    ensures var s' := Apply(s, t, a);
            s'.mu == Free
            || (s'.mu == HeldBy(t) && Pending(P(s', t)) == Pending(P(s, t)) && Stage(s', P(s', t)) < Stage(s, P(s, t)))
  {
    if todo == {} {
      a := EndClose;
    } else {
      var w :| w in todo;
      a := CloseNext(w);
      assert todo - {w} + {w} == todo;
    }
  }

  lemma OnceWaits(s: State, t: Tid) returns (u: Tid, a: Action)
    requires Inv(s) && s.mu == HeldBy(t) && P(s, t).Unsubscribing? && P(s, t).k.ThenClose?
    ensures Enabled(s, u, a)
    ensures var s' := Apply(s, u, a);
            s'.mu == HeldBy(t) &&
            (|Pending(P(s', t))| < |Pending(P(s, t))|
             || (Pending(P(s', t)) == Pending(P(s, t)) && Stage(s', P(s', t)) < Stage(s, P(s, t))))
  {
    var sub := P(s, t).sub;
    assert NextFits(s, P(s, t));
    u := t;
    match OnceOf(s, sub)
    case Fresh => a := EnterOnce;
    case Done => a := SkipOnce;
    case Running(v) =>
      u, a := v, FinishRemoval;
      assert P(s, v).Removing? && P(s, v).sub == sub;
  }
}
