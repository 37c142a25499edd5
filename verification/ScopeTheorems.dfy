/** What the calls on a scope achieve, from call to return and whatever other goroutines do. */
module ScopeTheorems {
  import opened ScopeProtocol

  lemma {:induction false} RunsCompose(s: State, ls: seq<(Tid, Action)>, ms: seq<(Tid, Action)>)
    requires CanRunAll(s, ls) && CanRunAll(RunAll(s, ls), ms)
    ensures CanRunAll(s, ls + ms) && RunAll(s, ls + ms) == RunAll(RunAll(s, ls), ms)
    decreases |ls|
  {
    if ls == [] {
      assert ls + ms == ms;
    } else {
      RunsCompose(Apply(s, ls[0].0, ls[0].1), ls[1..], ms);
      assert (ls + ms)[0] == ls[0] && (ls + ms)[1..] == ls[1..] + ms;
    }
  }

  lemma ReachableAfter(s: State, t: Tid, a: Action, ls: seq<(Tid, Action)>)
    requires Reachable(s) && Enabled(s, t, a) && CanRunAll(Apply(s, t, a), ls)
    ensures Reachable(RunAll(Apply(s, t, a), ls))
  {
    var before :| CanRunAll(Init(), before) && RunAll(Init(), before) == s;
    var next := [(t, a)] + ls;
    assert next[1..] == ls && CanRunAll(s, next);
    RunsCompose(Init(), before, next);
  }

  // ---------------------------------------------------------------------------------------
  // Unsubscribe

  /** The subscription has been removed from its feed. */
  predicate Removed(s: State, sub: nat) {
    OnceOf(s, sub) == Done
  }

  /** The goroutine is in Unsubscribe of the subscription, or that is removed. */
  predicate Removes(s: State, t: Tid, sub: nat) {
    Removed(s, sub) || ((P(s, t).Unsubscribing? || P(s, t).Removing?) && P(s, t).sub == sub)
  }

  lemma RemovesStep(s: State, t: Tid, sub: nat, u: Tid, a: Action)
    requires Enabled(s, u, a) && Removes(s, t, sub)
    requires P(s, u).Removing? ==> OnceOf(s, P(s, u).sub) == Running(u)
    ensures Removes(Apply(s, u, a), t, sub)
  {
    assert u != t ==> P(Apply(s, u, a), t) == P(s, t);
  }

  lemma {:induction false} RemovesRun(s: State, t: Tid, sub: nat, ls: seq<(Tid, Action)>)
    requires Inv(s) && CanRunAll(s, ls) && Removes(s, t, sub)
    ensures Removes(RunAll(s, ls), t, sub)
    decreases |ls|
  {
    if ls != [] {
      RemovesStep(s, t, sub, ls[0].0, ls[0].1);
      InvStep(s, ls[0].0, ls[0].1);
      RemovesRun(Apply(s, ls[0].0, ls[0].1), t, sub, ls[1..]);
    }
  }

  /** When Unsubscribe of a subscription has returned, it has been removed exactly once, whoever did
      that. */
  lemma {:induction false} UnsubscribeRemoves(s: State, t: Tid, sub: nat, ls: seq<(Tid, Action)>)
    requires Reachable(s) && Enabled(s, t, CallUnsubscribe(sub)) && CanRunAll(Apply(s, t, CallUnsubscribe(sub)), ls)
    requires P(RunAll(Apply(s, t, CallUnsubscribe(sub)), ls), t) == Idle
    ensures Removals(RunAll(Apply(s, t, CallUnsubscribe(sub)), ls), sub) == 1
  {
    InvReachable(s);
    InvStep(s, t, CallUnsubscribe(sub));
    RemovesRun(Apply(s, t, CallUnsubscribe(sub)), t, sub, ls);
    ReachableAfter(s, t, CallUnsubscribe(sub), ls);
    RemovedAtMostOnce(RunAll(Apply(s, t, CallUnsubscribe(sub)), ls), sub);
  }

  /** The goroutine is about to take the wrapper out of the scope, or that has been done. */
  predicate Leaves(s: State, t: Tid, w: nat, sub: nat) {
    && w in s.of && s.of[w] == sub
    && ((Removed(s, sub) && (w !in s.subs || P(s, t) == Deleting(w)))
        || P(s, t) == Unsubscribing(sub, ThenDelete(w))
        || P(s, t) == Removing(sub, ThenDelete(w)))
  }

  lemma LeavesStep(s: State, t: Tid, w: nat, sub: nat, u: Tid, a: Action)
    requires Enabled(s, u, a) && Leaves(s, t, w, sub)
    requires P(s, u).Removing? ==> OnceOf(s, P(s, u).sub) == Running(u)
    ensures Leaves(Apply(s, u, a), t, w, sub)
  {
    assert u != t ==> P(Apply(s, u, a), t) == P(s, t);
  }

  lemma {:induction false} LeavesRun(s: State, t: Tid, w: nat, sub: nat, ls: seq<(Tid, Action)>)
    requires Inv(s) && CanRunAll(s, ls) && Leaves(s, t, w, sub)
    ensures Leaves(RunAll(s, ls), t, w, sub)
    decreases |ls|
  {
    if ls != [] {
      LeavesStep(s, t, w, sub, ls[0].0, ls[0].1);
      InvStep(s, ls[0].0, ls[0].1);
      LeavesRun(Apply(s, ls[0].0, ls[0].1), t, w, sub, ls[1..]);
    }
  }

  /** When a wrapper's Unsubscribe has returned, its subscription has been removed exactly once and
      the wrapper has left the scope. */
  lemma {:induction false} WrapperLeaves(s: State, t: Tid, w: nat, ls: seq<(Tid, Action)>)
    requires Reachable(s) && Enabled(s, t, CallWrapper(w)) && CanRunAll(Apply(s, t, CallWrapper(w)), ls)
    requires P(RunAll(Apply(s, t, CallWrapper(w)), ls), t) == Idle
    ensures var s' := RunAll(Apply(s, t, CallWrapper(w)), ls); w !in s'.subs && Removals(s', s.of[w]) == 1
  {
    InvReachable(s);
    InvStep(s, t, CallWrapper(w));
    LeavesRun(Apply(s, t, CallWrapper(w)), t, w, s.of[w], ls);
    ReachableAfter(s, t, CallWrapper(w), ls);
    RemovedAtMostOnce(RunAll(Apply(s, t, CallWrapper(w)), ls), s.of[w]);
  }

  // ---------------------------------------------------------------------------------------
  // Close and Track

  /** The scope is closed, and nobody but the goroutine is still closing it. */
  predicate ClosedBy(s: State, t: Tid) {
    s.closed && (s.mu == Free || s.mu == HeldBy(t))
  }

  lemma {:induction false} ClosedByRun(s: State, t: Tid, ls: seq<(Tid, Action)>)
    requires ClosedBy(s, t) && CanRunAll(s, ls)
    ensures ClosedBy(RunAll(s, ls), t)
    decreases |ls|
  {
    if ls != [] {
      ClosedByRun(Apply(s, ls[0].0, ls[0].1), t, ls[1..]);
    }
  }

  /** When Close has returned the scope is closed and empty, and every subscription that was tracked
      when it was called has been removed exactly once. */
  lemma {:induction false} CloseRemovesAll(s: State, t: Tid, ls: seq<(Tid, Action)>)
    requires Reachable(s) && Enabled(s, t, StartClose) && CanRunAll(Apply(s, t, StartClose), ls)
    requires P(RunAll(Apply(s, t, StartClose), ls), t) == Idle
    ensures var s' := RunAll(Apply(s, t, StartClose), ls);
            && s'.closed && s'.subs == {} && s'.of == s.of
            && forall w :: w in s.of ==> Removals(s', s.of[w]) == 1
  {
    var s' := RunAll(Apply(s, t, StartClose), ls);
    ClosedByRun(Apply(s, t, StartClose), t, ls);
    ReachableAfter(s, t, StartClose, ls);
    InvReachable(s');
    assert Closes(P(s', t)) <==> s'.mu == HeldBy(t);
    ClosedForGood(Apply(s, t, StartClose), ls);
    forall w | w in s.of
      ensures Removals(s', s.of[w]) == 1
    {
      ClosedRemovesAll(s', w);
    }
  }

  /** Tracking files a new wrapper of the subscription in an open scope, and nothing in a closed one;
      a wrapper never changes its subscription. */
  lemma {:induction false} TrackFiles(s: State, t: Tid, w: nat, sub: nat, ls: seq<(Tid, Action)>)
    requires Enabled(s, t, Track(w, sub)) && CanRunAll(Apply(s, t, Track(w, sub)), ls)
    ensures s.closed ==> Apply(s, t, Track(w, sub)) == s
    ensures !s.closed ==> w in Apply(s, t, Track(w, sub)).subs && s.subs <= Apply(s, t, Track(w, sub)).subs
    ensures !s.closed ==> w in RunAll(Apply(s, t, Track(w, sub)), ls).of && RunAll(Apply(s, t, Track(w, sub)), ls).of[w] == sub
  {
    if !s.closed {
      WrapperStays(Apply(s, t, Track(w, sub)), ls, w);
    }
  }

  lemma {:induction false} WrapperStays(s: State, ls: seq<(Tid, Action)>, w: nat)
    requires CanRunAll(s, ls) && w in s.of
    ensures w in RunAll(s, ls).of && RunAll(s, ls).of[w] == s.of[w]
    decreases |ls|
  {
    if ls != [] {
      WrapperStays(Apply(s, ls[0].0, ls[0].1), ls[1..], w);
    }
  }
}
