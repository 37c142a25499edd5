/** What the feed's invariant means for its users, for every reachable state. */
module FeedTheorems {
  import opened CaseList
  import opened FeedProtocol

  /** The values delivered to a subscription are one stretch of the global send order, so each
      is delivered once, in order and without gaps. */
  lemma DeliveryIsASegment(s: State, i: nat)
    requires Reachable(s)
    ensures exists a: nat :: Segment(Got(s, i), s.order, a)
  {
    InvReachable(s);
    if i in s.start {
      assert Segment(Got(s, i), s.order, s.start[i]);
    } else {
      assert s.order[0..0] == [];
      assert Segment(Got(s, i), s.order, 0);
    }
  }

  /** Subscription `i` received the value of send number `n`, counting sends in the order in
      which they took the token. */
  predicate ReceivedSend(s: State, i: nat, n: nat) {
    i in s.start && s.start[i] <= n < s.start[i] + |Got(s, i)|
  }

  /** Any two subscriptions agree on the sends they share: send `n` is for both the element
      of their sequence that lies `n` minus their first send in, and it is the same value. */
  lemma SubscribersAgree(s: State, i: nat, j: nat, n: nat)
    requires Reachable(s) && ReceivedSend(s, i, n) && ReceivedSend(s, j, n)
    ensures n < |s.order| && Got(s, i)[n - s.start[i]] == Got(s, j)[n - s.start[j]] == s.order[n]
  {
    InvReachable(s);
    assert Segment(Got(s, i), s.order, s.start[i]) && Segment(Got(s, j), s.order, s.start[j]);
  }

  /** While no send or removal is running, every subscription in the list is up to date. */
  lemma UpToDateAtRest(s: State, j: nat)
    requires Reachable(s) && s.lock == Free && 0 < j < |s.cases|
    ensures var i := IdOf(s.cases[j]);
            i in s.start && s.start[i] <= |s.order| && Got(s, i) == s.order[s.start[i]..]
  {
    InvReachable(s);
    assert UpTo(s, IdOf(s.cases[j]), |s.order|);
  }

  /** When Send is about to return, every case that it started with was served exactly once or
      removed before it was served, the result counts the served ones, and whatever is left in
      the list has the value as its last. */
  lemma SendResult(s: State, t: Tid)
    requires Reachable(s) && Enabled(s, t, FinishSend)
    ensures var l := P(s, t).loop;
            && l.all == l.served + l.lost
            && l.nsent == |l.served|
            && WellFormed(s.cases) && l.served == multiset(s.cases[1..]) + l.late
    ensures forall j :: 0 < j < |s.cases| ==>
              var g := Got(s, IdOf(s.cases[j])); 0 < |g| && g[|g| - 1] == P(s, t).v
  {
    InvReachable(s);
    FrontOfSender(s, t);
    FinishedAccount(s.cases, P(s, t).loop);
    forall j | 0 < j < |s.cases|
      ensures var g := Got(s, IdOf(s.cases[j])); 0 < |g| && g[|g| - 1] == P(s, t).v
    {
      ServedLast(s, t, j);
    }
  }

  lemma ServedLast(s: State, t: Tid, j: nat)
    requires FrontInv(s) && HistoryInv(s) && Enabled(s, t, FinishSend) && 0 < j < |s.cases|
    ensures var g := Got(s, IdOf(s.cases[j])); 0 < |g| && g[|g| - 1] == P(s, t).v
  {
    assert FrontFits(s, P(s, t));
    var i := IdOf(s.cases[j]);
    assert UpTo(s, i, |s.order|);
    assert Segment(Got(s, i), s.order, s.start[i]);
    LastValue(Got(s, i), s.order, s.start[i]);
  }

  lemma LastValue(g: seq<Value>, order: seq<Value>, a: nat)
    requires Segment(g, order, a) && a + |g| == |order| && a < |order|
    ensures 0 < |g| && g[|g| - 1] == order[|order| - 1]
  {
  }

  /** Per channel, the cases in the feed are exactly as many as the subscriptions that have not
      been deleted, and the list alone covers the removals past the inbox check. So no reachable
      step makes `find` fail or closes an error channel twice. */
  lemma CasesMatchSubscriptions(s: State, ch: Chan)
    requires Reachable(s)
    ensures |CasesOf(s.inbox, ch)| + |CasesOf(s.cases, ch)| == |Counted(s.subs, ch)|
    ensures |CasesOf(s.cases, ch)| >= |Leaving(s.subs, ch)|
    ensures !s.panicked
  {
    InvReachable(s);
    assert CountsFit(s, ch);
  }

  /** The token is in the channel or with exactly one Send or removal. */
  lemma TokenConserved(s: State)
    requires Reachable(s)
    ensures s.lock == Free ==> forall t: Tid :: !HoldsToken(P(s, t))
    ensures s.lock != Free ==> exists t: Tid :: HoldsToken(P(s, t)) && forall u: Tid :: HoldsToken(P(s, u)) ==> u == t
  {
    InvReachable(s);
    forall t: Tid
      ensures HoldsToken(P(s, t)) <==> s.lock == HeldBy(t)
    {
      assert LocksFit(s, t);
    }
    if s.lock != Free {
      assert HoldsToken(P(s, s.lock.t));
    }
  }

  /** Once every Unsubscribe of a channel has returned, no step delivers to that channel. */
  lemma NothingAfterUnsubscribe(s: State, t: Tid, a: Action, ch: Chan)
    requires Reachable(s) && Enabled(s, t, a)
    requires forall i :: i in s.subs && s.subs[i].ch == ch ==> s.subs[i].closed
    ensures a.Round? && CanStep(s.cases, P(s, t).loop, a.o) && Hit(s.cases, P(s, t).loop, a.o) > 0 ==>
              !Carries(s.cases[Hit(s.cases, P(s, t).loop, a.o)], ch)
  {
    InvReachable(s);
    if a.Round? && CanStep(s.cases, P(s, t).loop, a.o) && Hit(s.cases, P(s, t).loop, a.o) > 0 {
      var c := s.cases[Hit(s.cases, P(s, t).loop, a.o)];
      if Carries(c, ch) {
        var i := OpenSubscription(s, t, c);
      }
    }
  }

  /** A case in the list of a sender that is not deleting has a subscription of its channel
      whose Unsubscribe has not returned. */
  lemma OpenSubscription(s: State, t: Tid, c: Case) returns (i: nat)
    requires Inv(s) && P(s, t).Sending? && !P(s, t).loop.at.Drop? && c in s.cases && c.Entry?
    ensures i in s.subs && s.subs[i].ch == c.ch && !s.subs[i].closed
  {
    assert c in CasesOf(s.cases, c.ch);
    assert CountsFit(s, c.ch);
    assert Counted(s.subs, c.ch) != {};
    i :| i in Counted(s.subs, c.ch);
    assert LocksFit(s, t);
    assert s.subs[i].phase == Handed ==> HandedTo(s, i);
  }

  // ---------------------------------------------------------------------------------------
  // The protocol's sends are runs of the loop of the feed's code

  /** However other goroutines interleave, what a running Send does to the list and its own
      state is a run of the loop in CaseList, the one `FeedImplementation.Feed.Send` performs. */
  lemma {:induction false} SendIsALoopRun(s: State, t: Tid, ls: seq<(Tid, Action)>) returns (os: seq<Outcome>)
    requires Inv(s) && P(s, t).Sending? && CanRunAll(s, ls)
    requires forall k :: 0 <= k < |ls| ==> ls[k] != (t, FinishSend)
    ensures P(RunAll(s, ls), t).Sending? && P(RunAll(s, ls), t).v == P(s, t).v
    ensures CanRun(s.cases, P(s, t).loop, os)
    ensures RunLoop(s.cases, P(s, t).loop, os) == (RunAll(s, ls).cases, P(RunAll(s, ls), t).loop)
    decreases |ls|
  {
    if ls == [] {
      os := [];
    } else {
      var s' := Apply(s, ls[0].0, ls[0].1);
      var first := OneStepOfSend(s, t, ls[0].0, ls[0].1);
      InvStep(s, ls[0].0, ls[0].1);
      assert forall k :: 0 <= k < |ls[1..]| ==> ls[1..][k] == ls[k + 1];
      var rest := SendIsALoopRun(s', t, ls[1..]);
      os := first + rest;
      assert first != [] ==> os[0] == first[0] && os[1..] == rest;
      assert first == [] ==> os == rest;
    }
  }

  lemma OneStepOfSend(s: State, t: Tid, u: Tid, a: Action) returns (os: seq<Outcome>)
    requires Inv(s) && P(s, t).Sending? && Enabled(s, u, a) && (u, a) != (t, FinishSend)
    ensures |os| <= 1
    ensures var s' := Apply(s, u, a);
            && P(s', t).Sending? && P(s', t).v == P(s, t).v
            && (os == [] ==> s'.cases == s.cases && P(s', t).loop == P(s, t).loop)
            && (os != [] ==> CanStep(s.cases, P(s, t).loop, os[0])
                             && s'.cases == NextCases(s.cases, P(s, t).loop, os[0])
                             && P(s', t).loop == NextLoop(s.cases, P(s, t).loop, os[0]))
  {
    os := [];
    if u == t && a.Round? {
      RoundOfSend(s, t, a.o);
      os := [a.o];
    } else if u == t && a.Handoff? {
      FrontOfSender(s, t);
      PcsStep(s, u, a);
      os := [Outcome.Received(SubOf(s, P(s, a.u).sub).ch, P(s, a.u).sub)];
    } else {
      PcsStep(s, u, a);
      assert LocksFit(s, t) && LocksFit(s, u);
      TokenGuards(s, u, a);
    }
  }

  /** And every run of the loop, whatever the channels and the select decide, is what some protocol
      send does; removals that arrive in the loop are the steps of others. */
  lemma {:induction false} LoopRunIsASend(s: State, t: Tid, os: seq<Outcome>) returns (ls: seq<(Tid, Action)>)
    requires Inv(s) && P(s, t).Sending? && CanRun(s.cases, P(s, t).loop, os)
    requires forall k :: 0 <= k < |os| ==> !os[k].Received?
    ensures CanRunAll(s, ls) && P(RunAll(s, ls), t).Sending? && P(RunAll(s, ls), t).v == P(s, t).v
    ensures RunLoop(s.cases, P(s, t).loop, os) == (RunAll(s, ls).cases, P(RunAll(s, ls), t).loop)
    decreases |os|
  {
    ls := [];
    if os != [] {
      RoundOfSend(s, t, os[0]);
      InvStep(s, t, Round(os[0]));
      assert forall k :: 0 <= k < |os[1..]| ==> os[1..][k] == os[k + 1];
      var rest := LoopRunIsASend(Apply(s, t, Round(os[0])), t, os[1..]);
      RunPrepends(s, (t, Round(os[0])), rest);
      ls := [(t, Round(os[0]))] + rest;
    }
  }

  lemma RoundOfSend(s: State, t: Tid, o: Outcome)
    requires Inv(s) && Enabled(s, t, Round(o))
    ensures var s', l := Apply(s, t, Round(o)), P(s, t).loop;
            CanStep(s.cases, l, o) && s'.cases == NextCases(s.cases, l, o) && P(s', t) == Sending(P(s, t).v, NextLoop(s.cases, l, o))
  {
    NeverPanics(s, t, Round(o));
    RoundResult(s, t, o);
  }

  lemma FrontOfSender(s: State, t: Tid)
    requires Inv(s) && P(s, t).Sending?
    ensures LoopInv(s.cases, P(s, t).loop)
  {
    assert FrontFits(s, P(s, t));
  }

  // ---------------------------------------------------------------------------------------
  // An Unsubscribe can always complete

  /** Steps the feed takes by itself: no new call, and no subscriber has to receive. */
  predicate FeedStep(a: Action) {
    && !a.CallSubscribe? && !a.CallUnsubscribe? && !a.CallSend?
    && !(a.Round? && (a.o.Sent? || a.o.Chosen?))
  }

  /** How far the holder of the token is from letting a waiting removal through. */
  function Work(s: State, t: Tid): nat {
    match s.lock
    case Free => 4
    case HeldBy(h) =>
      match P(s, h)
      case RemoveRelease(_) => if h == t then 2 else 5
      case RemoveDelete(_) => if h == t then 3 else 6
      case Sending(_, l) => LoopWork(l)
      case SendMerge(_) => 8 + |s.cases| + |s.inbox|
      case SendMu(_) => (if s.mu == Free then 9 else 11) + |s.cases| + |s.inbox|
      case _ => 0
  }

  function LoopWork(l: Loop): nat {
    match l.at
    case Select => 1
    case Finished => 5
    case Scan(i) => if i < l.n then 6 + l.n - i else 6
    case Drop(_, _) => 7 + l.n
  }

  predicate Waits(s: State, t: Tid, i: nat) {
    P(s, t) == RemoveSelect(i) || P(s, t) == RemoveDelete(i) || P(s, t) == RemoveRelease(i)
  }

  /** After `u` takes step `a`, the removal of `i` by `t` is done or closer to it. */
  ghost predicate Helps(s: State, t: Tid, i: nat, u: Tid, a: Action) {
    && Enabled(s, u, a) && FeedStep(a)
    && (P(Apply(s, u, a), t) == CloseErr(i) || (Waits(Apply(s, u, a), t, i) && Work(Apply(s, u, a), t) < Work(s, t)))
  }

  /** In every state with a waiting removal some feed step is enabled that brings it closer:
      the send lock and the mutex never form a wait cycle. */
  lemma SomeStepHelps(s: State, t: Tid, i: nat) returns (u: Tid, a: Action)
    requires Inv(s) && Waits(s, t, i)
    ensures Helps(s, t, i, u, a)
  {
    if s.lock == Free {
      assert LocksFit(s, t);
      u, a := t, TakeTokenToRemove;
    } else {
      var h := s.lock.t;
      assert LocksFit(s, h) && LocksFit(s, t);
      u := h;
      if P(s, h).Sending? {
        a := SenderStep(s, h, t, i);
      } else if P(s, h).SendMu? {
        u, a := MutexStep(s, h, t, i);
      } else if P(s, h).RemoveDelete? {
        a := DeleteCase;
        FindSucceeds(s, P(s, h).sub, h);
        DeleteHelps(s, t, i, h);
      } else if P(s, h).RemoveRelease? {
        a := ReturnToken;
        ReturnHelps(s, t, i, h);
      } else {
        a := MergeInbox;
        MergeHelps(s, t, i, h);
      }
    }
  }

  lemma DeleteHelps(s: State, t: Tid, i: nat, h: Tid)
    requires Waits(s, t, i) && s.lock == HeldBy(h) && (HoldsToken(P(s, t)) ==> h == t) && Enabled(s, h, DeleteCase)
    requires Find(s.cases, SubOf(s, P(s, h).sub).ch) > 0
    ensures Helps(s, t, i, h, DeleteCase)
  {
    var s' := Apply(s, h, DeleteCase);
    assert s'.lock == s.lock && P(s', h) == RemoveRelease(P(s, h).sub);
  }

  lemma ReturnHelps(s: State, t: Tid, i: nat, h: Tid)
    requires Waits(s, t, i) && s.lock == HeldBy(h) && (HoldsToken(P(s, t)) ==> h == t) && Enabled(s, h, ReturnToken)
    ensures Helps(s, t, i, h, ReturnToken)
  {
    assert Apply(s, h, ReturnToken).lock == Free;
  }

  lemma MergeHelps(s: State, t: Tid, i: nat, h: Tid)
    requires Waits(s, t, i) && s.lock == HeldBy(h) && (HoldsToken(P(s, t)) ==> h == t) && Enabled(s, h, MergeInbox)
    ensures Helps(s, t, i, h, MergeInbox)
  {
    var s' := Merge(s, h);
    assert s'.lock == s.lock && P(s', h) == Sending(P(s, h).v, StartLoop(s.cases + s.inbox));
  }

  lemma SenderStep(s: State, h: Tid, t: Tid, i: nat) returns (a: Action)
    requires Inv(s) && P(s, t) == RemoveSelect(i) && s.lock == HeldBy(h) && P(s, h).Sending?
    ensures Helps(s, t, i, h, a)
  {
    var l := P(s, h).loop;
    if l.at.Select? {
      a := Handoff(t);
      PcsStep(s, h, a);
    } else if l.at.Finished? {
      a := FinishSend;
    } else {
      var o := RoundStep(s, h, l);
      a := Round(o);
      RoundHelps(s, h, t, i, o);
    }
  }

  lemma RoundHelps(s: State, h: Tid, t: Tid, i: nat, o: Outcome)
    requires !s.panicked && P(s, t) == RemoveSelect(i) && s.lock == HeldBy(h) && P(s, h).Sending?
    requires CanStep(s.cases, P(s, h).loop, o) && !o.Sent? && !o.Chosen? && !o.Received?
    requires LoopWork(NextLoop(s.cases, P(s, h).loop, o)) < LoopWork(P(s, h).loop)
    ensures Helps(s, t, i, h, Round(o))
  {
    var s' := DoRound(s, h, o);
    assert P(s', t) == P(s, t) && s'.lock == s.lock;
    assert P(s', h) == Sending(P(s, h).v, NextLoop(s.cases, P(s, h).loop, o));
  }

  lemma RoundStep(s: State, h: Tid, l: Loop) returns (o: Outcome)
    requires Inv(s) && P(s, h).Sending? && P(s, h).loop == l && (l.at.Scan? || l.at.Drop?)
    ensures CanStep(s.cases, l, o) && !o.Sent? && !o.Chosen? && !o.Received?
    ensures LoopWork(NextLoop(s.cases, l, o)) < LoopWork(l)
  {
    assert FrontFits(s, P(s, h));
    if l.at.Scan? {
      o := if l.at.i < l.n then Blocked else ScanDone;
    } else {
      o := Deleted;
      assert DropFits(s, l.at);
      DeletableCase(s, l.at.sub);
    }
  }

  /** The mutex holder of a blocked sender can always finish its critical section. */
  lemma MutexStep(s: State, h: Tid, t: Tid, i: nat) returns (u: Tid, a: Action)
    requires Inv(s) && P(s, t) == RemoveSelect(i) && s.lock == HeldBy(h) && P(s, h).SendMu?
    ensures Helps(s, t, i, u, a)
  {
    if s.mu == Free {
      u, a := h, LockForSend;
    } else {
      u := s.mu.t;
      assert LocksFit(s, u) && LocksFit(s, h);
      a := if P(s, u).SubscribeAppend? then AppendToInbox else CheckInbox;
      LeavingMutexHelps(s, h, t, i, u, a);
    }
  }

  lemma LeavingMutexHelps(s: State, h: Tid, t: Tid, i: nat, u: Tid, a: Action)
    requires P(s, t) == RemoveSelect(i) && s.lock == HeldBy(h) && P(s, h).SendMu? && s.mu == HeldBy(u)
    requires Enabled(s, u, a) && (a.AppendToInbox? || a.CheckInbox?)
    ensures Helps(s, t, i, u, a)
  {
    if a.AppendToInbox? {
      AppendLeavesMutex(s, u);
    } else {
      CheckLeavesMutex(s, u);
    }
    PcsStep(s, u, a);
  }

  lemma AppendLeavesMutex(s: State, u: Tid)
    requires P(s, u).SubscribeAppend?
    ensures var s' := Append(s, u);
            s'.lock == s.lock && s'.mu == Free && s'.cases == s.cases && |s'.inbox| == |s.inbox| + 1
  {
  }

  lemma CheckLeavesMutex(s: State, u: Tid)
    requires P(s, u).RemoveCheck?
    ensures var s' := Check(s, u);
            s'.lock == s.lock && s'.mu == Free && s'.cases == s.cases && |s'.inbox| <= |s.inbox|
  {
    var k := Find(s.inbox, SubOf(s, P(s, u).sub).ch);
    if k != -1 {
      assert |Delete(s.inbox, k)| == |s.inbox| - 1;
    }
  }

  /** What is left of an Unsubscribe: the mutex, the inbox check, the removal from the list, the
      closing of the error channel. */
  function Rank(s: State, p: Pc): nat {
    match p
    case RemoveLock(_) => if s.mu == Free then 4 else 5
    case RemoveCheck(_) => 3
    case CloseErr(_) => 1
    case _ => 2
  }

  predicate Returned(s: State, t: Tid, i: nat) {
    P(s, t) == Idle && i in s.subs && s.subs[i].closed
  }

  /** In `s'` the Unsubscribe of `i` by `t` has returned, or ranks lower than in `s`. */
  predicate Advances(s: State, s': State, t: Tid, i: nat) {
    Returned(s', t, i) || (Removal(P(s', t)) == i && Rank(s', P(s', t)) < Rank(s, P(s, t)))
  }

  lemma SomeStepAdvances(s: State, t: Tid, i: nat) returns (u: Tid, a: Action)
    requires Inv(s) && Removal(P(s, t)) == i && !Waits(s, t, i)
    ensures Enabled(s, u, a) && FeedStep(a) && Advances(s, Apply(s, u, a), t, i)
  {
    if P(s, t).RemoveLock? {
      u, a := MutexAdvances(s, t, i);
    } else if P(s, t).RemoveCheck? {
      u, a := t, CheckInbox;
      CheckPasses(s, t);
    } else {
      u, a := t, CloseErrChannel;
      CloseAdvances(s, t, i);
    }
  }

  lemma CheckPasses(s: State, u: Tid)
    requires Enabled(s, u, CheckInbox)
    ensures var p := P(Apply(s, u, CheckInbox), u); p == CloseErr(P(s, u).sub) || p == RemoveSelect(P(s, u).sub)
  {
  }

  lemma CloseAdvances(s: State, t: Tid, i: nat)
    requires Inv(s) && P(s, t) == CloseErr(i)
    ensures Enabled(s, t, CloseErrChannel) && Returned(Apply(s, t, CloseErrChannel), t, i)
  {
    assert Removal(P(s, t)) == i && PhaseFits(P(s, t), s.subs[i]);
  }

  /** The mutex is free or its holder can leave it at once. */
  lemma MutexAdvances(s: State, t: Tid, i: nat) returns (u: Tid, a: Action)
    requires Inv(s) && P(s, t) == RemoveLock(i)
    ensures Enabled(s, u, a) && FeedStep(a) && Advances(s, Apply(s, u, a), t, i)
  {
    if s.mu == Free {
      u, a := t, LockForRemove;
    } else {
      u := s.mu.t;
      assert LocksFit(s, u) && LocksFit(s, t);
      a := LeaveMutex(s, u);
      PcsStep(s, u, a);
    }
  }

  lemma LeaveMutex(s: State, u: Tid) returns (a: Action)
    requires !s.panicked && HoldsMu(P(s, u))
    ensures Enabled(s, u, a) && FeedStep(a) && !a.Handoff? && Apply(s, u, a).mu == Free && Apply(s, u, a).lock == s.lock
  {
    if P(s, u).SubscribeAppend? {
      a := AppendToInbox;
    } else if P(s, u).RemoveCheck? {
      a := CheckInbox;
      CheckLeavesMutex(s, u);
    } else {
      a := MergeInbox;
    }
  }

  /** From every reachable state an Unsubscribe can return by feed steps alone, wherever it is:
      it needs no subscriber to receive anything and no other call to begin. */
  lemma {:induction false} UnsubscribeCanReturn(s: State, t: Tid, i: nat)
    requires Reachable(s) && Removal(P(s, t)) == i
    ensures exists ls: seq<(Tid, Action)> ::
              CanRunAll(s, ls) && Returned(RunAll(s, ls), t, i) && forall k :: 0 <= k < |ls| ==> FeedStep(ls[k].1)
  {
    InvReachable(s);
    var ls := ReturnFrom(s, t, i);
  }

  lemma {:induction false} ReturnFrom(s: State, t: Tid, i: nat) returns (ls: seq<(Tid, Action)>)
    requires Inv(s) && Removal(P(s, t)) == i
    ensures CanRunAll(s, ls) && Returned(RunAll(s, ls), t, i)
    ensures forall k :: 0 <= k < |ls| ==> FeedStep(ls[k].1)
    decreases Rank(s, P(s, t)), WaitWork(s, t, i)
  {
    var u, a := NextStep(s, t, i);
    var s' := Apply(s, u, a);
    InvStep(s, u, a);
    var rest := [];
    if !Returned(s', t, i) {
      rest := ReturnFrom(s', t, i);
    }
    RunPrepends(s, (u, a), rest);
    ls := [(u, a)] + rest;
  }

  function WaitWork(s: State, t: Tid, i: nat): nat {
    if Waits(s, t, i) then Work(s, t) else 0
  }

  predicate Closer(s: State, s': State, t: Tid, i: nat) {
    || Advances(s, s', t, i)
    || (Removal(P(s', t)) == i && Rank(s', P(s', t)) == Rank(s, P(s, t)) && WaitWork(s', t, i) < WaitWork(s, t, i))
  }

  lemma HelpedIsCloser(s: State, t: Tid, i: nat, u: Tid, a: Action)
    requires Waits(s, t, i) && Helps(s, t, i, u, a)
    ensures Closer(s, Apply(s, u, a), t, i)
  {
  }

  lemma NextStep(s: State, t: Tid, i: nat) returns (u: Tid, a: Action)
    requires Inv(s) && Removal(P(s, t)) == i
    ensures Enabled(s, u, a) && FeedStep(a) && Closer(s, Apply(s, u, a), t, i)
  {
    if Waits(s, t, i) {
      u, a := SomeStepHelps(s, t, i);
      HelpedIsCloser(s, t, i, u, a);
    } else {
      u, a := SomeStepAdvances(s, t, i);
    }
  }

  // ---------------------------------------------------------------------------------------
  // A Send can always complete when the subscribers receive

  /** Any step but a new call: the feed's own steps and the receptions of subscribers. */
  predicate Continues(a: Action) {
    !a.CallSubscribe? && !a.CallUnsubscribe? && !a.CallSend?
  }

  predicate InSend(p: Pc) {
    p.SendLock? || p.SendMu? || p.SendMerge? || p.Sending?
  }

  /** How far the holder of the token is from giving it back. */
  function HolderStage(s: State, p: Pc): nat {
    match p
    case RemoveRelease(_) => 1
    case RemoveDelete(_) => 2
    case Sending(_, _) => 3
    case SendMerge(_) => 4
    case SendMu(_) => if s.mu == Free then 5 else 6
    case _ => 0
  }

  function HolderMajor(s: State, p: Pc): nat {
    if p.Sending? then Major(s.cases, p.loop) else 0
  }

  function HolderMinor(p: Pc): nat {
    if p.Sending? then Minor(p.loop) else 0
  }

  predicate HolderCloser(s: State, s': State, h: Tid) {
    var p, p' := P(s, h), P(s', h);
    || HolderStage(s', p') < HolderStage(s, p)
    || (HolderStage(s', p') == HolderStage(s, p)
        && (HolderMajor(s', p') < HolderMajor(s, p)
            || (HolderMajor(s', p') == HolderMajor(s, p) && HolderMinor(p') < HolderMinor(p))))
  }

  /** After the step the token is back, and a send that held it has returned; or its holder is
      closer to that. */
  predicate Frees(s: State, s': State, h: Tid) {
    if s'.lock == Free then InSend(P(s, h)) ==> P(s', h) == Idle
    else s'.lock == HeldBy(h) && InSend(P(s', h)) == InSend(P(s, h)) && HolderCloser(s, s', h)
  }

  ghost predicate WaitersStay(s: State, s': State) {
    forall t: Tid :: P(s, t).SendLock? ==> P(s', t) == P(s, t)
  }

  lemma HolderStep(s: State, h: Tid) returns (u: Tid, a: Action)
    requires Inv(s) && s.lock == HeldBy(h)
    ensures Enabled(s, u, a) && Continues(a) && Frees(s, Apply(s, u, a), h) && WaitersStay(s, Apply(s, u, a))
  {
    assert LocksFit(s, h);
    u := h;
    if P(s, h).RemoveRelease? {
      a := ReturnToken;
    } else if P(s, h).RemoveDelete? {
      a := DeleteCase;
      FindSucceeds(s, P(s, h).sub, h);
      DeleteFrees(s, h);
    } else if P(s, h).SendMerge? {
      a := MergeInbox;
      MergeFrees(s, h);
    } else if P(s, h).SendMu? {
      u, a := SendMuStep(s, h);
    } else {
      a := SendingStep(s, h);
    }
    WaitersUntouched(s, u, a);
  }

  lemma WaitersUntouched(s: State, u: Tid, a: Action)
    requires Enabled(s, u, a) && !a.Handoff? && !P(s, u).SendLock?
    ensures WaitersStay(s, Apply(s, u, a))
  {
    PcsStep(s, u, a);
  }

  lemma DeleteFrees(s: State, h: Tid)
    requires s.lock == HeldBy(h) && Enabled(s, h, DeleteCase) && Find(s.cases, SubOf(s, P(s, h).sub).ch) > 0
    ensures Frees(s, Apply(s, h, DeleteCase), h)
  {
  }

  lemma MergeFrees(s: State, h: Tid)
    requires s.lock == HeldBy(h) && Enabled(s, h, MergeInbox)
    ensures Frees(s, Apply(s, h, MergeInbox), h)
  {
  }

  lemma SendMuStep(s: State, h: Tid) returns (u: Tid, a: Action)
    requires Inv(s) && s.lock == HeldBy(h) && P(s, h).SendMu?
    ensures Enabled(s, u, a) && Continues(a) && !a.Handoff? && Frees(s, Apply(s, u, a), h) && !P(s, u).SendLock?
  {
    if s.mu == Free {
      u, a := h, LockForSend;
    } else {
      u := s.mu.t;
      assert LocksFit(s, u) && LocksFit(s, h);
      a := LeaveMutex(s, u);
      PcsStep(s, u, a);
    }
  }

  lemma SendingStep(s: State, h: Tid) returns (a: Action)
    requires Inv(s) && s.lock == HeldBy(h) && P(s, h).Sending?
    ensures Enabled(s, h, a) && Continues(a) && !a.Handoff? && Frees(s, Apply(s, h, a), h)
  {
    if P(s, h).loop.at.Finished? {
      a := FinishSend;
    } else {
      var o := SendingRound(s, h);
      a := Round(o);
      LoopRankFalls(s.cases, P(s, h).loop, o);
      RoundResult(s, h, o);
    }
  }

  lemma SendingRound(s: State, h: Tid) returns (o: Outcome)
    requires Inv(s) && P(s, h).Sending? && !P(s, h).loop.at.Finished?
    ensures CanStep(s.cases, P(s, h).loop, o) && !o.Received?
  {
    var l := P(s, h).loop;
    FrontOfSender(s, h);
    if l.at.Scan? {
      o := if l.at.i < l.n then Blocked else ScanDone;
    } else if l.at.Select? {
      o := Chosen(1);
    } else {
      o := Deleted;
      assert DropFits(s, l.at);
      DeletableCase(s, l.at.sub);
    }
  }

  lemma {:induction false} HolderCanFinish(s: State, h: Tid) returns (ls: seq<(Tid, Action)>)
    requires Inv(s) && s.lock == HeldBy(h)
    ensures CanRunAll(s, ls) && RunAll(s, ls).lock == Free && WaitersStay(s, RunAll(s, ls))
    ensures InSend(P(s, h)) ==> P(RunAll(s, ls), h) == Idle
    ensures forall k :: 0 <= k < |ls| ==> Continues(ls[k].1)
    decreases HolderStage(s, P(s, h)), HolderMajor(s, P(s, h)), HolderMinor(P(s, h))
  {
    var u, a := HolderStep(s, h);
    var s' := Apply(s, u, a);
    InvStep(s, u, a);
    var rest := [];
    if s'.lock != Free {
      rest := HolderCanFinish(s', h);
    }
    RunPrepends(s, (u, a), rest);
    ls := [(u, a)] + rest;
  }

  /** From every reachable state a Send can return, wherever it is: the feed's own steps and
      receptions suffice, and no new call has to begin. */
  lemma {:induction false} SendCanReturn(s: State, t: Tid)
    requires Reachable(s) && InSend(P(s, t))
    ensures exists ls: seq<(Tid, Action)> ::
              CanRunAll(s, ls) && P(RunAll(s, ls), t) == Idle && forall k :: 0 <= k < |ls| ==> Continues(ls[k].1)
  {
    InvReachable(s);
    assert LocksFit(s, t);
    if P(s, t).SendLock? {
      var ls := TokenComesFree(s);
      var s' := RunAll(s, ls);
      InvRun(s, ls);
      assert P(s', t) == P(s, t);
      var ms := SendFromLock(s', t);
      RunsCompose(s, ls, ms);
      assert CanRunAll(s, ls + ms);
    } else {
      var ls := HolderCanFinish(s, t);
    }
  }

  lemma {:induction false} TokenComesFree(s: State) returns (ls: seq<(Tid, Action)>)
    requires Inv(s)
    ensures CanRunAll(s, ls) && RunAll(s, ls).lock == Free && WaitersStay(s, RunAll(s, ls))
    ensures forall k :: 0 <= k < |ls| ==> Continues(ls[k].1)
  {
    ls := [];
    if s.lock != Free {
      ls := HolderCanFinish(s, s.lock.t);
    }
  }

  lemma {:induction false} SendFromLock(s: State, t: Tid) returns (ls: seq<(Tid, Action)>)
    requires Inv(s) && s.lock == Free && P(s, t).SendLock?
    ensures CanRunAll(s, ls) && P(RunAll(s, ls), t) == Idle
    ensures forall k :: 0 <= k < |ls| ==> Continues(ls[k].1)
  {
    InvStep(s, t, TakeToken);
    var rest := HolderCanFinish(Apply(s, t, TakeToken), t);
    RunPrepends(s, (t, TakeToken), rest);
    ls := [(t, TakeToken)] + rest;
  }
}
