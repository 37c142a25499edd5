/** What the calls on a feed achieve, from call to return and whatever other goroutines do. */
module FeedCalls {
  import opened CaseList
  import opened FeedProtocol
  import FeedTheorems

  lemma ReachableAfter(s: State, t: Tid, a: Action, ls: seq<(Tid, Action)>)
    requires Reachable(s) && Enabled(s, t, a) && CanRunAll(Apply(s, t, a), ls)
    ensures Reachable(RunAll(Apply(s, t, a), ls))
  {
    var before :| CanRunAll(Init(), before) && RunAll(Init(), before) == s;
    RunPrepends(s, (t, a), ls);
    RunsCompose(Init(), before, [(t, a)] + ls);
  }

  // ---------------------------------------------------------------------------------------
  // Send

  /** What a running send has left in the inbox was subscribed after the send took the token. */
  ghost predicate DueInv(s: State) {
    && s.due <= s.next
    && forall t: Tid :: P(s, t).Sending? ==> InboxIsLate(s)
  }

  predicate InboxIsLate(s: State) {
    forall c :: c in s.inbox ==> s.due <= IdOf(c)
  }

  lemma DueStep(s: State, t: Tid, a: Action)
    requires Inv(s) && DueInv(s) && Enabled(s, t, a)
    ensures DueInv(Apply(s, t, a))
  {
    var s' := Apply(s, t, a);
    DueGrows(s, t, a);
    PcsStep(s, t, a);
    forall u: Tid | P(s', u).Sending?
      ensures InboxIsLate(s')
    {
      assert LocksFit(s, u) && LocksFit(s, t);
      if a.MergeInbox? {
        assert s'.inbox == [];
      } else {
        SenderStays(s, t, a, u);
        InboxStaysLate(s, t, a);
      }
    }
  }

  lemma DueGrows(s: State, t: Tid, a: Action)
    requires Enabled(s, t, a) && s.due <= s.next
    ensures var s' := Apply(s, t, a); s'.due <= s'.next && s.next <= s'.next
    ensures Apply(s, t, a).due == if a.TakeToken? then s.next else s.due
  {
    if UnderMutex(a) {
      DueUnderMutex(s, t, a);
    }
  }

  lemma DueUnderMutex(s: State, t: Tid, a: Action)
    requires Enabled(s, t, a) && UnderMutex(a)
    ensures Apply(s, t, a).due == s.due && s.next <= Apply(s, t, a).next
  {
  }

  /** Only merging the inbox makes a goroutine a sender. */
  lemma SenderStays(s: State, t: Tid, a: Action, u: Tid)
    requires Enabled(s, t, a) && !a.MergeInbox? && P(Apply(s, t, a), u).Sending?
    ensures P(s, u).Sending?
  {
    PcsStep(s, t, a);
    if UnderMutex(a) {
      NotSendingUnderMutex(s, t, a);
    }
  }

  lemma InboxStaysLate(s: State, t: Tid, a: Action)
    requires ListsInv(s) && InboxIsLate(s) && s.due <= s.next && Enabled(s, t, a) && !a.TakeToken?
    ensures InboxIsLate(Apply(s, t, a))
  {
    if a.AppendToInbox? {
      var c := Entry(s.next, P(s, t).ch);
      assert forall d :: d in Apply(s, t, a).inbox ==> d in s.inbox || d == c;
    } else if a.MergeInbox? {
      assert Apply(s, t, a).inbox == [];
    } else if a.CheckInbox? {
      var k := Find(s.inbox, SubOf(s, P(s, t).sub).ch);
      if k != -1 {
        DeleteKeeps(s.inbox, k);
      }
    } else {
      OtherInbox(s, t, a);
    }
  }

  lemma OtherInbox(s: State, t: Tid, a: Action)
    requires Enabled(s, t, a) && !a.TakeToken? && !a.AppendToInbox? && !a.MergeInbox? && !a.CheckInbox?
    ensures Apply(s, t, a).inbox == s.inbox && Apply(s, t, a).due == s.due
  {
  }

  lemma {:induction false} DueRun(s: State, ls: seq<(Tid, Action)>)
    requires Inv(s) && DueInv(s) && CanRunAll(s, ls)
    ensures DueInv(RunAll(s, ls))
    decreases |ls|
  {
    if ls != [] {
      DueStep(s, ls[0].0, ls[0].1);
      InvStep(s, ls[0].0, ls[0].1);
      DueRun(Apply(s, ls[0].0, ls[0].1), ls[1..]);
    }
  }

  lemma DueReachable(s: State)
    requires Reachable(s)
    ensures DueInv(s)
  {
    var ls :| CanRunAll(Init(), ls) && RunAll(Init(), ls) == s;
    InvInit();
    DueRun(Init(), ls);
  }

  predicate Last(g: seq<Value>, v: Value) {
    0 < |g| && g[|g| - 1] == v
  }

  /** When Send is about to return, every case subscribed before it took the token has its value
      as the last one: none of them is still in the inbox. */
  lemma SendReachesSubscribed(s: State, t: Tid, c: Case)
    requires Reachable(s) && Enabled(s, t, FinishSend)
    requires c.Entry? && (c in s.cases || c in s.inbox) && c.id < s.due
    ensures Last(Got(s, c.id), P(s, t).v)
  {
    InvReachable(s);
    DueReachable(s);
    ListedReceives(s, t, c);
  }

  lemma ListedReceives(s: State, t: Tid, c: Case)
    requires FrontInv(s) && HistoryInv(s) && WellFormed(s.cases) && InboxIsLate(s) && Enabled(s, t, FinishSend)
    requires c.Entry? && (c in s.cases || c in s.inbox) && c.id < s.due
    ensures Last(Got(s, c.id), P(s, t).v)
  {
    assert c !in s.inbox;
    var j :| 0 <= j < |s.cases| && s.cases[j] == c;
    FeedTheorems.ServedLast(s, t, j);
  }

  /** The goroutine is in its send of `v`, and once it holds the token at least the first `n`
      subscriptions are due. */
  predicate Sends(s: State, t: Tid, v: Value, n: nat) {
    var p := P(s, t);
    || (p == SendLock(v) && n <= s.next)
    || ((p == SendMu(v) || p == SendMerge(v) || (p.Sending? && p.v == v)) && n <= s.due)
  }

  lemma SendsStep(s: State, t: Tid, v: Value, n: nat, u: Tid, a: Action)
    requires LocksInv(s) && s.due <= s.next && Enabled(s, u, a) && (u, a) != (t, FinishSend) && Sends(s, t, v, n)
    ensures Sends(Apply(s, u, a), t, v, n)
  {
    DueGrows(s, u, a);
    assert LocksFit(s, t) && LocksFit(s, u);
    PcsStep(s, u, a);
    if u == t && a.Round? {
      RoundKeepsValue(s, t, a.o);
    }
  }

  lemma RoundKeepsValue(s: State, t: Tid, o: Outcome)
    requires Enabled(s, t, Round(o))
    ensures P(DoRound(s, t, o), t).Sending? && P(DoRound(s, t, o), t).v == P(s, t).v
  {
  }

  lemma {:induction false} SendsRun(s: State, t: Tid, v: Value, n: nat, ls: seq<(Tid, Action)>)
    requires Inv(s) && DueInv(s) && CanRunAll(s, ls) && Sends(s, t, v, n)
    requires forall k :: 0 <= k < |ls| ==> ls[k] != (t, FinishSend)
    ensures Sends(RunAll(s, ls), t, v, n)
    decreases |ls|
  {
    if ls != [] {
      SendsStep(s, t, v, n, ls[0].0, ls[0].1);
      DueStep(s, ls[0].0, ls[0].1);
      InvStep(s, ls[0].0, ls[0].1);
      assert forall k :: 0 <= k < |ls[1..]| ==> ls[1..][k] == ls[k + 1];
      SendsRun(Apply(s, ls[0].0, ls[0].1), t, v, n, ls[1..]);
    }
  }

  /** Send(v), from its call to the point where it returns: every case that was subscribed before
      the call and is still in the feed has `v` as its last value. */
  lemma {:induction false} SendDelivers(s: State, t: Tid, v: Value, ls: seq<(Tid, Action)>, c: Case)
    requires Reachable(s) && Enabled(s, t, CallSend(v)) && CanRunAll(Apply(s, t, CallSend(v)), ls)
    requires forall k :: 0 <= k < |ls| ==> ls[k] != (t, FinishSend)
    requires Enabled(RunAll(Apply(s, t, CallSend(v)), ls), t, FinishSend)
    requires var s' := RunAll(Apply(s, t, CallSend(v)), ls); c.Entry? && c.id < s.next && (c in s'.cases || c in s'.inbox)
    ensures Last(Got(RunAll(Apply(s, t, CallSend(v)), ls), c.id), v)
  {
    InvReachable(s);
    DueReachable(s);
    InvStep(s, t, CallSend(v));
    DueStep(s, t, CallSend(v));
    SendsRun(Apply(s, t, CallSend(v)), t, v, s.next, ls);
    ReachableAfter(s, t, CallSend(v), ls);
    SendReachesSubscribed(RunAll(Apply(s, t, CallSend(v)), ls), t, c);
  }

  ghost predicate AllLive(s: State, ch: Chan) {
    forall i :: i in s.subs && s.subs[i].ch == ch ==> s.subs[i].phase == Live
  }

  /** While nobody unsubscribes a channel, each of its subscriptions has its case in the feed. */
  lemma LiveIsListed(s: State, i: nat)
    requires Reachable(s) && i in s.subs && AllLive(s, s.subs[i].ch)
    ensures Entry(i, s.subs[i].ch) in s.cases || Entry(i, s.subs[i].ch) in s.inbox
  {
    InvReachable(s);
    var ch := s.subs[i].ch;
    assert CountsFit(s, ch);
    var all := CasesOf(s.inbox, ch) + CasesOf(s.cases, ch);
    assert CasesOf(s.inbox, ch) !! CasesOf(s.cases, ch);
    assert |all| == |Counted(s.subs, ch)|;
    assert forall c :: c in all ==> c == Entry(c.id, ch) && c.id in Counted(s.subs, ch);
    if Entry(i, ch) !in all {
      TooFewCases(all, Counted(s.subs, ch), ch, i);
    }
  }

  /** Cases of one channel are told apart by their ids alone. */
  lemma {:induction false} TooFewCases(cs: set<Case>, ids: set<nat>, ch: Chan, i: nat)
    requires i in ids && Entry(i, ch) !in cs
    requires forall c :: c in cs ==> c.Entry? && c == Entry(c.id, ch) && c.id in ids
    ensures |cs| < |ids|
    decreases cs
  {
    if cs != {} {
      var c :| c in cs;
      TooFewCases(cs - {c}, ids - {c.id}, ch, i);
    }
  }

  /** Send(v), for the subscribers: a subscription that was there at the call and whose channel
      nobody is unsubscribing has `v` as its last value when Send returns. */
  lemma {:induction false} SubscriberReceives(s: State, t: Tid, v: Value, ls: seq<(Tid, Action)>, i: nat)
    requires Reachable(s) && Enabled(s, t, CallSend(v)) && CanRunAll(Apply(s, t, CallSend(v)), ls)
    requires forall k :: 0 <= k < |ls| ==> ls[k] != (t, FinishSend)
    requires Enabled(RunAll(Apply(s, t, CallSend(v)), ls), t, FinishSend)
    requires var s' := RunAll(Apply(s, t, CallSend(v)), ls); i < s.next && i in s'.subs && AllLive(s', s'.subs[i].ch)
    ensures Last(Got(RunAll(Apply(s, t, CallSend(v)), ls), i), v)
  {
    var s' := RunAll(Apply(s, t, CallSend(v)), ls);
    ReachableAfter(s, t, CallSend(v), ls);
    LiveIsListed(s', i);
    SendDelivers(s, t, v, ls, Entry(i, s'.subs[i].ch));
  }

  // ---------------------------------------------------------------------------------------
  // Subscribe

  predicate Subscribes(s: State, t: Tid, ch: Chan) {
    P(s, t) == SubscribeLock(ch) || P(s, t) == SubscribeAppend(ch)
  }

  lemma {:induction false} SubscribesRun(s: State, t: Tid, ch: Chan, ls: seq<(Tid, Action)>)
    requires CanRunAll(s, ls) && Subscribes(s, t, ch)
    requires forall k :: 0 <= k < |ls| ==> ls[k] != (t, AppendToInbox)
    ensures Subscribes(RunAll(s, ls), t, ch)
    decreases |ls|
  {
    if ls != [] {
      PcsStep(s, ls[0].0, ls[0].1);
      assert forall k :: 0 <= k < |ls[1..]| ==> ls[1..][k] == ls[k + 1];
      SubscribesRun(Apply(s, ls[0].0, ls[0].1), t, ch, ls[1..]);
    }
  }

  /** Subscribe(ch), from its call to its return: it adds one live subscription of `ch`, one case
      for it at the end of the inbox, and touches nothing else. */
  lemma {:induction false} SubscribeAdds(s: State, t: Tid, ch: Chan, ls: seq<(Tid, Action)>)
    requires Enabled(s, t, CallSubscribe(ch)) && CanRunAll(Apply(s, t, CallSubscribe(ch)), ls)
    requires forall k :: 0 <= k < |ls| ==> ls[k] != (t, AppendToInbox)
    requires Enabled(RunAll(Apply(s, t, CallSubscribe(ch)), ls), t, AppendToInbox)
    ensures var s1 := RunAll(Apply(s, t, CallSubscribe(ch)), ls);
            var s2 := Apply(s1, t, AppendToInbox);
            && P(s2, t) == Idle && s2.mu == Free
            && s2.inbox == s1.inbox + [Entry(s1.next, ch)]
            && s2.subs == s1.subs[s1.next := Sub(ch, Live, false, false)] && s2.next == s1.next + 1
            && (s2.cases, s2.lock, s2.order, s2.got) == (s1.cases, s1.lock, s1.order, s1.got)
  {
    SubscribesRun(Apply(s, t, CallSubscribe(ch)), t, ch, ls);
  }

  /** From every reachable state a Subscribe can return by steps that need no subscriber. */
  lemma SubscribeCanReturn(s: State, t: Tid, ch: Chan)
    requires Reachable(s) && Subscribes(s, t, ch)
    ensures exists ls: seq<(Tid, Action)> ::
              CanRunAll(s, ls) && P(RunAll(s, ls), t) == Idle && forall k :: 0 <= k < |ls| ==> FeedTheorems.FeedStep(ls[k].1)
  {
    InvReachable(s);
    assert LocksFit(s, t);
    if P(s, t).SubscribeAppend? {
      var ls := AppendOnly(s, t);
    } else if s.mu == Free {
      var ls := LockAndAppend(s, t);
    } else {
      var u := s.mu.t;
      assert LocksFit(s, u);
      var a := FeedTheorems.LeaveMutex(s, u);
      WaitsOn(s, t, u, a);
      NeverPanics(s, u, a);
      var rest := LockAndAppend(Apply(s, u, a), t);
      RunPrepends(s, (u, a), rest);
      var ls := [(u, a)] + rest;
      assert CanRunAll(s, ls);
    }
  }

  lemma WaitsOn(s: State, t: Tid, u: Tid, a: Action)
    requires Enabled(s, u, a) && !a.Handoff? && HoldsMu(P(s, u)) && P(s, t).SubscribeLock?
    ensures P(Apply(s, u, a), t) == P(s, t)
  {
    PcsStep(s, u, a);
  }

  lemma LockAndAppend(s: State, t: Tid) returns (ls: seq<(Tid, Action)>)
    requires !s.panicked && P(s, t).SubscribeLock? && s.mu == Free
    ensures CanRunAll(s, ls) && P(RunAll(s, ls), t) == Idle
    ensures forall k :: 0 <= k < |ls| ==> FeedTheorems.FeedStep(ls[k].1)
  {
    var s' := Apply(s, t, LockForSubscribe);
    ls := AppendOnly(s', t);
    RunPrepends(s, (t, LockForSubscribe), ls);
    ls := [(t, LockForSubscribe)] + ls;
  }

  lemma AppendOnly(s: State, t: Tid) returns (ls: seq<(Tid, Action)>)
    requires !s.panicked && P(s, t).SubscribeAppend?
    ensures CanRunAll(s, ls) && P(RunAll(s, ls), t) == Idle
    ensures forall k :: 0 <= k < |ls| ==> FeedTheorems.FeedStep(ls[k].1)
  {
    var none: seq<(Tid, Action)> := [];
    RunPrepends(s, (t, AppendToInbox), none);
    ls := [(t, AppendToInbox)] + none;
  }

  // ---------------------------------------------------------------------------------------
  // Unsubscribe

  /** The goroutine is removing the subscription, or its Unsubscribe has returned. */
  predicate Unsubscribes(s: State, t: Tid, i: nat) {
    i in s.subs && (s.subs[i].closed || Removal(P(s, t)) == i)
  }

  lemma UnsubscribesStep(s: State, t: Tid, i: nat, u: Tid, a: Action)
    requires Inv(s) && Enabled(s, u, a) && Unsubscribes(s, t, i)
    ensures Unsubscribes(Apply(s, u, a), t, i)
  {
    PcsStep(s, u, a);
    RecordStep(s, u, a, i);
    RemovalStep(s, u, a);
  }

  lemma {:induction false} UnsubscribesRun(s: State, t: Tid, i: nat, ls: seq<(Tid, Action)>)
    requires Inv(s) && CanRunAll(s, ls) && Unsubscribes(s, t, i)
    ensures Unsubscribes(RunAll(s, ls), t, i)
    decreases |ls|
  {
    if ls != [] {
      UnsubscribesStep(s, t, i, ls[0].0, ls[0].1);
      InvStep(s, ls[0].0, ls[0].1);
      UnsubscribesRun(Apply(s, ls[0].0, ls[0].1), t, i, ls[1..]);
    }
  }

  /** When Unsubscribe has returned, the error channel is closed and the subscription's removal is
      done, or is what a running Send does next. */
  lemma {:induction false} UnsubscribeCloses(s: State, t: Tid, i: nat, ls: seq<(Tid, Action)>)
    requires Reachable(s) && Enabled(s, t, CallUnsubscribe(i)) && CanRunAll(Apply(s, t, CallUnsubscribe(i)), ls)
    requires P(RunAll(Apply(s, t, CallUnsubscribe(i)), ls), t) == Idle
    ensures var s' := RunAll(Apply(s, t, CallUnsubscribe(i)), ls);
            && i in s'.subs && s'.subs[i].closed && s'.subs[i].ch == s.subs[i].ch
            && (s'.subs[i].phase == Gone || HandedTo(s', i))
  {
    InvReachable(s);
    InvStep(s, t, CallUnsubscribe(i));
    UnsubscribesRun(Apply(s, t, CallUnsubscribe(i)), t, i, ls);
    ChannelRun(Apply(s, t, CallUnsubscribe(i)), i, ls);
    InvRun(Apply(s, t, CallUnsubscribe(i)), ls);
  }

  /** A subscription keeps its channel. */
  lemma {:induction false} ChannelRun(s: State, i: nat, ls: seq<(Tid, Action)>)
    requires Inv(s) && CanRunAll(s, ls) && i in s.subs
    ensures i in RunAll(s, ls).subs && RunAll(s, ls).subs[i].ch == s.subs[i].ch
    decreases |ls|
  {
    if ls != [] {
      RecordStep(s, ls[0].0, ls[0].1, i);
      InvStep(s, ls[0].0, ls[0].1);
      ChannelRun(Apply(s, ls[0].0, ls[0].1), i, ls[1..]);
    }
  }
}
