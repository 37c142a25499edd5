/** The event feed as a protocol: any number of goroutines call Subscribe, Unsubscribe and Send
    on one feed, and every access to shared state is a step of its own. */
module FeedProtocol {
  import opened CaseList

  type Tid = nat
  type Value = int

  /** Who holds a lock. For the send lock, `Free` means the token is in the channel. */
  datatype Lock = Free | HeldBy(t: Tid)

  /** A subscription's case is in the feed (Live); its removal is past the inbox check
      (Removing); its removal has been handed to a running Send (Handed); its case has been
      deleted (Gone). */
  datatype Phase = Live | Removing | Handed | Gone

  /** `once`: Unsubscribe has started. `closed`: the error channel is closed, so Unsubscribe
      returns. */
  datatype Sub = Sub(ch: Chan, phase: Phase, once: bool, closed: bool)

  datatype Pc =
    | Idle
    | SubscribeLock(ch: Chan)
    | SubscribeAppend(ch: Chan)
    | RemoveLock(sub: nat)
    | RemoveCheck(sub: nat)
    | RemoveSelect(sub: nat)
    | RemoveDelete(sub: nat)
    | RemoveRelease(sub: nat)
    | CloseErr(sub: nat)
    | SendLock(v: Value)
    | SendMu(v: Value)
    | SendMerge(v: Value)
    | Sending(v: Value, loop: Loop)

  /** The feed's fields, the goroutines, and history: `order` lists the values in the order in
      which their sends took the token, `got` what each case received, `start` the position in
      `order` of the first send that saw the case, `front` the number of leading cases that
      still wait for the last value of `order`, `due` how many subscriptions there were when the
      last send took the token. `panicked` records a run-time panic. */
  datatype State = State(
    pc: map<Tid, Pc>, lock: Lock, mu: Lock,
    inbox: seq<Case>, cases: seq<Case>,
    subs: map<nat, Sub>, next: nat, panicked: bool,
    order: seq<Value>, got: map<nat, seq<Value>>, start: map<nat, nat>, front: nat, due: nat)

  datatype Action =
    | CallSubscribe(ch: Chan)
    | LockForSubscribe
    | AppendToInbox
    | CallUnsubscribe(sub: nat)
    | LockForRemove
    | CheckInbox
    | TakeTokenToRemove
    | DeleteCase
    | ReturnToken
    | CloseErrChannel
    | CallSend(v: Value)
    | TakeToken
    | LockForSend
    | MergeInbox
    | Round(o: Outcome)
    | Handoff(u: Tid)
    | FinishSend

  function Init(): State {
    State(map[], Free, Free, [], [RemoveSub], map[], 0, false, [], map[], map[], 1, 0)
  }

  function P(s: State, t: Tid): Pc {
    if t in s.pc then s.pc[t] else Idle
  }

  function Got(s: State, id: nat): seq<Value> {
    if id in s.got then s.got[id] else []
  }

  function SubOf(s: State, i: nat): Sub {
    if i in s.subs then s.subs[i] else Sub(0, Gone, true, true)
  }

  function IdOf(c: Case): nat {
    if c.Entry? then c.id else 0
  }

  predicate HoldsToken(p: Pc) {
    p.RemoveDelete? || p.RemoveRelease? || p.SendMu? || p.SendMerge? || p.Sending?
  }

  predicate HoldsMu(p: Pc) {
    p.SubscribeAppend? || p.RemoveCheck? || p.SendMerge?
  }

  /** A step is enabled when the goroutine is at the right place and is not blocked. A second
      call of Unsubscribe never enters `remove`, so only the first one is a step. */
  predicate Enabled(s: State, t: Tid, a: Action) {
    !s.panicked &&
    match a
    case CallSubscribe(_) => P(s, t).Idle?
    case LockForSubscribe => P(s, t).SubscribeLock? && s.mu == Free
    case AppendToInbox => P(s, t).SubscribeAppend?
    case CallUnsubscribe(i) => P(s, t).Idle? && i in s.subs && !s.subs[i].once
    case LockForRemove => P(s, t).RemoveLock? && s.mu == Free
    case CheckInbox => P(s, t).RemoveCheck?
    case TakeTokenToRemove => P(s, t).RemoveSelect? && s.lock == Free
    case DeleteCase => P(s, t).RemoveDelete?
    case ReturnToken => P(s, t).RemoveRelease?
    case CloseErrChannel => P(s, t).CloseErr?
    case CallSend(_) => P(s, t).Idle?
    case TakeToken => P(s, t).SendLock? && s.lock == Free
    case LockForSend => P(s, t).SendMu? && s.mu == Free
    case MergeInbox => P(s, t).SendMerge?
    case Round(o) => P(s, t).Sending? && RoundReady(s.cases, P(s, t).loop, o)
    case Handoff(u) => P(s, t).Sending? && P(s, t).loop.at.Select? && P(s, u).RemoveSelect?
    case FinishSend => P(s, t).Sending? && P(s, t).loop.at.Finished?
  }

  /** Deleting is attempted whether or not the channel is found. */
  predicate RoundReady(cs: seq<Case>, l: Loop, o: Outcome) {
    !o.Received? && (CanStep(cs, l, o) || (o.Deleted? && l.at.Drop?))
  }

  function Goto(s: State, t: Tid, p: Pc): State {
    s.(pc := s.pc[t := p])
  }

  function SetPhase(s: State, i: nat, p: Phase): State {
    s.(subs := s.subs[i := SubOf(s, i).(phase := p)])
  }

  function Apply(s: State, t: Tid, a: Action): State
    requires Enabled(s, t, a)
  {
    match a
    case CallSubscribe(ch) => Goto(s, t, SubscribeLock(ch))
    case LockForSubscribe => Goto(s, t, SubscribeAppend(P(s, t).ch)).(mu := HeldBy(t))
    case AppendToInbox => Append(s, t)
    case CallUnsubscribe(i) => Goto(s, t, RemoveLock(i)).(subs := s.subs[i := s.subs[i].(once := true)])
    case LockForRemove => Goto(s, t, RemoveCheck(P(s, t).sub)).(mu := HeldBy(t))
    case CheckInbox => Check(s, t)
    case TakeTokenToRemove => Goto(s, t, RemoveDelete(P(s, t).sub)).(lock := HeldBy(t))
    case DeleteCase => DeleteNow(s, t)
    case ReturnToken => Goto(s, t, CloseErr(P(s, t).sub)).(lock := Free)
    case CloseErrChannel => Close(s, t)
    case CallSend(v) => Goto(s, t, SendLock(v))
    case TakeToken =>
      Goto(s, t, SendMu(P(s, t).v)).(lock := HeldBy(t), order := s.order + [P(s, t).v], front := |s.cases|, due := s.next)
    case LockForSend => Goto(s, t, SendMerge(P(s, t).v)).(mu := HeldBy(t))
    case MergeInbox => Merge(s, t)
    case Round(o) => DoRound(s, t, o)
    case Handoff(u) => Receive(s, t, u)
    case FinishSend => Goto(s, t, Idle).(lock := Free)
  }

  function Append(s: State, t: Tid): State
    requires P(s, t).SubscribeAppend?
  {
    Goto(s, t, Idle).(mu := Free, inbox := s.inbox + [Entry(s.next, P(s, t).ch)],
                      subs := s.subs[s.next := Sub(P(s, t).ch, Live, false, false)], next := s.next + 1)
  }

  /** The inbox check deletes the first case that carries the channel, which may belong to
      another subscription of the same channel. */
  function Check(s: State, t: Tid): State
    requires P(s, t).RemoveCheck?
  {
    var i := P(s, t).sub;
    var k := Find(s.inbox, SubOf(s, i).ch);
    if k != -1 then
      SetPhase(Goto(s, t, CloseErr(i)), i, Gone).(mu := Free, inbox := Delete(s.inbox, k))
    else
      SetPhase(Goto(s, t, RemoveSelect(i)), i, Removing).(mu := Free)
  }

  function DeleteNow(s: State, t: Tid): State
    requires P(s, t).RemoveDelete?
  {
    var i := P(s, t).sub;
    var k := Find(s.cases, SubOf(s, i).ch);
    if k == -1 then s.(panicked := true)
    else SetPhase(Goto(s, t, RemoveRelease(i)), i, Gone).(cases := Delete(s.cases, k))
  }

  function Close(s: State, t: Tid): State
    requires P(s, t).CloseErr?
  {
    var i := P(s, t).sub;
    if SubOf(s, i).closed then s.(panicked := true)
    else Goto(s, t, Idle).(subs := s.subs[i := SubOf(s, i).(closed := true)])
  }

  function Merge(s: State, t: Tid): State
    requires P(s, t).SendMerge?
  {
    var cs := s.cases + s.inbox;
    Goto(s, t, Sending(P(s, t).v, StartLoop(cs)))
    .(mu := Free, cases := cs, inbox := [], front := |cs|, start := NewStarts(s))
  }

  /** The cases taken from the inbox see the send that is now running first. */
  function NewStarts(s: State): map<nat, nat> {
    s.start + map i | i in Ids(s.inbox) :: if |s.order| == 0 then 0 else |s.order| - 1
  }

  function Ids(cs: seq<Case>): set<nat> {
    set c | c in cs :: IdOf(c)
  }

  function DoRound(s: State, t: Tid, o: Outcome): State
    requires P(s, t).Sending? && RoundReady(s.cases, P(s, t).loop, o)
  {
    var v, l := P(s, t).v, P(s, t).loop;
    if !CanStep(s.cases, l, o) then s.(panicked := true)
    else
      var cs, l' := NextCases(s.cases, l, o), NextLoop(s.cases, l, o);
      var h := Hit(s.cases, l, o);
      var s' := Goto(s, t, Sending(v, l')).(cases := cs, front := l'.n);
      if h > 0 then s'.(got := s.got[IdOf(s.cases[h]) := Got(s, IdOf(s.cases[h])) + [v]])
      else if o.Deleted? then SetPhase(s', l.at.sub, Gone)
      else s'
  }

  /** A waiting Unsubscribe hands its channel to the sender and goes on. */
  function Receive(s: State, t: Tid, u: Tid): State
    requires P(s, t).Sending? && P(s, t).loop.at.Select? && P(s, u).RemoveSelect?
  {
    var i := P(s, u).sub;
    var l := P(s, t).loop.(at := Drop(SubOf(s, i).ch, i));
    SetPhase(Goto(Goto(s, t, Sending(P(s, t).v, l)), u, CloseErr(i)), i, Handed)
  }

  // ---------------------------------------------------------------------------------------
  // Runs

  predicate CanRunAll(s: State, ls: seq<(Tid, Action)>)
    decreases |ls|
  {
    ls == [] || (Enabled(s, ls[0].0, ls[0].1) && CanRunAll(Apply(s, ls[0].0, ls[0].1), ls[1..]))
  }

  function RunAll(s: State, ls: seq<(Tid, Action)>): State
    requires CanRunAll(s, ls)
    decreases |ls|
  {
    if ls == [] then s else RunAll(Apply(s, ls[0].0, ls[0].1), ls[1..])
  }

  lemma RunPrepends(s: State, x: (Tid, Action), rest: seq<(Tid, Action)>)
    requires Enabled(s, x.0, x.1) && CanRunAll(Apply(s, x.0, x.1), rest)
    ensures CanRunAll(s, [x] + rest) && RunAll(s, [x] + rest) == RunAll(Apply(s, x.0, x.1), rest)
  {
    assert ([x] + rest)[1..] == rest;
  }

  lemma {:induction false} RunsCompose(s: State, ls: seq<(Tid, Action)>, ms: seq<(Tid, Action)>)
    requires CanRunAll(s, ls) && CanRunAll(RunAll(s, ls), ms)
    ensures CanRunAll(s, ls + ms) && RunAll(s, ls + ms) == RunAll(RunAll(s, ls), ms)
    decreases |ls|, 0
  {
    if ls == [] {
      assert ls + ms == ms;
    } else {
      StepComposes(s, ls[0], ls[1..], ms);
      assert ls + ms == [ls[0]] + (ls[1..] + ms);
    }
  }

  lemma {:induction false} StepComposes(s: State, x: (Tid, Action), rest: seq<(Tid, Action)>, ms: seq<(Tid, Action)>)
    requires Enabled(s, x.0, x.1) && CanRunAll(Apply(s, x.0, x.1), rest) && CanRunAll(RunAll(Apply(s, x.0, x.1), rest), ms)
    ensures CanRunAll(s, [x] + (rest + ms))
    ensures RunAll(s, [x] + (rest + ms)) == RunAll(RunAll(Apply(s, x.0, x.1), rest), ms)
    decreases |rest|, 1
  {
    RunsCompose(Apply(s, x.0, x.1), rest, ms);
    RunPrepends(s, x, rest + ms);
  }

  ghost predicate Reachable(s: State) {
    exists ls :: CanRunAll(Init(), ls) && RunAll(Init(), ls) == s
  }

  // ---------------------------------------------------------------------------------------
  // The invariant

  ghost predicate LocksInv(s: State) {
    forall t: Tid :: LocksFit(s, t)
  }

  /** A goroutine holds the token, or the mutex, exactly where its program counter says so. */
  predicate LocksFit(s: State, t: Tid) {
    && (HoldsToken(P(s, t)) <==> s.lock == HeldBy(t))
    && (HoldsMu(P(s, t)) <==> s.mu == HeldBy(t))
  }

  /** The two case lists hold different cases, each stamped with the channel of the
      subscription that created it. */
  ghost predicate ListsInv(s: State) {
    && WellFormed(s.cases) && Distinct(s.cases) && Distinct(s.inbox)
    && (forall c :: c in s.inbox ==> c.Entry? && c !in s.cases)
    && (forall c :: c in s.cases || c in s.inbox ==> c.Entry? ==> c.id in s.subs && s.subs[c.id].ch == c.ch)
    && (forall i :: i in s.subs ==> i < s.next)
  }

  /** The subscription whose removal a goroutine is executing, or -1. */
  function Removal(p: Pc): int {
    match p
    case RemoveLock(i) => i
    case RemoveCheck(i) => i
    case RemoveSelect(i) => i
    case RemoveDelete(i) => i
    case RemoveRelease(i) => i
    case CloseErr(i) => i
    case _ => -1
  }

  predicate PhaseFits(p: Pc, x: Sub) {
    x.once && !x.closed &&
    match p
    case RemoveLock(_) => x.phase == Live
    case RemoveCheck(_) => x.phase == Live
    case RemoveSelect(_) => x.phase == Removing
    case RemoveDelete(_) => x.phase == Removing
    case RemoveRelease(_) => x.phase == Gone
    case CloseErr(_) => x.phase == Gone || x.phase == Handed
    case _ => true
  }

  /** At most one goroutine removes a subscription, its place fits the phase, and a removal
      handed to a sender is the one that sender is about to delete. */
  ghost predicate SubsInv(s: State) {
    && (forall t: Tid :: Removal(P(s, t)) >= 0 ==> Removal(P(s, t)) in s.subs && PhaseFits(P(s, t), s.subs[Removal(P(s, t))]))
    && (forall t: Tid, u: Tid :: Removal(P(s, t)) >= 0 && Removal(P(s, t)) == Removal(P(s, u)) ==> t == u)
    && (forall t: Tid :: P(s, t).Sending? && P(s, t).loop.at.Drop? ==> DropFits(s, P(s, t).loop.at))
    && (forall i :: i in s.subs && s.subs[i].phase == Handed ==> HandedTo(s, i))
    && (forall i :: i in s.subs && !s.subs[i].once ==> s.subs[i].phase == Live && !s.subs[i].closed)
    && (forall i :: i in s.subs && s.subs[i].closed ==> s.subs[i].phase == Handed || s.subs[i].phase == Gone)
  }

  predicate DropFits(s: State, at: At)
    requires at.Drop?
  {
    at.sub in s.subs && s.subs[at.sub].phase == Handed && s.subs[at.sub].ch == at.ch
  }

  predicate HandedTo(s: State, i: nat) {
    && s.lock.HeldBy?
    && P(s, s.lock.t).Sending? && P(s, s.lock.t).loop.at.Drop? && P(s, s.lock.t).loop.at.sub == i
  }

  function CasesOf(cs: seq<Case>, ch: Chan): set<Case> {
    set c | c in cs && Carries(c, ch)
  }

  /** Subscriptions of `ch` whose case has not been deleted, and those among them whose removal
      is past the inbox check. */
  function Counted(subs: map<nat, Sub>, ch: Chan): set<nat> {
    set i | i in subs && subs[i].ch == ch && subs[i].phase != Gone
  }

  function Leaving(subs: map<nat, Sub>, ch: Chan): set<nat> {
    set i | i in subs && subs[i].ch == ch && (subs[i].phase == Removing || subs[i].phase == Handed)
  }

  ghost predicate CountInv(s: State) {
    forall ch: Chan :: CountsFit(s, ch)
  }

  ghost predicate CountsFit(s: State, ch: Chan) {
    && |CasesOf(s.inbox, ch)| + |CasesOf(s.cases, ch)| == |Counted(s.subs, ch)|
    && |CasesOf(s.cases, ch)| >= |Leaving(s.subs, ch)|
  }

  /** `g` is the stretch of `order` that begins at `a`. */
  predicate Segment(g: seq<Value>, order: seq<Value>, a: nat) {
    a + |g| <= |order| && g == order[a..a + |g|]
  }

  /** Where the token holder is says how many cases still wait for the last value. */
  ghost predicate FrontInv(s: State) {
    && 1 <= s.front <= |s.cases|
    && (s.lock == Free ==> s.front == 1)
    && (s.front > 1 ==> |s.order| > 0)
    && forall t: Tid :: FrontFits(s, P(s, t))
  }

  ghost predicate FrontFits(s: State, p: Pc) {
    match p
    case RemoveDelete(_) => s.front == 1
    case RemoveRelease(_) => s.front == 1
    case SendMu(v) => s.front == |s.cases| && 0 < |s.order| && s.order[|s.order| - 1] == v
    case SendMerge(v) => s.front == |s.cases| && 0 < |s.order| && s.order[|s.order| - 1] == v
    case Sending(v, l) => s.front == l.n && LoopInv(s.cases, l) && 0 < |s.order| && s.order[|s.order| - 1] == v
    case _ => true
  }

  /** Every case in the list has received every value since its start, except that those before
      `front` still miss the last one. */
  ghost predicate HistoryInv(s: State) {
    && (forall j :: 0 < j < |s.cases| ==> UpTo(s, IdOf(s.cases[j]), |s.order| - if j < s.front then 1 else 0))
    && (forall i :: i in s.start ==> Segment(Got(s, i), s.order, s.start[i]))
    && (forall i :: i !in s.start ==> Got(s, i) == [])
    && (forall c :: c in s.inbox ==> IdOf(c) !in s.start)
    && (forall i :: i in s.start ==> i in s.subs && s.start[i] < |s.order|)
  }

  predicate UpTo(s: State, id: nat, n: int) {
    id in s.start && s.start[id] + |Got(s, id)| == n
  }

  ghost predicate Inv(s: State) {
    !s.panicked && LocksInv(s) && ListsInv(s) && SubsInv(s) && CountInv(s) && FrontInv(s) && HistoryInv(s)
  }

  lemma InvInit()
    ensures Inv(Init())
  {
    assert forall ch: Chan :: CasesOf([RemoveSub], ch) == {} && CasesOf([], ch) == {};
    assert forall ch: Chan :: Counted(map[], ch) == {} && Leaving(map[], ch) == {};
  }

  /** What a step does to the program counters: only the acting goroutine moves, and the one it
      receives a removal from. */
  lemma PcsStep(s: State, t: Tid, a: Action)
    requires Enabled(s, t, a)
    ensures forall u: Tid :: u != t && !(a.Handoff? && u == a.u) ==> P(Apply(s, t, a), u) == P(s, u)
    ensures a.Handoff? ==> t != a.u && P(Apply(s, t, a), a.u) == CloseErr(P(s, a.u).sub)
    ensures a.Handoff? || a.Round? ==> P(Apply(s, t, a), t).Sending? && Apply(s, t, a).lock == s.lock && Apply(s, t, a).mu == s.mu
  {
    if UnderMutex(a) {
      PcsUnderMutex(s, t, a);
    }
  }

  /** The steps of Subscribe and of the part of `remove` up to the inbox check. */
  predicate UnderMutex(a: Action) {
    a.CallSubscribe? || a.LockForSubscribe? || a.AppendToInbox? || a.CallUnsubscribe? || a.LockForRemove? || a.CheckInbox?
  }

  lemma PcsUnderMutex(s: State, t: Tid, a: Action)
    requires Enabled(s, t, a) && UnderMutex(a)
    ensures forall u: Tid :: u != t ==> P(Apply(s, t, a), u) == P(s, u)
  {
  }

  lemma LocksOfActor(s: State, t: Tid, a: Action)
    requires LocksFit(s, t) && Enabled(s, t, a)
    ensures var s' := Apply(s, t, a);
            && LocksFit(s', t)
            && (s'.lock == s.lock || (s.lock == Free && s'.lock == HeldBy(t)) || (s.lock == HeldBy(t) && s'.lock == Free))
            && (s'.mu == s.mu || (s.mu == Free && s'.mu == HeldBy(t)) || (s.mu == HeldBy(t) && s'.mu == Free))
  {
    if a.Round? || a.Handoff? {
      PcsStep(s, t, a);
    } else if UnderMutex(a) {
      LocksOfList(s, t, a);
    }
  }

  lemma LocksOfList(s: State, t: Tid, a: Action)
    requires LocksFit(s, t) && Enabled(s, t, a) && UnderMutex(a)
    ensures LocksFit(Apply(s, t, a), t) && Apply(s, t, a).lock == s.lock
    ensures var s' := Apply(s, t, a);
            s'.mu == s.mu || (s.mu == Free && s'.mu == HeldBy(t)) || (s.mu == HeldBy(t) && s'.mu == Free)
  {
  }

  lemma LocksStep(s: State, t: Tid, a: Action)
    requires LocksInv(s) && Enabled(s, t, a)
    ensures LocksInv(Apply(s, t, a))
  {
    var s' := Apply(s, t, a);
    PcsStep(s, t, a);
    assert LocksFit(s, t);
    LocksOfActor(s, t, a);
    forall u: Tid
      ensures LocksFit(s', u)
    {
      assert LocksFit(s, u);
    }
  }

  lemma DeleteKeeps(cs: seq<Case>, k: nat)
    requires k < |cs| && Distinct(cs)
    ensures Distinct(Delete(cs, k))
    ensures forall c :: c in Delete(cs, k) <==> c in cs && c != cs[k]
  {
    forall c | c in cs && c != cs[k]
      ensures c in Delete(cs, k)
    {
      var j :| 0 <= j < |cs| && cs[j] == c;
      assert Delete(cs, k)[if j < k then j else j - 1] == c;
    }
  }

  lemma DeactivateKeeps(cs: seq<Case>, n: nat, i: nat)
    requires i < n <= |cs| && Distinct(cs)
    ensures Distinct(Deactivate(cs, n, i))
    ensures forall c :: c in Deactivate(cs, n, i) <==> c in cs
  {
    var ds := Deactivate(cs, n, i);
    assert ds[i] == cs[n - 1] && ds[n - 1] == cs[i];
    forall c | c in cs
      ensures c in ds
    {
      var j :| 0 <= j < |cs| && cs[j] == c;
      assert ds[if j == i then n - 1 else if j == n - 1 then i else j] == c;
    }
  }

  /** `s'` lists only cases of `s`, and subscriptions keep their channel. */
  ghost predicate Shrunk(s: State, s': State) {
    && WellFormed(s'.cases) && Distinct(s'.cases) && Distinct(s'.inbox)
    && (forall c :: c in s'.cases ==> c in s.cases)
    && (forall c :: c in s'.inbox ==> c in s.inbox)
    && s'.next == s.next && s'.subs.Keys == s.subs.Keys
    && (forall i :: i in s.subs ==> s'.subs[i].ch == s.subs[i].ch)
  }

  lemma ListsStep(s: State, t: Tid, a: Action)
    requires ListsInv(s) && SubsInv(s) && FrontInv(s) && Enabled(s, t, a)
    ensures ListsInv(Apply(s, t, a))
  {
    if a.AppendToInbox? {
      ListsAppend(s, t);
    } else if a.MergeInbox? {
      ListsMerge(s, t);
    } else {
      ListsShrink(s, t, a);
      ShrunkKeeps(s, Apply(s, t, a));
    }
  }

  lemma ShrunkKeeps(s: State, s': State)
    requires ListsInv(s) && Shrunk(s, s')
    ensures ListsInv(s')
  {
  }

  lemma ListsShrink(s: State, t: Tid, a: Action)
    requires ListsInv(s) && SubsInv(s) && FrontInv(s) && Enabled(s, t, a)
    requires !a.AppendToInbox? && !a.MergeInbox?
    ensures Shrunk(s, Apply(s, t, a))
  {
    if a.CheckInbox? {
      ShrinkInbox(s, t);
    } else if a.DeleteCase? {
      ShrinkCases(s, t);
    } else if a.Round? {
      ListsRound(s, t, a.o);
    } else {
      assert Removal(P(s, t)) >= 0 ==> Removal(P(s, t)) in s.subs;
      assert a.Handoff? ==> Removal(P(s, a.u)) in s.subs;
      assert Apply(s, t, a).cases == s.cases && Apply(s, t, a).inbox == s.inbox;
    }
  }

  lemma ShrinkInbox(s: State, t: Tid)
    requires ListsInv(s) && SubsInv(s) && Enabled(s, t, CheckInbox)
    ensures Shrunk(s, Apply(s, t, CheckInbox))
  {
    assert P(s, t).sub in s.subs;
    var k := Find(s.inbox, SubOf(s, P(s, t).sub).ch);
    if k != -1 {
      DeleteKeeps(s.inbox, k);
    }
  }

  lemma ShrinkCases(s: State, t: Tid)
    requires ListsInv(s) && SubsInv(s) && FrontInv(s) && Enabled(s, t, DeleteCase)
    ensures Shrunk(s, Apply(s, t, DeleteCase))
  {
    assert P(s, t).sub in s.subs;
    var k := Find(s.cases, SubOf(s, P(s, t).sub).ch);
    if k != -1 {
      DeleteKeeps(s.cases, k);
      DeleteKeepsShape(s.cases, k);
    }
  }

  lemma RoundCases(cs: seq<Case>, l: Loop, o: Outcome)
    requires WellFormed(cs) && Distinct(cs) && CanStep(cs, l, o)
    ensures var ds := NextCases(cs, l, o); WellFormed(ds) && Distinct(ds) && forall c :: c in ds ==> c in cs
    ensures !o.Deleted? ==> forall c :: c in cs ==> c in NextCases(cs, l, o)
  {
    var h := Hit(cs, l, o);
    if h > 0 {
      DeactivateKeeps(cs, l.n, h);
      DeactivateKeepsShape(cs, l.n, h);
    } else if o.Deleted? {
      DeleteKeeps(cs, Find(cs, l.at.ch));
      DeleteKeepsShape(cs, Find(cs, l.at.ch));
    }
  }

  lemma ListsRound(s: State, t: Tid, o: Outcome)
    requires ListsInv(s) && SubsInv(s) && Enabled(s, t, Round(o))
    ensures Shrunk(s, Apply(s, t, Round(o)))
  {
    if CanStep(s.cases, P(s, t).loop, o) {
      RoundCases(s.cases, P(s, t).loop, o);
      assert o.Deleted? ==> DropFits(s, P(s, t).loop.at);
    }
  }

  lemma ListsAppend(s: State, t: Tid)
    requires ListsInv(s) && Enabled(s, t, AppendToInbox)
    ensures ListsInv(Apply(s, t, AppendToInbox))
  {
    var s' := Apply(s, t, AppendToInbox);
    var c := Entry(s.next, P(s, t).ch);
    assert c !in s.cases && c !in s.inbox;
    assert forall d :: d in s'.inbox ==> d in s.inbox || d == c;
  }

  lemma ListsMerge(s: State, t: Tid)
    requires ListsInv(s) && Enabled(s, t, MergeInbox)
    ensures ListsInv(Apply(s, t, MergeInbox))
  {
    var s' := Apply(s, t, MergeInbox);
    assert forall d :: d in s'.cases ==> d in s.inbox || d in s.cases;
    forall i, j | 0 <= i < j < |s'.cases|
      ensures s'.cases[i] != s'.cases[j]
    {
      if i < |s.cases| <= j {
        assert s'.cases[j] in s.inbox;
      }
    }
  }

  /** The removal a goroutine executes changes only when it starts or ends one. */
  lemma RemovalStep(s: State, t: Tid, a: Action)
    requires Enabled(s, t, a)
    ensures var r, r' := Removal(P(s, t)), Removal(P(Apply(s, t, a), t));
            if a.CallUnsubscribe? then r == -1 && r' == a.sub
            else r' == r || (r' == -1 && a.CloseErrChannel?)
    ensures a.Handoff? ==> Removal(P(Apply(s, t, a), a.u)) == Removal(P(s, a.u))
  {
    PcsStep(s, t, a);
    if UnderMutex(a) {
      RemovalUnderMutex(s, t, a);
    }
  }

  lemma RemovalUnderMutex(s: State, t: Tid, a: Action)
    requires Enabled(s, t, a) && UnderMutex(a)
    ensures var r, r' := Removal(P(s, t)), Removal(P(Apply(s, t, a), t));
            if a.CallUnsubscribe? then r == -1 && r' == a.sub else r' == r
  {
  }

  lemma OwnersStep(s: State, t: Tid, a: Action)
    requires SubsInv(s) && Enabled(s, t, a)
    ensures forall x: Tid, y: Tid :: Removal(P(Apply(s, t, a), x)) >= 0 && Removal(P(Apply(s, t, a), x)) == Removal(P(Apply(s, t, a), y)) ==> x == y
  {
    var s' := Apply(s, t, a);
    PcsStep(s, t, a);
    RemovalStep(s, t, a);
    assert forall x: Tid :: Removal(P(s', x)) == Removal(P(s, x)) || x == t;
    forall x: Tid, y: Tid | Removal(P(s', x)) >= 0 && Removal(P(s', x)) == Removal(P(s', y))
      ensures x == y
    {
      if a.CallUnsubscribe? {
        assert Removal(P(s, x)) != a.sub && Removal(P(s, y)) != a.sub;
      }
    }
  }

  /** How a step changes the record of one subscription. */
  predicate SubMoves(s: State, t: Tid, a: Action, i: nat, x: Sub, x': Sub)
    requires Enabled(s, t, a)
  {
    x'.ch == x.ch &&
    match a
    case CallUnsubscribe(j) => x' == if i == j then x.(once := true) else x
    case CheckInbox => x' == if i == P(s, t).sub then x.(phase := if Find(s.inbox, SubOf(s, P(s, t).sub).ch) == -1 then Removing else Gone) else x
    case DeleteCase => x' == x || (i == P(s, t).sub && x' == x.(phase := Gone))
    case CloseErrChannel => x' == if i == P(s, t).sub then x.(closed := true) else x
    case Round(o) => x' == if o.Deleted? && CanStep(s.cases, P(s, t).loop, o) && i == P(s, t).loop.at.sub then x.(phase := Gone) else x
    case Handoff(u) => x' == if i == P(s, u).sub then x.(phase := Handed) else x
    case _ => x' == x
  }

  lemma RecordKeys(s: State, t: Tid, a: Action)
    requires SubsInv(s) && ListsInv(s) && Enabled(s, t, a)
    ensures Apply(s, t, a).subs.Keys == s.subs.Keys + if a.AppendToInbox? then {s.next} else {}
    ensures a.AppendToInbox? ==> s.next !in s.subs && Apply(s, t, a).subs[s.next] == Sub(P(s, t).ch, Live, false, false)
  {
    if a.Round? {
      assert P(s, t).loop.at.Drop? ==> DropFits(s, P(s, t).loop.at);
      KeysOfRound(s, t, a.o);
    } else {
      assert Removal(P(s, t)) >= 0 ==> Removal(P(s, t)) in s.subs;
      assert a.Handoff? ==> Removal(P(s, a.u)) in s.subs;
      assert a.AppendToInbox? ==> s.next !in s.subs;
      KeysOfRest(s, t, a);
    }
  }

  lemma KeysOfRound(s: State, t: Tid, o: Outcome)
    requires Enabled(s, t, Round(o)) && (P(s, t).loop.at.Drop? ==> P(s, t).loop.at.sub in s.subs)
    ensures DoRound(s, t, o).subs.Keys == s.subs.Keys
  {
  }

  lemma KeysOfRest(s: State, t: Tid, a: Action)
    requires Enabled(s, t, a) && !a.Round?
    requires Removal(P(s, t)) >= 0 ==> Removal(P(s, t)) in s.subs
    requires a.Handoff? ==> P(s, a.u).sub in s.subs
    ensures Apply(s, t, a).subs.Keys == s.subs.Keys + if a.AppendToInbox? then {s.next} else {}
    ensures a.AppendToInbox? ==> Apply(s, t, a).subs[s.next] == Sub(P(s, t).ch, Live, false, false)
  {
    if UnderMutex(a) {
      KeysUnderMutex(s, t, a);
    } else if a.Handoff? {
      KeysOfUpdate(s.subs, P(s, a.u).sub, Apply(s, t, a).subs);
    } else if Apply(s, t, a).subs != s.subs {
      KeysOfUpdate(s.subs, P(s, t).sub, Apply(s, t, a).subs);
    }
  }

  lemma KeysOfUpdate(subs: map<nat, Sub>, i: nat, subs': map<nat, Sub>)
    requires i in subs && i in subs' && subs' == subs[i := subs'[i]]
    ensures subs'.Keys == subs.Keys
  {
  }

  lemma KeysUnderMutex(s: State, t: Tid, a: Action)
    requires Enabled(s, t, a) && UnderMutex(a)
    requires Removal(P(s, t)) >= 0 ==> Removal(P(s, t)) in s.subs
    ensures Apply(s, t, a).subs.Keys == s.subs.Keys + if a.AppendToInbox? then {s.next} else {}
    ensures a.AppendToInbox? ==> Apply(s, t, a).subs[s.next] == Sub(P(s, t).ch, Live, false, false)
  {
  }

  lemma RecordStep(s: State, t: Tid, a: Action, i: nat)
    requires SubsInv(s) && ListsInv(s) && Enabled(s, t, a) && i in s.subs
    ensures i in Apply(s, t, a).subs && SubMoves(s, t, a, i, s.subs[i], Apply(s, t, a).subs[i])
  {
    RecordKeys(s, t, a);
    if a.Round? {
      RecordRound(s, t, a.o, i);
    } else if UnderMutex(a) {
      RecordUnderMutex(s, t, a, i);
    }
  }

  lemma RecordUnderMutex(s: State, t: Tid, a: Action, i: nat)
    requires Enabled(s, t, a) && UnderMutex(a) && i in s.subs && i in Apply(s, t, a).subs
    requires a.AppendToInbox? ==> s.next !in s.subs
    requires Removal(P(s, t)) >= 0 ==> Removal(P(s, t)) in s.subs
    ensures SubMoves(s, t, a, i, s.subs[i], Apply(s, t, a).subs[i])
  {
  }

  lemma RecordRound(s: State, t: Tid, o: Outcome, i: nat)
    requires SubsInv(s) && Enabled(s, t, Round(o)) && i in s.subs
    ensures i in DoRound(s, t, o).subs && SubMoves(s, t, Round(o), i, s.subs[i], DoRound(s, t, o).subs[i])
  {
    if o.Deleted? && CanStep(s.cases, P(s, t).loop, o) {
      assert DropFits(s, P(s, t).loop.at);
    }
  }

  lemma SubsStep(s: State, t: Tid, a: Action)
    requires SubsInv(s) && LocksInv(s) && ListsInv(s) && Enabled(s, t, a)
    ensures SubsInv(Apply(s, t, a))
  {
    var s' := Apply(s, t, a);
    PcsStep(s, t, a);
    OwnersStep(s, t, a);
    forall u: Tid | Removal(P(s', u)) >= 0
      ensures Removal(P(s', u)) in s'.subs && PhaseFits(P(s', u), s'.subs[Removal(P(s', u))])
    {
      FitsStep(s, t, a, u);
    }
    forall u: Tid | P(s', u).Sending? && P(s', u).loop.at.Drop?
      ensures DropFits(s', P(s', u).loop.at)
    {
      DropStep(s, t, a, u);
    }
    forall i | i in s'.subs
      ensures s'.subs[i].phase == Handed ==> HandedTo(s', i)
      ensures !s'.subs[i].once ==> s'.subs[i].phase == Live && !s'.subs[i].closed
      ensures s'.subs[i].closed ==> s'.subs[i].phase == Handed || s'.subs[i].phase == Gone
    {
      PhaseStep(s, t, a, i);
    }
  }

  lemma FitsStep(s: State, t: Tid, a: Action, u: Tid)
    requires SubsInv(s) && ListsInv(s) && Enabled(s, t, a) && Removal(P(Apply(s, t, a), u)) >= 0
    ensures var s' := Apply(s, t, a);
            Removal(P(s', u)) in s'.subs && PhaseFits(P(s', u), s'.subs[Removal(P(s', u))])
  {
    PcsStep(s, t, a);
    RemovalStep(s, t, a);
    if u != t && !(a.Handoff? && u == a.u) {
      FitsOfOther(s, t, a, u);
    } else {
      var i := Removal(P(Apply(s, t, a), u));
      assert Removal(P(s, u)) >= 0 ==> Removal(P(s, u)) in s.subs && PhaseFits(P(s, u), s.subs[Removal(P(s, u))]);
      FitsOfActor(s, t, a, u, i);
    }
  }

  lemma FitsOfOther(s: State, t: Tid, a: Action, u: Tid)
    requires SubsInv(s) && ListsInv(s) && Enabled(s, t, a) && u != t && !(a.Handoff? && u == a.u)
    requires P(Apply(s, t, a), u) == P(s, u) && Removal(P(s, u)) >= 0
    ensures var i := Removal(P(s, u)); i in Apply(s, t, a).subs && PhaseFits(P(s, u), Apply(s, t, a).subs[i])
  {
    var i := Removal(P(s, u));
    assert i in s.subs && PhaseFits(P(s, u), s.subs[i]);
    RecordStep(s, t, a, i);
    assert P(s, t).Sending? && P(s, t).loop.at.Drop? ==> DropFits(s, P(s, t).loop.at);
    assert Removal(P(s, t)) != i && (a.Handoff? ==> Removal(P(s, a.u)) != i);
    LeftAlone(s, t, a, i, s.subs[i], Apply(s, t, a).subs[i]);
  }

  /** A step of another goroutine does not change a record it is not removing, but a sender may
      complete a removal it was handed. */
  lemma LeftAlone(s: State, t: Tid, a: Action, i: nat, x: Sub, x': Sub)
    requires Enabled(s, t, a) && SubMoves(s, t, a, i, x, x') && x.once && Removal(P(s, t)) != i
    requires P(s, t).Sending? && P(s, t).loop.at.Drop? && P(s, t).loop.at.sub == i ==> x.phase == Handed
    requires a.Handoff? ==> P(s, a.u).sub != i
    ensures x' == x || (x.phase == Handed && x' == x.(phase := Gone))
  {
  }

  lemma FitsOfActor(s: State, t: Tid, a: Action, u: Tid, i: nat)
    requires SubsInv(s) && ListsInv(s) && Enabled(s, t, a) && (u == t || (a.Handoff? && u == a.u))
    requires P(Apply(s, t, a), u) != Idle && Removal(P(Apply(s, t, a), u)) == i
    requires if a.CallUnsubscribe? then i == a.sub else Removal(P(s, u)) == i && i in s.subs && PhaseFits(P(s, u), s.subs[i])
    ensures i in Apply(s, t, a).subs && PhaseFits(P(Apply(s, t, a), u), Apply(s, t, a).subs[i])
  {
    if a.CallUnsubscribe? {
      assert !s.subs[i].once;
    }
    RecordStep(s, t, a, i);
  }

  lemma DropStep(s: State, t: Tid, a: Action, u: Tid)
    requires SubsInv(s) && LocksInv(s) && ListsInv(s) && Enabled(s, t, a)
    requires var p := P(Apply(s, t, a), u); p.Sending? && p.loop.at.Drop?
    ensures DropFits(Apply(s, t, a), P(Apply(s, t, a), u).loop.at)
  {
    PcsStep(s, t, a);
    if u == t && a.Handoff? {
      RecordStep(s, t, a, P(s, a.u).sub);
    } else {
      DropSource(s, t, a, u);
      var i := P(s, u).loop.at.sub;
      assert DropFits(s, P(s, u).loop.at);
      assert Removal(P(s, t)) == i ==> PhaseFits(P(s, t), s.subs[i]);
      RecordStep(s, t, a, i);
      assert LocksFit(s, u) && LocksFit(s, t);
      DropOfRest(s, t, a, u, i);
    }
  }

  /** Only receiving a removal leads a sender to deleting. */
  lemma DropSource(s: State, t: Tid, a: Action, u: Tid)
    requires Enabled(s, t, a) && !(u == t && a.Handoff?)
    requires var p := P(Apply(s, t, a), u); p.Sending? && p.loop.at.Drop?
    ensures P(Apply(s, t, a), u) == P(s, u)
  {
    PcsStep(s, t, a);
    if UnderMutex(a) {
      NotSendingUnderMutex(s, t, a);
    } else if a.Round? {
      RoundNeverDrops(s, t, a.o);
    }
  }

  lemma RoundNeverDrops(s: State, t: Tid, o: Outcome)
    requires Enabled(s, t, Round(o))
    ensures var p := P(DoRound(s, t, o), t); p.Sending? && p.loop.at.Drop? ==> p == P(s, t)
  {
  }

  lemma NotSendingUnderMutex(s: State, t: Tid, a: Action)
    requires Enabled(s, t, a) && UnderMutex(a)
    ensures !P(Apply(s, t, a), t).Sending?
  {
  }

  lemma DropOfRest(s: State, t: Tid, a: Action, u: Tid, i: nat)
    requires Enabled(s, t, a) && LocksFit(s, t) && LocksFit(s, u)
    requires P(s, u).Sending? && P(s, u).loop.at.Drop? && P(Apply(s, t, a), u) == P(s, u) && P(s, u).loop.at.sub == i
    requires i in s.subs && s.subs[i].phase == Handed && (Removal(P(s, t)) == i ==> P(s, t).CloseErr?)
    requires i in Apply(s, t, a).subs && SubMoves(s, t, a, i, s.subs[i], Apply(s, t, a).subs[i])
    ensures Apply(s, t, a).subs[i].phase == Handed && Apply(s, t, a).subs[i].ch == s.subs[i].ch
  {
    if a.Round? && a.o.Deleted? && CanStep(s.cases, P(s, t).loop, a.o) {
      assert false;
    }
    HandedStays(s, t, a, i, s.subs[i], Apply(s, t, a).subs[i]);
  }

  lemma HandedStays(s: State, t: Tid, a: Action, i: nat, x: Sub, x': Sub)
    requires Enabled(s, t, a) && SubMoves(s, t, a, i, x, x') && x.phase == Handed
    requires Removal(P(s, t)) == i ==> P(s, t).CloseErr?
    requires !(a.Round? && a.o.Deleted? && CanStep(s.cases, P(s, t).loop, a.o))
    ensures x'.phase == Handed
  {
  }

  lemma PhaseStep(s: State, t: Tid, a: Action, i: nat)
    requires SubsInv(s) && LocksInv(s) && ListsInv(s) && Enabled(s, t, a) && i in Apply(s, t, a).subs
    ensures var s' := Apply(s, t, a);
            && (s'.subs[i].phase == Handed ==> HandedTo(s', i))
            && (!s'.subs[i].once ==> s'.subs[i].phase == Live && !s'.subs[i].closed)
            && (s'.subs[i].closed ==> s'.subs[i].phase == Handed || s'.subs[i].phase == Gone)
  {
    var s' := Apply(s, t, a);
    PcsStep(s, t, a);
    RecordKeys(s, t, a);
    if i in s.subs {
      RecordStep(s, t, a, i);
      if s'.subs[i].phase == Handed {
        HandedStep(s, t, a, i);
      }
      assert Removal(P(s, t)) >= 0 ==> Removal(P(s, t)) in s.subs && PhaseFits(P(s, t), s.subs[Removal(P(s, t))]);
    }
  }

  lemma HandedStep(s: State, t: Tid, a: Action, i: nat)
    requires SubsInv(s) && LocksInv(s) && ListsInv(s) && Enabled(s, t, a) && i in s.subs
    requires i in Apply(s, t, a).subs && Apply(s, t, a).subs[i].phase == Handed
    ensures HandedTo(Apply(s, t, a), i)
  {
    if s.subs[i].phase == Handed {
      StillHanded(s, t, a, i);
    } else {
      RecordStep(s, t, a, i);
      PcsStep(s, t, a);
      assert LocksFit(s, t) && a.Handoff?;
    }
  }

  lemma StillHanded(s: State, t: Tid, a: Action, i: nat)
    requires SubsInv(s) && LocksInv(s) && ListsInv(s) && Enabled(s, t, a) && i in s.subs && s.subs[i].phase == Handed
    requires i in Apply(s, t, a).subs && Apply(s, t, a).subs[i].phase == Handed
    ensures HandedTo(Apply(s, t, a), i)
  {
    RecordStep(s, t, a, i);
    PcsStep(s, t, a);
    assert LocksFit(s, t);
    assert HandedTo(s, i);
    assert !a.Handoff?;
    if s.lock.t == t {
      assert a.Round? && a.o.Deleted?;
    } else {
      assert P(Apply(s, t, a), s.lock.t) == P(s, s.lock.t) && Apply(s, t, a).lock == s.lock;
    }
  }

  lemma SubsetCard<T>(a: set<T>, b: set<T>)
    requires a <= b
    ensures |a| <= |b|
  {
    assert |b| == |a| + |b - a| by {
      assert b == a + (b - a);
    }
  }

  lemma CountStep(s: State, t: Tid, a: Action, ch: Chan)
    requires Inv(s) && Enabled(s, t, a)
    ensures CountsFit(Apply(s, t, a), ch)
  {
    assert CountsFit(s, ch);
    match a
    case AppendToInbox => CountAppend(s, t, ch);
    case CheckInbox => CountCheck(s, t, ch);
    case DeleteCase => CountDelete(s, t, ch);
    case MergeInbox => CountMerge(s, t, ch);
    case Round(o) => CountRound(s, t, o, ch);
    case _ =>
      var s' := Apply(s, t, a);
      SameCounts(s, t, a, ch);
      assert s'.inbox == s.inbox && s'.cases == s.cases;
  }

  /** Steps that delete no case and start no removal leave the counted subscriptions alone. */
  lemma SameCounts(s: State, t: Tid, a: Action, ch: Chan)
    requires SubsInv(s) && ListsInv(s) && Enabled(s, t, a)
    requires !a.AppendToInbox? && !a.CheckInbox? && !a.DeleteCase? && !(a.Round? && a.o.Deleted?)
    ensures Counted(Apply(s, t, a).subs, ch) == Counted(s.subs, ch) && Leaving(Apply(s, t, a).subs, ch) == Leaving(s.subs, ch)
  {
    var s' := Apply(s, t, a);
    RecordKeys(s, t, a);
    assert a.Handoff? ==> PhaseFits(P(s, a.u), s.subs[Removal(P(s, a.u))]);
    forall i | i in s.subs
      ensures s'.subs[i].ch == s.subs[i].ch
      ensures s'.subs[i].phase == s.subs[i].phase || (s.subs[i].phase == Removing && s'.subs[i].phase == Handed)
    {
      RecordStep(s, t, a, i);
    }
    SameCounted(s.subs, s'.subs, ch);
  }

  lemma SameCounted(subs: map<nat, Sub>, subs': map<nat, Sub>, ch: Chan)
    requires subs'.Keys == subs.Keys
    requires forall i :: i in subs ==> subs'[i].ch == subs[i].ch
    requires forall i :: i in subs ==> subs'[i].phase == subs[i].phase || (subs[i].phase == Removing && subs'[i].phase == Handed)
    ensures Counted(subs', ch) == Counted(subs, ch) && Leaving(subs', ch) == Leaving(subs, ch)
  {
  }

  lemma CasesAfterAppend(cs: seq<Case>, c: Case, ch: Chan)
    requires c !in cs && c.Entry?
    ensures |CasesOf(cs + [c], ch)| == |CasesOf(cs, ch)| + if c.ch == ch then 1 else 0
  {
    assert CasesOf(cs + [c], ch) == CasesOf(cs, ch) + if c.ch == ch then {c} else {};
  }

  lemma CountAppend(s: State, t: Tid, ch: Chan)
    requires ListsInv(s) && CountsFit(s, ch) && Enabled(s, t, AppendToInbox)
    ensures CountsFit(Apply(s, t, AppendToInbox), ch)
  {
    var s' := Append(s, t);
    var c := Entry(s.next, P(s, t).ch);
    assert s.next !in s.subs;
    assert c !in s.inbox;
    CasesAfterAppend(s.inbox, c, ch);
    CountsAfterNew(s.subs, s.next, c.ch, ch);
  }

  lemma CountsAfterNew(subs: map<nat, Sub>, i: nat, c: Chan, ch: Chan)
    requires i !in subs
    ensures |Counted(subs[i := Sub(c, Live, false, false)], ch)| == |Counted(subs, ch)| + if c == ch then 1 else 0
    ensures Leaving(subs[i := Sub(c, Live, false, false)], ch) == Leaving(subs, ch)
  {
    var subs' := subs[i := Sub(c, Live, false, false)];
    if c == ch {
      assert i !in Counted(subs, ch);
      assert Counted(subs', ch) == Counted(subs, ch) + {i};
    } else {
      assert Counted(subs', ch) == Counted(subs, ch);
    }
  }

  /** Deleting the first case that carries `c` lowers the cases of `c` by one, and of no other
      channel. */
  lemma CasesAfterDelete(cs: seq<Case>, c: Chan, ch: Chan)
    requires Distinct(cs) && Find(cs, c) != -1
    ensures |CasesOf(Delete(cs, Find(cs, c)), ch)| == |CasesOf(cs, ch)| - if c == ch then 1 else 0
  {
    var k := Find(cs, c);
    FindsFirst(cs, c);
    DeleteKeeps(cs, k);
    if c == ch {
      assert CasesOf(Delete(cs, k), ch) == CasesOf(cs, ch) - {cs[k]};
      assert cs[k] in CasesOf(cs, ch);
    } else {
      assert CasesOf(Delete(cs, k), ch) == CasesOf(cs, ch);
    }
  }

  /** One subscription changes phase: how the two counts move. */
  lemma CountsAfterPhase(subs: map<nat, Sub>, subs': map<nat, Sub>, i: nat, p: Phase, ch: Chan)
    requires i in subs && subs' == subs[i := subs[i].(phase := p)] && subs[i].phase != Gone
    ensures subs[i].ch != ch ==> Counted(subs', ch) == Counted(subs, ch) && Leaving(subs', ch) == Leaving(subs, ch)
    ensures subs[i].ch == ch && p == Gone ==> |Counted(subs', ch)| == |Counted(subs, ch)| - 1
    ensures subs[i].ch == ch && p == Gone ==> |Leaving(subs', ch)| == |Leaving(subs, ch)| - if subs[i].phase == Live then 0 else 1
    ensures subs[i].ch == ch && p != Gone ==> Counted(subs', ch) == Counted(subs, ch)
  {
    if subs[i].ch != ch {
      assert Counted(subs', ch) == Counted(subs, ch) && Leaving(subs', ch) == Leaving(subs, ch);
    } else if p == Gone {
      CountedAfterGone(subs, subs', i, ch);
      LeavingAfterGone(subs, subs', i, ch);
    } else {
      assert Counted(subs', ch) == Counted(subs, ch);
    }
  }

  lemma CountedAfterGone(subs: map<nat, Sub>, subs': map<nat, Sub>, i: nat, ch: Chan)
    requires i in subs && subs' == subs[i := subs[i].(phase := Gone)] && subs[i].phase != Gone && subs[i].ch == ch
    ensures |Counted(subs', ch)| == |Counted(subs, ch)| - 1
  {
    assert i in Counted(subs, ch);
    assert Counted(subs', ch) == Counted(subs, ch) - {i};
  }

  lemma LeavingAfterGone(subs: map<nat, Sub>, subs': map<nat, Sub>, i: nat, ch: Chan)
    requires i in subs && subs' == subs[i := subs[i].(phase := Gone)] && subs[i].phase != Gone && subs[i].ch == ch
    ensures |Leaving(subs', ch)| == |Leaving(subs, ch)| - if subs[i].phase == Live then 0 else 1
  {
    assert Leaving(subs', ch) == Leaving(subs, ch) - {i};
    assert subs[i].phase == Live <==> i !in Leaving(subs, ch);
  }

  lemma CountCheck(s: State, t: Tid, ch: Chan)
    requires ListsInv(s) && SubsInv(s) && CountsFit(s, ch) && Enabled(s, t, CheckInbox)
    ensures CountsFit(Apply(s, t, CheckInbox), ch)
  {
    var s' := Check(s, t);
    var i := P(s, t).sub;
    assert Removal(P(s, t)) == i && i in s.subs && PhaseFits(P(s, t), s.subs[i]);
    var c := s.subs[i].ch;
    if Find(s.inbox, c) != -1 {
      CasesAfterDelete(s.inbox, c, ch);
      CountsAfterPhase(s.subs, s'.subs, i, Gone, ch);
    } else {
      CountsAfterPhase(s.subs, s'.subs, i, Removing, ch);
      if c == ch {
        NoCases(s.inbox, ch);
        SubsetCard(Leaving(s'.subs, ch), Counted(s'.subs, ch));
      }
    }
  }

  lemma NoCases(cs: seq<Case>, ch: Chan)
    requires Find(cs, ch) == -1
    ensures CasesOf(cs, ch) == {}
  {
    FindsFirst(cs, ch);
  }

  lemma CountDelete(s: State, t: Tid, ch: Chan)
    requires Inv(s) && Enabled(s, t, DeleteCase)
    ensures CountsFit(Apply(s, t, DeleteCase), ch)
  {
    var s' := DeleteNow(s, t);
    var i := P(s, t).sub;
    assert CountsFit(s, ch);
    assert Removal(P(s, t)) == i && i in s.subs && PhaseFits(P(s, t), s.subs[i]);
    if Find(s.cases, s.subs[i].ch) != -1 {
      CountGone(s, s', i, ch);
    }
  }

  lemma CountGone(s: State, s': State, i: nat, ch: Chan)
    requires ListsInv(s) && CountsFit(s, ch) && i in s.subs && s.subs[i].phase != Gone && s.subs[i].phase != Live
    requires Find(s.cases, s.subs[i].ch) != -1
    requires s'.inbox == s.inbox && s'.cases == Delete(s.cases, Find(s.cases, s.subs[i].ch))
    requires s'.subs == s.subs[i := s.subs[i].(phase := Gone)]
    ensures CountsFit(s', ch)
  {
    CasesAfterDelete(s.cases, s.subs[i].ch, ch);
    CountsAfterPhase(s.subs, s'.subs, i, Gone, ch);
  }

  lemma CountMerge(s: State, t: Tid, ch: Chan)
    requires Inv(s) && Enabled(s, t, MergeInbox)
    ensures CountsFit(Apply(s, t, MergeInbox), ch)
  {
    var s' := Merge(s, t);
    assert CountsFit(s, ch);
    assert CasesOf(s'.cases, ch) == CasesOf(s.cases, ch) + CasesOf(s.inbox, ch);
    assert CasesOf(s.cases, ch) !! CasesOf(s.inbox, ch);
    assert CasesOf([], ch) == {};
    SameCounts(s, t, MergeInbox, ch);
  }

  lemma CountRound(s: State, t: Tid, o: Outcome, ch: Chan)
    requires Inv(s) && Enabled(s, t, Round(o))
    ensures CountsFit(Apply(s, t, Round(o)), ch)
  {
    assert CountsFit(s, ch);
    if o.Deleted? {
      assert DropFits(s, P(s, t).loop.at);
      if CanStep(s.cases, P(s, t).loop, o) {
        CountGone(s, DoRound(s, t, o), P(s, t).loop.at.sub, ch);
      }
    } else {
      SameCasesInRound(s, t, o, ch);
      SameCounts(s, t, Round(o), ch);
    }
  }

  lemma SameCasesInRound(s: State, t: Tid, o: Outcome, ch: Chan)
    requires ListsInv(s) && Enabled(s, t, Round(o)) && !o.Deleted?
    ensures CasesOf(DoRound(s, t, o).cases, ch) == CasesOf(s.cases, ch) && DoRound(s, t, o).inbox == s.inbox
  {
    RoundCases(s.cases, P(s, t).loop, o);
  }

  /** The case list, the send order and the boundary change only under the token. */
  lemma TokenGuards(s: State, t: Tid, a: Action)
    requires LocksInv(s) && Enabled(s, t, a)
    ensures var s' := Apply(s, t, a);
            s'.cases != s.cases || s'.order != s.order || s'.front != s.front || s'.lock != s.lock ==>
            s.lock == HeldBy(t) || (s.lock == Free && s'.lock == HeldBy(t) && s'.cases == s.cases)
  {
    assert LocksFit(s, t);
  }

  lemma FrontStep(s: State, t: Tid, a: Action)
    requires LocksInv(s) && ListsInv(s) && FrontInv(s) && Enabled(s, t, a)
    ensures FrontInv(Apply(s, t, a))
  {
    var s' := Apply(s, t, a);
    PcsStep(s, t, a);
    TokenGuards(s, t, a);
    assert FrontFits(s, P(s, t));
    FrontOfActor(s, t, a);
    forall u: Tid
      ensures FrontFits(s', P(s', u))
    {
      if u != t && P(s', u) == P(s, u) {
        assert FrontFits(s, P(s, u)) && LocksFit(s, u);
        FrontOfOther(s, s', P(s, u));
      }
    }
  }

  /** Who holds the token relies on the list and the order, and nobody else changes them. */
  lemma FrontOfOther(s: State, s': State, p: Pc)
    requires FrontFits(s, p) && (HoldsToken(p) ==> s'.cases == s.cases && s'.order == s.order && s'.front == s.front)
    ensures FrontFits(s', p)
  {
  }

  ghost predicate FrontOk(s: State, t: Tid) {
    && FrontFits(s, P(s, t))
    && 1 <= s.front <= |s.cases| && (s.lock == Free ==> s.front == 1) && (s.front > 1 ==> |s.order| > 0)
  }

  lemma FrontOfActor(s: State, t: Tid, a: Action)
    requires LocksInv(s) && ListsInv(s) && FrontOk(s, t) && Enabled(s, t, a)
    ensures FrontOk(Apply(s, t, a), t)
  {
    assert LocksFit(s, t);
    if a.MergeInbox? {
      FrontOfMerge(s, t);
    } else if a.Round? {
      FrontOfRound(s, t, a.o);
    } else if a.Handoff? {
      LoopKeepsAccount(s.cases, P(s, t).loop, Received(SubOf(s, P(s, a.u).sub).ch, P(s, a.u).sub));
    } else {
      FrontOfRest(s, t, a);
    }
  }

  lemma FrontOfRest(s: State, t: Tid, a: Action)
    requires ListsInv(s) && FrontOk(s, t) && Enabled(s, t, a) && LocksFit(s, t)
    requires !a.MergeInbox? && !a.Round? && !a.Handoff?
    ensures FrontOk(Apply(s, t, a), t)
  {
    if UnderMutex(a) {
      FrontUnderMutex(s, t, a);
    }
  }

  lemma FrontUnderMutex(s: State, t: Tid, a: Action)
    requires FrontOk(s, t) && Enabled(s, t, a) && UnderMutex(a)
    ensures FrontOk(Apply(s, t, a), t)
  {
  }

  /** A round that can be taken moves the list and the sender to the next ones. */
  lemma RoundResult(s: State, t: Tid, o: Outcome)
    requires P(s, t).Sending? && CanStep(s.cases, P(s, t).loop, o) && !o.Received?
    ensures var s', l' := DoRound(s, t, o), NextLoop(s.cases, P(s, t).loop, o);
            && s'.cases == NextCases(s.cases, P(s, t).loop, o) && P(s', t) == Sending(P(s, t).v, l') && s'.front == l'.n
            && s'.lock == s.lock && s'.order == s.order
  {
  }

  lemma FrontOfRound(s: State, t: Tid, o: Outcome)
    requires FrontOk(s, t) && s.lock == HeldBy(t) && Enabled(s, t, Round(o))
    ensures FrontOk(DoRound(s, t, o), t)
  {
    if CanStep(s.cases, P(s, t).loop, o) {
      LoopKeepsAccount(s.cases, P(s, t).loop, o);
      RoundResult(s, t, o);
      PrefixFits(NextCases(s.cases, P(s, t).loop, o), NextLoop(s.cases, P(s, t).loop, o));
    }
  }

  lemma PrefixFits(cs: seq<Case>, l: Loop)
    requires LoopInv(cs, l)
    ensures 1 <= l.n <= |cs|
  {
  }

  lemma FrontOfMerge(s: State, t: Tid)
    requires ListsInv(s) && FrontOk(s, t) && s.lock == HeldBy(t) && Enabled(s, t, MergeInbox)
    ensures FrontOk(Merge(s, t), t)
  {
    LoopStarts(s.cases + s.inbox);
  }

  /** Deliveries and starts stay as they are. */
  ghost predicate SameHistory(s: State, s': State) {
    s'.got == s.got && s'.start == s.start && s'.subs.Keys >= s.subs.Keys
  }

  lemma HistoryStep(s: State, t: Tid, a: Action)
    requires Inv(s) && Enabled(s, t, a)
    ensures HistoryInv(Apply(s, t, a))
  {
    var s' := Apply(s, t, a);
    RecordKeys(s, t, a);
    assert FrontFits(s, P(s, t));
    if a.Round? {
      HistoryRound(s, t, a.o);
    } else if a.TakeToken? {
      HistoryTake(s, t);
    } else if a.MergeInbox? {
      HistoryMerge(s, t);
    } else if a.DeleteCase? {
      HistoryDelete(s, t);
    } else {
      HistoryRest(s, t, a);
    }
  }

  lemma HistoryRest(s: State, t: Tid, a: Action)
    requires ListsInv(s) && HistoryInv(s) && Enabled(s, t, a)
    requires !a.Round? && !a.TakeToken? && !a.MergeInbox? && !a.DeleteCase?
    requires Apply(s, t, a).subs.Keys >= s.subs.Keys
    ensures HistoryInv(Apply(s, t, a))
  {
    RestIsQuiet(s, t, a);
    InboxOfRest(s, t, a);
    HistoryUnchanged(s, Apply(s, t, a));
  }

  lemma RestIsQuiet(s: State, t: Tid, a: Action)
    requires Enabled(s, t, a) && !a.Round? && !a.TakeToken? && !a.MergeInbox? && !a.DeleteCase?
    ensures var s' := Apply(s, t, a);
            s'.got == s.got && s'.start == s.start && s'.cases == s.cases && s'.order == s.order && s'.front == s.front
  {
  }

  lemma InboxOfRest(s: State, t: Tid, a: Action)
    requires ListsInv(s) && HistoryInv(s) && Enabled(s, t, a)
    requires !a.Round? && !a.TakeToken? && !a.MergeInbox? && !a.DeleteCase?
    ensures forall c :: c in Apply(s, t, a).inbox ==> IdOf(c) !in s.start
  {
    var s' := Apply(s, t, a);
    if a.AppendToInbox? {
      assert forall c :: c in s'.inbox ==> c in s.inbox || IdOf(c) == s.next;
    } else if a.CheckInbox? {
      var k := Find(s.inbox, SubOf(s, P(s, t).sub).ch);
      if k != -1 {
        DeleteKeeps(s.inbox, k);
      }
    } else {
      assert s'.inbox == s.inbox;
    }
  }

  lemma SegmentExtends(g: seq<Value>, order: seq<Value>, v: Value, a: nat)
    requires Segment(g, order, a)
    ensures Segment(g, order + [v], a)
  {
    assert (order + [v])[a..a + |g|] == order[a..a + |g|];
  }

  lemma HistoryTake(s: State, t: Tid)
    requires ListsInv(s) && HistoryInv(s) && s.front == 1 && Enabled(s, t, TakeToken)
    ensures HistoryInv(Apply(s, t, TakeToken))
  {
    var s' := Apply(s, t, TakeToken);
    assert forall i :: Got(s', i) == Got(s, i);
    forall i | i in s'.start
      ensures Segment(Got(s', i), s'.order, s'.start[i])
    {
      SegmentExtends(Got(s, i), s.order, P(s, t).v, s.start[i]);
    }
    forall j | 0 < j < |s'.cases|
      ensures UpTo(s', IdOf(s'.cases[j]), |s'.order| - 1)
    {
      assert UpTo(s, IdOf(s.cases[j]), |s.order|);
    }
  }

  lemma HistoryMerge(s: State, t: Tid)
    requires ListsInv(s) && HistoryInv(s) && FrontFits(s, P(s, t)) && Enabled(s, t, MergeInbox)
    ensures HistoryInv(Merge(s, t))
  {
    var s' := Merge(s, t);
    assert forall i :: Got(s', i) == Got(s, i);
    forall i | i in s'.start
      ensures Segment(Got(s', i), s'.order, s'.start[i]) && i in s'.subs && s'.start[i] < |s'.order|
    {
      if i in Ids(s.inbox) {
        var c :| c in s.inbox && IdOf(c) == i;
        assert Got(s, i) == [] && c.id in s.subs;
      }
    }
    forall j | 0 < j < |s'.cases|
      ensures UpTo(s', IdOf(s'.cases[j]), |s'.order| - 1)
    {
      UpToAfterMerge(s, t, j);
    }
  }

  lemma UpToAfterMerge(s: State, t: Tid, j: nat)
    requires ListsInv(s) && HistoryInv(s) && FrontFits(s, P(s, t)) && Enabled(s, t, MergeInbox)
    requires 0 < j < |Merge(s, t).cases|
    ensures UpTo(Merge(s, t), IdOf(Merge(s, t).cases[j]), |s.order| - 1)
  {
    if j < |s.cases| {
      assert UpTo(s, IdOf(s.cases[j]), |s.order| - 1);
      assert IdOf(s.cases[j]) !in Ids(s.inbox);
    } else {
      assert Merge(s, t).cases[j] in s.inbox;
      assert IdOf(Merge(s, t).cases[j]) in Ids(s.inbox);
    }
  }

  lemma HistoryDelete(s: State, t: Tid)
    requires ListsInv(s) && HistoryInv(s) && s.front == 1 && Enabled(s, t, DeleteCase)
    requires DeleteNow(s, t).subs.Keys >= s.subs.Keys
    ensures HistoryInv(DeleteNow(s, t))
  {
    var s' := DeleteNow(s, t);
    var k := Find(s.cases, SubOf(s, P(s, t).sub).ch);
    NotSlotZero(s.cases, SubOf(s, P(s, t).sub).ch);
    if k != -1 {
      HistoryAfterDelete(s, s', k);
    }
  }

  /** Deleting a case keeps the boundary between the served and the waiting cases. */
  lemma HistoryAfterDelete(s: State, s': State, k: nat)
    requires HistoryInv(s) && 0 < k < |s.cases| && s'.cases == Delete(s.cases, k)
    requires SameHistory(s, s') && s'.order == s.order && s'.inbox == s.inbox
    requires s'.front == if k < s.front then s.front - 1 else s.front
    ensures HistoryInv(s')
  {
    assert forall i :: Got(s', i) == Got(s, i);
    forall j | 0 < j < |s'.cases|
      ensures UpTo(s', IdOf(s'.cases[j]), |s'.order| - if j < s'.front then 1 else 0)
    {
      var j' := if j < k then j else j + 1;
      assert s'.cases[j] == s.cases[j'];
      assert UpTo(s, IdOf(s.cases[j']), |s.order| - if j' < s.front then 1 else 0);
    }
  }

  lemma HistoryRound(s: State, t: Tid, o: Outcome)
    requires ListsInv(s) && HistoryInv(s) && FrontFits(s, P(s, t)) && Enabled(s, t, Round(o))
    requires DoRound(s, t, o).subs.Keys >= s.subs.Keys
    ensures HistoryInv(DoRound(s, t, o))
  {
    var s', l := DoRound(s, t, o), P(s, t).loop;
    RoundParts(s, t, o);
    if !CanStep(s.cases, l, o) {
      HistoryUnchanged(s, s');
    } else if Hit(s.cases, l, o) > 0 {
      HistoryAfterHit(s, s', Hit(s.cases, l, o), P(s, t).v);
    } else if o.Deleted? {
      HistoryAfterDelete(s, s', Find(s.cases, l.at.ch));
    } else {
      HistoryUnchanged(s, s');
    }
  }

  lemma RoundParts(s: State, t: Tid, o: Outcome)
    requires Enabled(s, t, Round(o)) && s.front == P(s, t).loop.n
    ensures var s', l := DoRound(s, t, o), P(s, t).loop;
            && s'.order == s.order && s'.start == s.start && s'.inbox == s.inbox
            && (!CanStep(s.cases, l, o) ==> s'.cases == s.cases && s'.front == s.front && s'.got == s.got)
            && (CanStep(s.cases, l, o) && Hit(s.cases, l, o) == -1 ==> s'.got == s.got)
            && (CanStep(s.cases, l, o) && Hit(s.cases, l, o) == -1 && !o.Deleted? ==> s'.cases == s.cases && s'.front == s.front)
            && (CanStep(s.cases, l, o) && o.Deleted? ==>
                  var k := Find(s.cases, l.at.ch);
                  k < |s.cases| && s'.cases == Delete(s.cases, k) && s'.front == if k < s.front then s.front - 1 else s.front)
  {
  }

  lemma HistoryUnchanged(s: State, s': State)
    requires HistoryInv(s) && SameHistory(s, s')
    requires s'.cases == s.cases && s'.order == s.order && s'.front == s.front
    requires forall c :: c in s'.inbox ==> IdOf(c) !in s.start
    ensures HistoryInv(s')
  {
    assert forall i :: Got(s', i) == Got(s, i);
    forall j | 0 < j < |s'.cases|
      ensures UpTo(s', IdOf(s'.cases[j]), |s'.order| - if j < s'.front then 1 else 0)
    {
      assert UpTo(s, IdOf(s.cases[j]), |s.order| - if j < s.front then 1 else 0);
    }
  }

  /** Serving case `h` and swapping it behind the boundary. */
  ghost predicate AfterHit(s: State, s': State, h: nat, v: Value) {
    && 0 < h < s.front <= |s.cases|
    && 0 < |s.order| && s.order[|s.order| - 1] == v
    && s'.cases == Deactivate(s.cases, s.front, h) && s'.front == s.front - 1
    && s'.got == s.got[IdOf(s.cases[h]) := Got(s, IdOf(s.cases[h])) + [v]]
    && s'.start == s.start && s'.order == s.order && s'.inbox == s.inbox && s'.subs.Keys >= s.subs.Keys
  }

  lemma HistoryAfterHit(s: State, s': State, h: nat, v: Value)
    requires ListsInv(s) && HistoryInv(s) && AfterHit(s, s', h, v)
    ensures HistoryInv(s')
  {
    SegmentsAfterHit(s, s', h, v);
    forall j | 0 < j < |s'.cases|
      ensures UpTo(s', IdOf(s'.cases[j]), |s'.order| - if j < s'.front then 1 else 0)
    {
      UpToAfterHit(s, s', h, v, j);
    }
  }

  lemma SegmentsAfterHit(s: State, s': State, h: nat, v: Value)
    requires HistoryInv(s) && AfterHit(s, s', h, v)
    ensures forall i :: i in s'.start ==> Segment(Got(s', i), s'.order, s'.start[i])
    ensures forall i :: i !in s'.start ==> Got(s', i) == []
  {
    var id := IdOf(s.cases[h]);
    assert UpTo(s, id, |s.order| - 1);
    assert forall i :: i != id ==> Got(s', i) == Got(s, i);
    LastOfSegment(Got(s, id), s.order, s.start[id]);
  }

  lemma UpToAfterHit(s: State, s': State, h: nat, v: Value, j: nat)
    requires ListsInv(s) && HistoryInv(s) && AfterHit(s, s', h, v) && 0 < j < |s'.cases|
    ensures UpTo(s', IdOf(s'.cases[j]), |s'.order| - if j < s'.front then 1 else 0)
  {
    var j' := if j == s.front - 1 then h else if j == h then s.front - 1 else j;
    assert s'.cases[j] == s.cases[j'];
    assert UpTo(s, IdOf(s.cases[j']), |s.order| - if j' < s.front then 1 else 0);
    if j' != h {
      IdsDiffer(s, j', h);
    }
  }

  lemma LastOfSegment(g: seq<Value>, order: seq<Value>, a: nat)
    requires Segment(g, order, a) && a + |g| == |order| - 1
    ensures Segment(g + [order[|order| - 1]], order, a)
  {
    assert g + [order[|order| - 1]] == order[a..|order|];
  }

  lemma IdsDiffer(s: State, i: nat, j: nat)
    requires ListsInv(s) && 0 < i < |s.cases| && 0 < j < |s.cases| && i != j
    ensures IdOf(s.cases[i]) != IdOf(s.cases[j])
  {
    assert s.cases[i] in s.cases && s.cases[j] in s.cases;
    assert s.cases[i] != s.cases[j];
  }

  // ---------------------------------------------------------------------------------------
  // Neither deletion fails

  lemma NeverPanics(s: State, t: Tid, a: Action)
    requires Inv(s) && Enabled(s, t, a)
    ensures !Apply(s, t, a).panicked
  {
    if a.DeleteCase? {
      FindSucceeds(s, P(s, t).sub, t);
    } else if a.Round? && a.o.Deleted? {
      assert DropFits(s, P(s, t).loop.at);
      DeletableCase(s, P(s, t).loop.at.sub);
    } else if a.CloseErrChannel? {
      assert Removal(P(s, t)) in s.subs && PhaseFits(P(s, t), s.subs[Removal(P(s, t))]);
    } else if UnderMutex(a) {
      QuietUnderMutex(s, t, a);
    }
  }

  lemma QuietUnderMutex(s: State, t: Tid, a: Action)
    requires Enabled(s, t, a) && UnderMutex(a)
    ensures Apply(s, t, a).panicked == s.panicked
  {
  }

  /** A removal past the inbox check always has a case of its channel to delete. */
  lemma DeletableCase(s: State, i: nat)
    requires ListsInv(s) && CountInv(s) && i in s.subs && (s.subs[i].phase == Removing || s.subs[i].phase == Handed)
    ensures Find(s.cases, s.subs[i].ch) > 0
  {
    var ch := s.subs[i].ch;
    assert CountsFit(s, ch);
    assert i in Leaving(s.subs, ch);
    if CasesOf(s.cases, ch) == {} {
      assert false;
    } else {
      var c :| c in CasesOf(s.cases, ch);
      FindsFirst(s.cases, ch);
    }
  }

  lemma FindSucceeds(s: State, i: nat, t: Tid)
    requires Inv(s) && P(s, t) == RemoveDelete(i)
    ensures Find(s.cases, SubOf(s, i).ch) > 0
  {
    assert Removal(P(s, t)) == i && PhaseFits(P(s, t), s.subs[i]);
    DeletableCase(s, i);
  }

  lemma InvStep(s: State, t: Tid, a: Action)
    requires Inv(s) && Enabled(s, t, a)
    ensures Inv(Apply(s, t, a))
  {
    NeverPanics(s, t, a);
    LocksStep(s, t, a);
    ListsStep(s, t, a);
    SubsStep(s, t, a);
    FrontStep(s, t, a);
    HistoryStep(s, t, a);
    forall ch: Chan
      ensures CountsFit(Apply(s, t, a), ch)
    {
      CountStep(s, t, a, ch);
    }
  }

  lemma {:induction false} InvRun(s: State, ls: seq<(Tid, Action)>)
    requires Inv(s) && CanRunAll(s, ls)
    ensures Inv(RunAll(s, ls))
    decreases |ls|
  {
    if ls != [] {
      InvStep(s, ls[0].0, ls[0].1);
      InvRun(Apply(s, ls[0].0, ls[0].1), ls[1..]);
    }
  }

  lemma InvReachable(s: State)
    requires Reachable(s)
    ensures Inv(s)
  {
    var ls :| CanRunAll(Init(), ls) && RunAll(Init(), ls) == s;
    InvInit();
    InvRun(Init(), ls);
  }
}
