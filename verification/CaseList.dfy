/** The case list of an event feed and one round of the loop in `Send`.

    A feed keeps its select cases in one list. Slot 0 receives removal requests; every other
    slot sends on a subscriber's channel. The loop in `Send` works on the first `n` cases: a
    case that has been served is swapped behind that boundary, a case that is removed is
    shifted out. Both the feed class and the protocol of concurrent feed operations are
    stated with the functions of this module. */
module CaseList {

  /** Channels are opaque; only their identity matters. */
  type Chan = nat

  /** `id` tells apart several subscriptions of one channel. The program has no such field. */
  datatype Case = RemoveSub | Entry(id: nat, ch: Chan)

  predicate Carries(c: Case, ch: Chan) {
    c.Entry? && c.ch == ch
  }

  predicate Distinct(cs: seq<Case>) {
    forall i, j :: 0 <= i < j < |cs| ==> cs[i] != cs[j]
  }

  /** Slot 0 is the removal case and the others are subscriber cases. */
  predicate WellFormed(cs: seq<Case>) {
    && 0 < |cs| && cs[0] == RemoveSub
    && forall i :: 0 < i < |cs| ==> cs[i].Entry?
  }

  function FindFrom(cs: seq<Case>, ch: Chan, from: nat): (r: int)
    requires from <= |cs|
    ensures r == -1 || from <= r < |cs|
    decreases |cs| - from
  {
    if from == |cs| then -1 else if Carries(cs[from], ch) then from else FindFrom(cs, ch, from + 1)
  }

  /** The search of `find`. */
  function Find(cs: seq<Case>, ch: Chan): (r: int)
    ensures -1 <= r < |cs|
  {
    FindFrom(cs, ch, 0)
  }

  lemma {:induction false} FindFromFirst(cs: seq<Case>, ch: Chan, from: nat)
    requires from <= |cs|
    ensures var r := FindFrom(cs, ch, from);
            && (r >= 0 ==> Carries(cs[r], ch) && forall j :: from <= j < r ==> !Carries(cs[j], ch))
            && (r == -1 ==> forall j :: from <= j < |cs| ==> !Carries(cs[j], ch))
    decreases |cs| - from
  {
    if from < |cs| && !Carries(cs[from], ch) {
      FindFromFirst(cs, ch, from + 1);
    }
  }

  /** `find` gives the first case that carries the channel, and -1 exactly when none does. */
  lemma FindsFirst(cs: seq<Case>, ch: Chan)
    ensures var r := Find(cs, ch);
            && (r >= 0 ==> Carries(cs[r], ch) && forall j :: 0 <= j < r ==> !Carries(cs[j], ch))
            && (r == -1 <==> forall j :: 0 <= j < |cs| ==> !Carries(cs[j], ch))
  {
    FindFromFirst(cs, ch, 0);
  }

  /** The removal case carries no subscriber's channel. */
  lemma NotSlotZero(cs: seq<Case>, ch: Chan)
    requires WellFormed(cs)
    ensures Find(cs, ch) != 0
  {
    FindsFirst(cs, ch);
  }

  /** The list without the case at `i`; later cases move up. */
  function Delete(cs: seq<Case>, i: nat): seq<Case>
    requires i < |cs|
  {
    seq(|cs| - 1, j requires 0 <= j < |cs| - 1 => if j < i then cs[j] else cs[j + 1])
  }

  /** Case `i` trades places with the last of the first `n` cases. */
  function Deactivate(cs: seq<Case>, n: nat, i: nat): seq<Case>
    requires i < n <= |cs|
  {
    cs[i := cs[n - 1]][n - 1 := cs[i]]
  }

  // ---------------------------------------------------------------------------------------
  // One round of Send's loop

  /** Where the sender is: trying case `i` without blocking, blocked in the select, about to
      delete a case for the removal request it received, or done. */
  datatype At = Scan(i: nat) | Select | Drop(ch: Chan, sub: nat) | Finished

  /** `n` is the length of the active prefix and `nsent` the result so far. The multisets are
      history: the cases at the start, those served, those removed before and after being
      served. */
  datatype Loop = Loop(n: nat, at: At, nsent: nat,
                       all: multiset<Case>, served: multiset<Case>, lost: multiset<Case>, late: multiset<Case>)

  function StartLoop(cs: seq<Case>): Loop {
    Loop(|cs|, Scan(1), 0, multiset(if cs == [] then cs else cs[1..]), multiset{}, multiset{}, multiset{})
  }

  /** What the environment decides in a round: whether a try succeeds, which case the select
      picks and which removal request it receives. */
  datatype Outcome = Sent | Blocked | ScanDone | Chosen(k: nat) | Received(ch: Chan, sub: nat) | Deleted

  predicate CanStep(cs: seq<Case>, l: Loop, o: Outcome) {
    l.n <= |cs| &&
    match o
    case Sent => l.at.Scan? && 1 <= l.at.i < l.n
    case Blocked => l.at.Scan? && 1 <= l.at.i < l.n
    case ScanDone => l.at.Scan? && l.n <= l.at.i
    case Chosen(k) => l.at.Select? && 1 <= k < l.n
    case Received(_, _) => l.at.Select?
    case Deleted => l.at.Drop? && Find(cs, l.at.ch) > 0
  }

  /** The index of the case that receives the value in this round, or -1. */
  function Hit(cs: seq<Case>, l: Loop, o: Outcome): (r: int)
    requires CanStep(cs, l, o)
    ensures r == -1 || 1 <= r < l.n <= |cs|
  {
    match o
    case Sent => l.at.i
    case Chosen(k) => k
    case _ => -1
  }

  function NextCases(cs: seq<Case>, l: Loop, o: Outcome): seq<Case>
    requires CanStep(cs, l, o)
  {
    if Hit(cs, l, o) > 0 then Deactivate(cs, l.n, Hit(cs, l, o))
    else if o.Deleted? then Delete(cs, Find(cs, l.at.ch))
    else cs
  }

  function NextLoop(cs: seq<Case>, l: Loop, o: Outcome): Loop
    requires CanStep(cs, l, o)
  {
    match o
    case Sent => l.(n := l.n - 1, nsent := l.nsent + 1, served := l.served + multiset{cs[l.at.i]})
    case Blocked => l.(at := Scan(l.at.i + 1))
    case ScanDone => l.(at := if l.n == 1 then Finished else Select)
    case Chosen(k) => l.(n := l.n - 1, at := Scan(1), nsent := l.nsent + 1, served := l.served + multiset{cs[k]})
    case Received(ch, sub) => l.(at := Drop(ch, sub))
    case Deleted =>
      var i := Find(cs, l.at.ch);
      if i < l.n then l.(n := l.n - 1, at := Scan(1), lost := l.lost + multiset{cs[i]})
      else l.(at := Scan(1), late := l.late + multiset{cs[i]})
  }

  function One(c: Case, x: Case): nat {
    if c == x then 1 else 0
  }

  /** How often `x` occurs at positions `a` to `b`. */
  function Count(cs: seq<Case>, a: nat, b: nat, x: Case): nat
    requires a <= b <= |cs|
    decreases b - a
  {
    if a == b then 0 else One(cs[a], x) + Count(cs, a + 1, b, x)
  }

  lemma {:induction false} CountIsMultiplicity(cs: seq<Case>, a: nat, b: nat, x: Case)
    requires a <= b <= |cs|
    ensures Count(cs, a, b, x) == multiset(cs[a..b])[x]
    decreases b - a
  {
    if a < b {
      CountIsMultiplicity(cs, a + 1, b, x);
      assert cs[a..b] == [cs[a]] + cs[a + 1..b];
    }
  }

  lemma {:induction false} CountSplit(cs: seq<Case>, a: nat, m: nat, b: nat, x: Case)
    requires a <= m <= b <= |cs|
    ensures Count(cs, a, b, x) == Count(cs, a, m, x) + Count(cs, m, b, x)
    decreases m - a
  {
    if a < m {
      CountSplit(cs, a + 1, m, b, x);
    }
  }

  /** Two lists that agree at positions `a` to `b`, shifted by `d` in the second. */
  lemma {:induction false} SameCount(cs: seq<Case>, ds: seq<Case>, a: nat, b: nat, d: nat, x: Case)
    requires a <= b <= |cs| && b + d <= |ds|
    requires forall j :: a <= j < b ==> cs[j] == ds[j + d]
    ensures Count(cs, a, b, x) == Count(ds, a + d, b + d, x)
    decreases b - a
  {
    if a < b {
      SameCount(cs, ds, a + 1, b, d, x);
    }
  }

  /** The loop's indices are in range. */
  predicate InRange(cs: seq<Case>, l: Loop) {
    && 1 <= l.n <= |cs|
    && (l.at.Scan? ==> 1 <= l.at.i <= l.n)
    && (l.at.Finished? ==> l.n == 1)
    && (l.at.Select? ==> l.n > 1)
  }

  /** The cases still active, those served and still subscribed, and the removed ones make up
      the cases the sender started with; what lies behind the boundary is exactly what was
      served and not removed since. */
  ghost predicate LoopInv(cs: seq<Case>, l: Loop) {
    && WellFormed(cs) && InRange(cs, l) && |l.served| == l.nsent
    && forall x: Case :: Accounted(cs, l, x)
  }

  ghost predicate Accounted(cs: seq<Case>, l: Loop, x: Case)
    requires 1 <= l.n <= |cs|
  {
    && Count(cs, l.n, |cs|, x) + l.late[x] == l.served[x]
    && Count(cs, 1, l.n, x) + l.served[x] + l.lost[x] == l.all[x]
  }

  lemma StaysInRange(cs: seq<Case>, l: Loop, o: Outcome)
    requires InRange(cs, l) && CanStep(cs, l, o)
    ensures InRange(NextCases(cs, l, o), NextLoop(cs, l, o))
  {
  }

  lemma DeactivateKeepsShape(cs: seq<Case>, n: nat, i: nat)
    requires 1 <= i < n <= |cs| && WellFormed(cs)
    ensures WellFormed(Deactivate(cs, n, i))
  {
  }

  /** Swapping a case behind the boundary moves it, and it alone, from the active cases to those
      behind. */
  lemma DeactivateSplits(cs: seq<Case>, n: nat, i: nat, x: Case)
    requires 1 <= i < n <= |cs|
    ensures Count(Deactivate(cs, n, i), n - 1, |cs|, x) == Count(cs, n, |cs|, x) + One(cs[i], x)
    ensures Count(Deactivate(cs, n, i), 1, n - 1, x) + One(cs[i], x) == Count(cs, 1, n, x)
  {
    var ds := Deactivate(cs, n, i);
    SameCount(cs, ds, n, |cs|, 0, x);
    SameCount(cs, ds, 1, i, 0, x);
    DeactivateTail(cs, n, i, x);
    CountSplit(cs, 1, i, n, x);
    CountSplit(ds, 1, i, n - 1, x);
  }

  lemma DeactivateTail(cs: seq<Case>, n: nat, i: nat, x: Case)
    requires i < n <= |cs|
    ensures Count(Deactivate(cs, n, i), i, n - 1, x) + One(cs[i], x) == Count(cs, i, n, x)
  {
    if i < n - 1 {
      SameCount(cs, Deactivate(cs, n, i), i + 1, n - 1, 0, x);
      CountSplit(cs, i + 1, n - 1, n, x);
    }
  }

  lemma DeleteKeepsShape(cs: seq<Case>, i: nat)
    requires 1 <= i < |cs| && WellFormed(cs)
    ensures WellFormed(Delete(cs, i))
  {
  }

  /** Deleting a case on either side of the boundary takes it, and it alone, from its side. */
  lemma DeleteSplits(cs: seq<Case>, n: nat, i: nat, x: Case)
    requires 1 <= i < |cs| && 1 <= n <= |cs|
    ensures i < n ==> Count(Delete(cs, i), n - 1, |cs| - 1, x) == Count(cs, n, |cs|, x)
    ensures i < n ==> Count(Delete(cs, i), 1, n - 1, x) + One(cs[i], x) == Count(cs, 1, n, x)
    ensures i >= n ==> Count(Delete(cs, i), 1, n, x) == Count(cs, 1, n, x)
    ensures i >= n ==> Count(Delete(cs, i), n, |cs| - 1, x) + One(cs[i], x) == Count(cs, n, |cs|, x)
  {
    if i < n {
      SameCount(Delete(cs, i), cs, n - 1, |cs| - 1, 1, x);
      CountWithout(cs, 1, n, i, x);
    } else {
      SameCount(cs, Delete(cs, i), 1, n, 0, x);
      CountWithout(cs, n, |cs|, i, x);
    }
  }

  lemma CountWithout(cs: seq<Case>, a: nat, b: nat, i: nat, x: Case)
    requires a <= i < b <= |cs|
    ensures Count(Delete(cs, i), a, b - 1, x) + One(cs[i], x) == Count(cs, a, b, x)
  {
    var ds := Delete(cs, i);
    CountSplit(cs, a, i, b, x);
    CountSplit(ds, a, i, b - 1, x);
    SameCount(cs, ds, a, i, 0, x);
    SameCount(ds, cs, i, b - 1, 1, x);
  }

  lemma LoopStarts(cs: seq<Case>)
    requires WellFormed(cs)
    ensures LoopInv(cs, StartLoop(cs))
  {
    assert cs[1..|cs|] == cs[1..];
    forall x: Case
      ensures Accounted(cs, StartLoop(cs), x)
    {
      CountIsMultiplicity(cs, 1, |cs|, x);
    }
  }

  /** Every round keeps the account of cases, whichever outcome the environment picks. */
  lemma LoopKeepsAccount(cs: seq<Case>, l: Loop, o: Outcome)
    requires LoopInv(cs, l) && CanStep(cs, l, o)
    ensures LoopInv(NextCases(cs, l, o), NextLoop(cs, l, o))
  {
    StaysInRange(cs, l, o);
    if Hit(cs, l, o) > 0 {
      DeactivateKeepsShape(cs, l.n, Hit(cs, l, o));
    } else if o.Deleted? {
      DeleteKeepsShape(cs, Find(cs, l.at.ch));
    }
    forall x: Case
      ensures Accounted(NextCases(cs, l, o), NextLoop(cs, l, o), x)
    {
      assert Accounted(cs, l, x);
      StaysAccounted(cs, l, o, x);
    }
  }

  lemma StaysAccounted(cs: seq<Case>, l: Loop, o: Outcome, x: Case)
    requires InRange(cs, l) && CanStep(cs, l, o) && InRange(NextCases(cs, l, o), NextLoop(cs, l, o)) && Accounted(cs, l, x)
    ensures Accounted(NextCases(cs, l, o), NextLoop(cs, l, o), x)
  {
    if Hit(cs, l, o) > 0 {
      DeactivateSplits(cs, l.n, Hit(cs, l, o), x);
    } else if o.Deleted? {
      DropStaysAccounted(cs, l, x);
    }
  }

  lemma DropStaysAccounted(cs: seq<Case>, l: Loop, x: Case)
    requires InRange(cs, l) && CanStep(cs, l, Deleted) && Accounted(cs, l, x)
    ensures 1 <= NextLoop(cs, l, Deleted).n < |cs| && Accounted(NextCases(cs, l, Deleted), NextLoop(cs, l, Deleted), x)
  {
    var i := Find(cs, l.at.ch);
    var l' := NextLoop(cs, l, Deleted);
    DeleteSplits(cs, l.n, i, x);
    if i < l.n {
      assert l'.lost[x] == l.lost[x] + One(cs[i], x) && l'.late == l.late;
    } else {
      assert l'.late[x] == l.late[x] + One(cs[i], x) && l'.lost == l.lost;
    }
  }

  /** Rounds left: every select round that serves or removes a case lowers `n` plus the number
      of cases, and inside the fast path the distance to the boundary falls. */
  function Major(cs: seq<Case>, l: Loop): nat {
    l.n + |cs|
  }

  function Minor(l: Loop): nat {
    match l.at
    case Finished => 0
    case Drop(_, _) => 1
    case Select => 2
    case Scan(i) => if i < l.n then 3 + l.n - i else 3
  }

  /** The loop cannot run forever, whatever the environment does. */
  lemma LoopRankFalls(cs: seq<Case>, l: Loop, o: Outcome)
    requires CanStep(cs, l, o)
    ensures var cs', l' := NextCases(cs, l, o), NextLoop(cs, l, o);
            Major(cs', l') < Major(cs, l) || (Major(cs', l') == Major(cs, l) && Minor(l') < Minor(l))
  {
  }

  // ---------------------------------------------------------------------------------------
  // Whole runs of the loop

  predicate CanRun(cs: seq<Case>, l: Loop, os: seq<Outcome>)
    decreases |os|
  {
    os == [] || (CanStep(cs, l, os[0]) && CanRun(NextCases(cs, l, os[0]), NextLoop(cs, l, os[0]), os[1..]))
  }

  function RunLoop(cs: seq<Case>, l: Loop, os: seq<Outcome>): (seq<Case>, Loop)
    requires CanRun(cs, l, os)
    decreases |os|
  {
    if os == [] then (cs, l) else RunLoop(NextCases(cs, l, os[0]), NextLoop(cs, l, os[0]), os[1..])
  }

  lemma {:induction false} RunExtends(cs: seq<Case>, l: Loop, os: seq<Outcome>, o: Outcome)
    requires CanRun(cs, l, os)
    requires var (cs', l') := RunLoop(cs, l, os); CanStep(cs', l', o)
    ensures CanRun(cs, l, os + [o])
    ensures var (cs', l') := RunLoop(cs, l, os); RunLoop(cs, l, os + [o]) == (NextCases(cs', l', o), NextLoop(cs', l', o))
    decreases |os|
  {
    if os == [] {
      assert [o][1..] == [];
    } else {
      RunExtends(NextCases(cs, l, os[0]), NextLoop(cs, l, os[0]), os[1..], o);
      assert (os + [o])[1..] == os[1..] + [o];
    }
  }

  lemma {:induction false} RunKeepsAccount(cs: seq<Case>, l: Loop, os: seq<Outcome>)
    requires LoopInv(cs, l) && CanRun(cs, l, os)
    ensures var (cs', l') := RunLoop(cs, l, os); LoopInv(cs', l') && l'.all == l.all
    decreases |os|
  {
    if os != [] {
      LoopKeepsAccount(cs, l, os[0]);
      RunKeepsAccount(NextCases(cs, l, os[0]), NextLoop(cs, l, os[0]), os[1..]);
    }
  }

  /** The cases a run of the fast path tries to send on. */
  function Tried(cs: seq<Case>, l: Loop, os: seq<Outcome>): seq<Case>
    requires CanRun(cs, l, os)
    decreases |os|
  {
    if os == [] then []
    else
      (if os[0].Sent? || os[0].Blocked? then [cs[l.at.i]] else [])
      + Tried(NextCases(cs, l, os[0]), NextLoop(cs, l, os[0]), os[1..])
  }

  /** The fast path tries each active case once: whatever succeeds, the cases tried and those
      still ahead of the index are the active cases it started with. */
  lemma {:induction false} FastPathTriesOnce(cs: seq<Case>, l: Loop, os: seq<Outcome>, x: Case)
    requires l.at.Scan? && 1 <= l.at.i <= l.n <= |cs| && CanRun(cs, l, os)
    requires forall k :: 0 <= k < |os| ==> os[k].Sent? || os[k].Blocked?
    ensures var (cs', l') := RunLoop(cs, l, os);
            && l'.at.Scan? && l'.at.i <= l'.n <= |cs'|
            && multiset(Tried(cs, l, os))[x] + Count(cs', l'.at.i, l'.n, x) == Count(cs, l.at.i, l.n, x)
    decreases |os|
  {
    if os != [] {
      var ds, m := NextCases(cs, l, os[0]), NextLoop(cs, l, os[0]);
      OneTry(cs, l, os[0], x);
      FastPathTriesOnce(ds, m, os[1..], x);
      assert Tried(cs, l, os) == [cs[l.at.i]] + Tried(ds, m, os[1..]);
    }
  }

  lemma OneTry(cs: seq<Case>, l: Loop, o: Outcome, x: Case)
    requires CanStep(cs, l, o) && (o.Sent? || o.Blocked?)
    ensures var ds, m := NextCases(cs, l, o), NextLoop(cs, l, o);
            && m.at.Scan? && 1 <= m.at.i <= m.n <= |ds|
            && Count(ds, m.at.i, m.n, x) + One(cs[l.at.i], x) == Count(cs, l.at.i, l.n, x)
  {
    if o.Sent? {
      DeactivateTail(cs, l.n, l.at.i, x);
    }
  }

  /** A finished send served or lost every case it started with, each exactly once; the list it
      leaves holds the served cases that were not removed; its result counts the served ones. */
  lemma SendAccount(cs: seq<Case>, os: seq<Outcome>)
    requires WellFormed(cs) && CanRun(cs, StartLoop(cs), os)
    requires RunLoop(cs, StartLoop(cs), os).1.at.Finished?
    ensures var (cs', l') := RunLoop(cs, StartLoop(cs), os);
            && WellFormed(cs')
            && multiset(cs[1..]) == l'.served + l'.lost
            && l'.served == multiset(cs'[1..]) + l'.late
            && l'.nsent == |l'.served| == |cs| - 1 - |l'.lost|
  {
    LoopStarts(cs);
    RunKeepsAccount(cs, StartLoop(cs), os);
    var (cs', l') := RunLoop(cs, StartLoop(cs), os);
    FinishedAccount(cs', l');
    assert |multiset(cs[1..])| == |cs| - 1;
  }

  /** When no case is active the account is about whole multisets. */
  lemma FinishedAccount(cs: seq<Case>, l: Loop)
    requires LoopInv(cs, l) && l.at.Finished?
    ensures l.all == l.served + l.lost && l.served == multiset(cs[1..]) + l.late
  {
    assert cs[1..|cs|] == cs[1..];
    forall x: Case
      ensures l.all[x] == l.served[x] + l.lost[x] && l.served[x] == multiset(cs[1..])[x] + l.late[x]
    {
      assert Accounted(cs, l, x);
      CountIsMultiplicity(cs, 1, |cs|, x);
    }
  }
}
