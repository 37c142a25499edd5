/** The feed's code: the case list in an array that `delete` shifts and `deactivate` permutes in
    place, and the loops of `Send`. Blocking and the readiness of subscriber channels come from
    the environment and are chosen nondeterministically. */
module FeedImplementation {
  import opened CaseList

  /** Where a removal found its case, or why it found none. */
  datatype Removal = FromInbox | FromCases | Waits | Panics

  class Feed {
    /** The first `len` elements of `buf` are the send cases. */
    var buf: array<Case>
    var len: nat
    var inbox: seq<Case>
    var token: bool
    /** Subscriptions made so far; stamps the cases, which the program does not do. */
    var made: nat
    /** The cases whose channel received a value, in the order of the sends. */
    var delivered: seq<Case>

    ghost predicate Valid()
      reads this, buf
    {
      && len <= buf.Length
      && WellFormed(buf[..len])
      && forall c :: c in inbox ==> c.Entry?
    }

    ghost function Cases(): seq<Case>
      requires len <= buf.Length
      reads this, buf
    {
      buf[..len]
    }

    constructor ()
      ensures Valid() && fresh(buf) && token
      ensures Cases() == [RemoveSub] && inbox == [] && delivered == []
    {
      buf := new Case[4](_ => RemoveSub);
      len, inbox, token, made, delivered := 1, [], true, 0, [];
    }

    method FindCase(ch: Chan) returns (r: int)
      requires Valid()
      ensures r == Find(Cases(), ch)
    {
      var i := 0;
      FindsFirst(Cases(), ch);
      while i < len
        invariant i <= len
        invariant forall j :: 0 <= j < i ==> !Carries(buf[j], ch)
      {
        if Carries(buf[i], ch) {
          return i;
        }
        i := i + 1;
      }
      return -1;
    }

    /** Shifts the cases behind `k` down by one. */
    method DeleteCase(k: nat)
      requires Valid() && 0 < k < len
      modifies this`len, buf
      ensures Valid() && Cases() == Delete(old(Cases()), k)
    {
      ghost var cs := Cases();
      var i := k;
      while i + 1 < len
        invariant k <= i < len == |cs| <= buf.Length
        invariant forall j :: 0 <= j < k ==> buf[j] == cs[j]
        invariant forall j :: k <= j < i ==> buf[j] == cs[j + 1]
        invariant forall j :: i <= j < len ==> buf[j] == cs[j]
      {
        buf[i] := buf[i + 1];
        i := i + 1;
      }
      len := len - 1;
      ShiftIsDelete(cs, Cases(), k);
      DeleteKeepsShape(cs, k);
    }

    method FindAndDelete(ch: Chan) returns (index: int)
      requires Valid()
      modifies this`len, buf
      ensures Valid() && index == Find(old(Cases()), ch)
      ensures index == -1 ==> Cases() == old(Cases())
      ensures index != -1 ==> Cases() == Delete(old(Cases()), index)
    {
      index := FindCase(ch);
      if index != -1 {
        NotSlotZero(Cases(), ch);
        DeleteCase(index);
      }
    }

    method DeactivateCase(n: nat, i: nat)
      requires Valid() && 0 < i < n <= len
      modifies buf
      ensures Valid() && Cases() == Deactivate(old(Cases()), n, i)
    {
      buf[i], buf[n - 1] := buf[n - 1], buf[i];
      assert Cases() == Deactivate(old(Cases()), n, i);
    }

    /** Moves the cases to a larger array when `more` cases do not fit. */
    method MakeRoom(more: nat)
      requires Valid()
      modifies this`buf
      ensures Valid() && (buf == old(buf) || fresh(buf)) && len + more <= buf.Length
      ensures Cases() == old(Cases())
    {
      if buf.Length < len + more {
        var grown := new Case[2 * (len + more)](_ => RemoveSub);
        forall j | 0 <= j < len {
          grown[j] := buf[j];
        }
        buf := grown;
        assert buf[..len] == old(Cases());
      }
    }

    /** Appends the inbox to the cases, in place when the array has room. */
    method TakeInbox()
      requires Valid()
      modifies this`buf, this`len, this`inbox, buf
      ensures Valid() && (buf == old(buf) || fresh(buf))
      ensures Cases() == old(Cases()) + old(inbox) && inbox == []
    {
      ghost var cs := Cases();
      MakeRoom(|inbox|);
      var k := 0;
      while k < |inbox|
        invariant k <= |inbox| && len == old(len) && len + |inbox| <= buf.Length && inbox == old(inbox)
        invariant buf == old(buf) || fresh(buf)
        invariant buf[..len + k] == cs + inbox[..k]
      {
        buf[len + k] := inbox[k];
        k := k + 1;
        assert buf[..len + k] == buf[..len + k - 1] + [inbox[k - 1]];
      }
      assert inbox[..|inbox|] == inbox;
      len, inbox := len + |inbox|, [];
    }

    method Subscribe(ch: Chan) returns (id: nat)
      requires Valid()
      modifies this`inbox, this`made
      ensures Valid() && id == old(made) && made == id + 1
      ensures inbox == old(inbox) + [Entry(id, ch)] && Cases() == old(Cases())
    {
      id, made := made, made + 1;
      inbox := inbox + [Entry(id, ch)];
    }

    /** The removal of one subscription of `ch`. While a Send holds the token it waits, and that
        Send receives it in a select round. Without a case of the channel, which the protocol
        excludes, the program panics with the token taken. */
    method Remove(ch: Chan) returns (r: Removal)
      requires Valid()
      modifies this`inbox, this`token, this`len, buf
      ensures Valid()
      ensures r.FromInbox? <==> old(Find(inbox, ch)) != -1
      ensures r.Waits? <==> old(Find(inbox, ch)) == -1 && !old(token)
      ensures r.FromCases? <==> old(Find(inbox, ch)) == -1 && old(token) && old(Find(Cases(), ch)) != -1
      ensures r.FromInbox? ==> inbox == Delete(old(inbox), old(Find(inbox, ch)))
      ensures !r.FromInbox? ==> inbox == old(inbox)
      ensures r.FromCases? ==> Cases() == Delete(old(Cases()), old(Find(Cases(), ch)))
      ensures !r.FromCases? ==> Cases() == old(Cases())
      ensures token == (old(token) && !r.Panics?)
    {
      var index := Find(inbox, ch);
      if index != -1 {
        DeleteKeepsEntries(inbox, index);
        inbox := Delete(inbox, index);
        return FromInbox;
      }
      if !token {
        return Waits;
      }
      token := false;
      index := FindAndDelete(ch);
      if index == -1 {
        return Panics;
      }
      token := true;
      return FromCases;
    }

    /** The outcomes `os` took the sender from the cases `cs` to the present list and loop state
        `l`, and the channels served since `base` are those `l` accounts for. */
    ghost predicate Follows(cs: seq<Case>, os: seq<Outcome>, l: Loop, base: nat)
      reads this, buf
    {
      Valid() && inbox == [] && !token && Explains(cs, os, l, Cases(), delivered, base)
    }

    /** Sends to every case. `os` records what the environment decided; the list, the cases served
        and the result are those of the rounds it describes, which end in `l`. */
    method Send() returns (nsent: nat, ghost os: seq<Outcome>, ghost l: Loop)
      requires Valid() && token
      modifies this, buf
      ensures Valid() && token && inbox == [] && made == old(made)
      ensures Explains(old(Cases()) + old(inbox), os, l, Cases(), delivered, |old(delivered)|) && l.at.Finished?
      ensures multiset((old(Cases()) + old(inbox))[1..]) == l.served + l.lost
      ensures l.served == multiset(Cases()[1..]) + l.late
      ensures nsent == l.nsent == |delivered| - |old(delivered)|
    {
      token := false;
      TakeInbox();
      nsent, os, l := AllRounds();
      token := true;
    }

    /** Alternates the fast path and the select until no case is active. */
    method AllRounds() returns (nsent: nat, ghost os: seq<Outcome>, ghost l: Loop)
      requires Valid() && inbox == [] && !token
      modifies this`delivered, this`len, buf
      ensures Valid()
      ensures Explains(old(Cases()), os, l, Cases(), delivered, |old(delivered)|) && l.at.Finished?
      ensures multiset(old(Cases())[1..]) == l.served + l.lost && l.served == multiset(Cases()[1..]) + l.late
      ensures nsent == l.nsent == |delivered| - |old(delivered)|
    {
      ghost var cs, base := Cases(), |delivered|;
      NothingYet(cs, delivered);
      os, nsent, l := [], 0, StartLoop(cs);
      var n := len;
      while true
        invariant Follows(cs, os, l, base) && l.n == n && l.nsent == nsent && l.at == Scan(1)
        decreases n + len
      {
        n, nsent, os, l := FastPath(n, nsent, cs, os, l, base);
        if n == 1 {
          break;
        }
        n, nsent, os, l := SelectRound(n, nsent, cs, os, l, base);
      }
      Closes(cs, os, l, Cases(), delivered, base);
    }

    /** Tries every active case once without blocking. A served case is replaced by the last active
        one, so the index stays. */
    method FastPath(n: nat, nsent: nat, ghost cs: seq<Case>, ghost os: seq<Outcome>, ghost l: Loop, ghost base: nat)
      returns (n': nat, nsent': nat, ghost os': seq<Outcome>, ghost l': Loop)
      requires Follows(cs, os, l, base) && l.n == n && l.nsent == nsent && l.at == Scan(1)
      modifies this`delivered, buf
      ensures Follows(cs, os', l', base) && l'.n == n' && l'.nsent == nsent' && n' <= n
      ensures l'.at == if n' == 1 then Finished else Select
    {
      n', nsent', os', l' := n, nsent, os, l;
      var i := 1;
      while i < n'
        invariant Follows(cs, os', l', base) && l'.n == n' <= n && l'.nsent == nsent' && l'.at == Scan(i)
        decreases n' - i
      {
        var ok: bool;
        ok, os', l' := TrySend(n', i, cs, os', l', base);
        if ok {
          nsent', n' := nsent' + 1, n' - 1;
        } else {
          i := i + 1;
        }
      }
      os', l' := Skip(cs, os', l', base, ScanDone);
    }

    /** One attempt to send to case `i` without blocking. */
    method TrySend(n: nat, i: nat, ghost cs: seq<Case>, ghost os: seq<Outcome>, ghost l: Loop, ghost base: nat)
      returns (ok: bool, ghost os': seq<Outcome>, ghost l': Loop)
      requires Follows(cs, os, l, base) && l.n == n && l.at == Scan(i) && i < n
      modifies this`delivered, buf
      ensures Follows(cs, os', l', base)
      ensures l'.n == (if ok then n - 1 else n) && l'.nsent == (if ok then l.nsent + 1 else l.nsent)
      ensures l'.at == Scan(if ok then i else i + 1)
    {
      ok := *;
      if ok {
        os', l' := Serve(n, i, cs, os, l, base, Sent);
      } else {
        os', l' := Skip(cs, os, l, base, Blocked);
      }
    }

    /** A round of the fast path that serves nobody only moves the loop on. */
    ghost method Skip(cs: seq<Case>, os: seq<Outcome>, l: Loop, base: nat, o: Outcome) returns (os': seq<Outcome>, l': Loop)
      requires Follows(cs, os, l, base) && l.at.Scan?
      requires (o == Blocked && l.at.i < l.n) || (o == ScanDone && l.at.i == l.n)
      ensures Follows(cs, os', l', base)
      ensures l' == l.(at := if o == Blocked then Scan(l.at.i + 1) else if l.n == 1 then Finished else Select)
    {
      Advance(cs, os, l, Cases(), delivered, base, o);
      os', l' := os + [o], NextLoop(Cases(), l, o);
    }

    /** Blocks until a case can be served or a removal arrives. The removal is of some channel
        in the list; its case may already have been served. */
    method SelectRound(n: nat, nsent: nat, ghost cs: seq<Case>, ghost os: seq<Outcome>, ghost l: Loop, ghost base: nat)
      returns (n': nat, nsent': nat, ghost os': seq<Outcome>, ghost l': Loop)
      requires Follows(cs, os, l, base) && l.n == n && l.nsent == nsent && l.at == Select
      modifies this`delivered, this`len, buf
      ensures Follows(cs, os', l', base) && l'.n == n' && l'.nsent == nsent' && l'.at == Scan(1)
      ensures n' + len < n + old(len)
    {
      var k: nat :| k < n;
      if k != 0 {
        os', l' := Serve(n, k, cs, os, l, base, Chosen(k));
        n', nsent' := n - 1, nsent + 1;
      } else {
        n', nsent' := n, nsent;
        var index: int;
        index, os', l' := ReceiveRemoval(cs, os, l, base);
        if index < n {
          n' := n - 1;
        }
      }
    }

    /** Receives the removal of some channel in the list and deletes its first case. */
    method ReceiveRemoval(ghost cs: seq<Case>, ghost os: seq<Outcome>, ghost l: Loop, ghost base: nat)
      returns (index: int, ghost os': seq<Outcome>, ghost l': Loop)
      requires Follows(cs, os, l, base) && l.at == Select
      modifies this`len, buf
      ensures Follows(cs, os', l', base) && len == old(len) - 1
      ensures l'.n == (if index < l.n then l.n - 1 else l.n) && l'.nsent == l.nsent && l'.at == Scan(1)
    {
      var j: nat :| 0 < j < len;
      var ch := buf[j].ch;
      ghost var now := Cases();
      index := FindAndDelete(ch);
      os', l' := AfterRemoval(cs, os, l, now, delivered, base, j, index);
    }

    /** Delivers to case `i` and moves it out of the first `n`. */
    method Serve(n: nat, i: nat, ghost cs: seq<Case>, ghost os: seq<Outcome>, ghost l: Loop, ghost base: nat, ghost o: Outcome)
      returns (ghost os': seq<Outcome>, ghost l': Loop)
      requires Follows(cs, os, l, base) && l.n == n && CanStep(Cases(), l, o) && Hit(Cases(), l, o) == i > 0
      modifies this`delivered, buf
      ensures os' == os + [o] && Follows(cs, os', l', base)
      ensures l'.n == n - 1 && l'.nsent == l.nsent + 1 && l'.at == if o.Sent? then l.at else Scan(1)
      ensures Cases() == Deactivate(old(Cases()), n, i)
      ensures delivered == old(delivered) + [old(Cases())[i]]
    {
      Advance(cs, os, l, Cases(), delivered, base, o);
      os', l' := os + [o], NextLoop(Cases(), l, o);
      delivered := delivered + [buf[i]];
      DeactivateCase(n, i);
    }
  }

  lemma ShiftIsDelete(cs: seq<Case>, ds: seq<Case>, k: nat)
    requires k < |cs| && |ds| == |cs| - 1
    requires forall j :: 0 <= j < k ==> ds[j] == cs[j]
    requires forall j :: k <= j < |ds| ==> ds[j] == cs[j + 1]
    ensures ds == Delete(cs, k)
  {
  }

  lemma DeleteKeepsEntries(cs: seq<Case>, i: nat)
    requires i < |cs| && forall c :: c in cs ==> c.Entry?
    ensures forall c :: c in Delete(cs, i) ==> c.Entry?
  {
  }

  /** The outcomes `os` are a run of the loop that starts with `cs` and has come to `now` and `l`;
      what the log gained since `base` is what the run served. */
  ghost predicate Explains(cs: seq<Case>, os: seq<Outcome>, l: Loop, now: seq<Case>, log: seq<Case>, base: nat) {
    && CanRun(cs, StartLoop(cs), os) && RunLoop(cs, StartLoop(cs), os) == (now, l)
    && InRange(now, l)
    && base <= |log| && multiset(log[base..]) == l.served
  }

  /** Adding a round to the outcomes so far. */
  lemma Advance(cs: seq<Case>, os: seq<Outcome>, l: Loop, now: seq<Case>, log: seq<Case>, base: nat, o: Outcome)
    requires Explains(cs, os, l, now, log, base) && CanStep(now, l, o)
    ensures Explains(cs, os + [o], NextLoop(now, l, o), NextCases(now, l, o),
                     if Hit(now, l, o) > 0 then log + [now[Hit(now, l, o)]] else log, base)
  {
    RunExtends(cs, StartLoop(cs), os, o);
    StaysInRange(now, l, o);
    LogGrows(now, l, log, base, o);
  }

  /** Receiving the removal of the channel of case `j` and deleting the first case of that channel
      are two rounds. */
  lemma AfterRemoval(cs: seq<Case>, os: seq<Outcome>, l: Loop, now: seq<Case>, log: seq<Case>, base: nat, j: nat, index: int)
    returns (os': seq<Outcome>, l': Loop)
    requires Explains(cs, os, l, now, log, base) && l.at == Select && WellFormed(now)
    requires 0 < j < |now| && index == Find(now, now[j].ch)
    ensures 0 < index < |now| && Explains(cs, os', l', Delete(now, index), log, base)
    ensures l'.n == (if index < l.n then l.n - 1 else l.n) && l'.nsent == l.nsent && l'.at == Scan(1)
  {
    var ch := now[j].ch;
    FindsFirst(now, ch);
    assert Carries(now[j], ch);
    var o := Outcome.Received(ch, now[j].id);
    Advance(cs, os, l, now, log, base, o);
    var m := NextLoop(now, l, o);
    Advance(cs, os + [o], m, now, log, base, Deleted);
    os', l' := os + [o] + [Deleted], NextLoop(now, m, Deleted);
  }

  lemma NothingYet(cs: seq<Case>, log: seq<Case>)
    requires WellFormed(cs)
    ensures Explains(cs, [], StartLoop(cs), cs, log, |log|)
  {
    assert log[|log|..] == [];
  }

  lemma Closes(cs: seq<Case>, os: seq<Outcome>, l: Loop, now: seq<Case>, log: seq<Case>, base: nat)
    requires WellFormed(cs) && Explains(cs, os, l, now, log, base) && l.at.Finished?
    ensures multiset(cs[1..]) == l.served + l.lost && l.served == multiset(now[1..]) + l.late
    ensures l.nsent == |log| - base
  {
    SendAccount(cs, os);
    assert |multiset(log[base..])| == |log| - base;
  }

  lemma LogGrows(now: seq<Case>, l: Loop, log: seq<Case>, base: nat, o: Outcome)
    requires CanStep(now, l, o) && base <= |log| && multiset(log[base..]) == l.served
    ensures var log' := if Hit(now, l, o) > 0 then log + [now[Hit(now, l, o)]] else log;
            multiset(log'[base..]) == NextLoop(now, l, o).served
  {
    var h := Hit(now, l, o);
    if h > 0 {
      assert (log + [now[h]])[base..] == log[base..] + [now[h]];
      assert NextLoop(now, l, o).served == l.served + multiset{now[h]};
    }
  }
}
