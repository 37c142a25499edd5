/** The code of SubscriptionScope, run by one goroutine at a time. */
module SubscriptionScopes {

  /** A feed subscription; `removals` counts how often it was removed from its feed. */
  class FeedSub {
    var done: bool
    var removals: nat

    constructor ()
      ensures !done && removals == 0
    {
      done, removals := false, 0;
    }

    method Unsubscribe()
      modifies this
      ensures done && removals == old(removals) + if old(done) then 0 else 1
    {
      if !done {
        removals := removals + 1;
        done := true;
      }
    }
  }

  class ScopeSub {
    const sc: SubscriptionScope
    const s: FeedSub

    constructor (sc: SubscriptionScope, s: FeedSub)
      ensures this.sc == sc && this.s == s
    {
      this.sc, this.s := sc, s;
    }

    method Unsubscribe()
      modifies s, sc
      ensures s.done && s.removals == old(s.removals) + if old(s.done) then 0 else 1
      ensures sc.subs == old(sc.subs) - {this} && sc.closed == old(sc.closed)
    {
      s.Unsubscribe();
      sc.subs := sc.subs - {this};
    }
  }

  class SubscriptionScope {
    var subs: set<ScopeSub>
    var closed: bool

    constructor ()
      ensures subs == {} && !closed
    {
      subs, closed := {}, false;
    }

    method Track(s: FeedSub) returns (ss: ScopeSub?)
      modifies this
      ensures closed == old(closed)
      ensures closed ==> ss == null && subs == old(subs)
      ensures !closed ==> ss != null && fresh(ss) && ss.s == s && ss.sc == this && subs == old(subs) + {ss}
    {
      ss := null;
      if !closed {
        ss := new ScopeSub(this, s);
        subs := subs + {ss};
      }
    }

    /** Unsubscribes every tracked subscription, in any order; two wrappers may share one. */
    method Close()
      modifies this, set w <- subs :: w.s
      ensures closed && subs == if old(closed) then old(subs) else {}
      ensures forall w :: w in old(subs) ==>
                if old(closed) then w.s.done == old(w.s.done) && w.s.removals == old(w.s.removals)
                else w.s.done && w.s.removals == old(w.s.removals) + if old(w.s.done) then 0 else 1
    {
      if closed {
        return;
      }
      closed := true;
      var todo := subs;
      while todo != {}
        invariant todo <= subs == old(subs) && closed
        invariant forall w :: w in subs - todo ==> w.s.done
        invariant forall w :: w in subs ==> w.s.removals == old(w.s.removals) + if w.s.done && !old(w.s.done) then 1 else 0
        invariant forall w :: w in subs && old(w.s.done) ==> w.s.done
        decreases todo
      {
        var w :| w in todo;
        w.s.Unsubscribe();
        todo := todo - {w};
      }
      subs := {};
    }

    method Count() returns (n: nat)
      ensures n == |subs|
    {
      n := |subs|;
    }
  }
}
