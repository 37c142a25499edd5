/** What subscribers of the event loop are sent, in terms of the steps of a whole run. */
module EventLoopTheorems {
  import opened EventLoopProtocol

  /** The events published in a run, in order. */
  function Published(ls: seq<Action>): seq<Event> {
    if ls == [] then [] else (if ls[0].Publish? then [ls[0].ev] else []) + Published(ls[1..])
  }

  /** How many events the loop took. */
  function Takes(ls: seq<Action>): nat {
    if ls == [] then 0 else (if ls[0].Take? then 1 else 0) + Takes(ls[1..])
  }

  /** Nothing published is lost, repeated or reordered before the loop takes it. */
  lemma {:induction false} TakenInOrder(s: State, ls: seq<Action>)
    requires CanRunAll(s, ls)
    ensures RunAll(s, ls).taken + RunAll(s, ls).queue == s.taken + s.queue + Published(ls)
    ensures |RunAll(s, ls).taken| == |s.taken| + Takes(ls)
    decreases |ls|
  {
    if ls == [] {
      assert s.taken + s.queue + [] == s.taken + s.queue;
    } else {
      var s' := Apply(s, ls[0]);
      TakenInOrder(s', ls[1..]);
      OneStepInOrder(s, ls[0]);
      var now := if ls[0].Publish? then [ls[0].ev] else [];
      assert s.taken + s.queue + (now + Published(ls[1..])) == s.taken + s.queue + now + Published(ls[1..]);
    }
  }

  lemma OneStepInOrder(s: State, a: Action)
    requires Enabled(s, a)
    ensures Apply(s, a).taken + Apply(s, a).queue == s.taken + s.queue + if a.Publish? then [a.ev] else []
    ensures |Apply(s, a).taken| == |s.taken| + if a.Take? then 1 else 0
  {
    if a.Take? {
      assert s.queue == [s.queue[0]] + s.queue[1..];
    }
  }

  lemma {:induction false} RunSplits(s: State, ls: seq<Action>, j: nat)
    requires CanRunAll(s, ls) && j <= |ls|
    ensures CanRunAll(s, ls[..j]) && CanRunAll(RunAll(s, ls[..j]), ls[j..])
    ensures RunAll(RunAll(s, ls[..j]), ls[j..]) == RunAll(s, ls)
    decreases j
  {
    if j == 0 {
      assert ls[..0] == [] && ls[0..] == ls;
    } else {
      RunSplits(Apply(s, ls[0]), ls[1..], j - 1);
      assert ls[..j] == [ls[0]] + ls[1..][..j - 1] && ls[j..] == ls[1..][j - 1..];
      RunPrepends(s, ls[0], ls[1..][..j - 1]);
    }
  }

  predicate Running(s: State, f: SubId) {
    In(s, f, Installed) || In(s, f, Unsubscribing)
  }

  predicate Over(s: State, f: SubId) {
    In(s, f, Closed) || In(s, f, Returned)
  }

  /** A subscription keeps its channel and the place of its install, runs until it is uninstalled, and
      keeps the place of its uninstall. */
  lemma {:induction false} Keeps(s: State, ls: seq<Action>, f: SubId)
    requires CanRunAll(s, ls) && (Running(s, f) || Over(s, f))
    ensures var s' := RunAll(s, ls);
            && f in s'.subs && s'.subs[f].ch == s.subs[f].ch && s'.subs[f].from == s.subs[f].from
            && (Running(s', f) || Over(s', f))
            && (Over(s, f) ==> Over(s', f) && s'.subs[f].until == s.subs[f].until)
            && (Running(s, f) && Uninstall(f) !in ls ==> Running(s', f))
    decreases |ls|
  {
    if ls != [] {
      var s' := Apply(s, ls[0]);
      KeepsOnce(s, ls[0], f);
      Keeps(s', ls[1..], f);
    }
  }

  lemma KeepsOnce(s: State, a: Action, f: SubId)
    requires Enabled(s, a) && (Running(s, f) || Over(s, f))
    ensures var s' := Apply(s, a);
            && f in s'.subs && s'.subs[f].ch == s.subs[f].ch && s'.subs[f].from == s.subs[f].from
            && (Running(s', f) || Over(s', f))
            && (Over(s, f) ==> Over(s', f) && s'.subs[f].until == s.subs[f].until)
            && (Running(s, f) && a != Uninstall(f) ==> Running(s', f))
  {
  }

  /** `from` is the number of events taken before the install. */
  lemma {:induction false} FromIsInstall(ls: seq<Action>, f: SubId, p: nat)
    requires CanRunAll(Init(), ls) && p < |ls| && ls[p] == Install(f)
    ensures var s := RunAll(Init(), ls);
            && f in s.subs && s.subs[f].from == Takes(ls[..p])
            && (Running(s, f) || Over(s, f))
            && (Uninstall(f) !in ls[p + 1..] ==> Running(s, f))
  {
    RunSplits(Init(), ls, p);
    var s := RunAll(Init(), ls[..p]);
    TakenInOrder(Init(), ls[..p]);
    assert ls[p..][0] == ls[p] && ls[p..][1..] == ls[p + 1..];
    Keeps(Apply(s, Install(f)), ls[p + 1..], f);
  }

  /** `until` is the number of events taken before the uninstall. */
  lemma {:induction false} UntilIsUninstall(ls: seq<Action>, f: SubId, q: nat)
    requires CanRunAll(Init(), ls) && q < |ls| && ls[q] == Uninstall(f)
    ensures var s := RunAll(Init(), ls); Over(s, f) && s.subs[f].until == Takes(ls[..q])
  {
    RunSplits(Init(), ls, q);
    var s := RunAll(Init(), ls[..q]);
    TakenInOrder(Init(), ls[..q]);
    assert ls[q..][0] == ls[q] && ls[q..][1..] == ls[q + 1..];
    Keeps(Apply(s, Uninstall(f)), ls[q + 1..], f);
  }

  /** The loop takes what is published, in order. */
  lemma {:induction false} TakenIsPublished(ls: seq<Action>, a: nat, b: int)
    requires CanRunAll(Init(), ls) && a <= b <= Takes(ls)
    ensures |RunAll(Init(), ls).taken| == Takes(ls) <= |Published(ls)|
    ensures RunAll(Init(), ls).taken[a..b] == Published(ls)[a..b]
  {
    var s := RunAll(Init(), ls);
    TakenInOrder(Init(), ls);
    assert s.taken + s.queue == Published(ls);
  }

  /** A subscription that is installed at step p of a run and not uninstalled is sent the events
      published from the one after the last taken before p on, in order and once each, up to those
      the loop has taken; the last of these may be missing while the loop is sending it. */
  lemma {:induction false} SentWhileInstalled(ls: seq<Action>, f: SubId, p: nat)
    requires CanRunAll(Init(), ls) && p < |ls| && ls[p] == Install(f) && Uninstall(f) !in ls[p + 1..]
    ensures var s := RunAll(Init(), ls);
            && f in s.subs
            && var n := Takes(ls) - if f in Owed(s.loop) then 1 else 0;
               && Takes(ls[..p]) <= n <= |Published(ls)|
               && SentFor(Results(s, f).sent, f) == Published(ls)[Takes(ls[..p])..n]
  {
    var s := RunAll(Init(), ls);
    FromIsInstall(ls, f, p);
    TakenInOrder(Init(), ls);
    SentBetweenInstallAndUninstall(s, f);
    TakenIsPublished(ls, s.subs[f].from, Takes(ls) - if f in Owed(s.loop) then 1 else 0);
  }

  /** A subscription that is installed at step p and uninstalled at step q is sent exactly the events
      taken between these steps. */
  lemma {:induction false} SentUntilUninstalled(ls: seq<Action>, f: SubId, p: nat, q: nat)
    requires CanRunAll(Init(), ls) && p < |ls| && ls[p] == Install(f) && q < |ls| && ls[q] == Uninstall(f)
    ensures var s := RunAll(Init(), ls);
            && f in s.subs && Takes(ls[..p]) <= Takes(ls[..q]) <= |Published(ls)|
            && SentFor(Results(s, f).sent, f) == Published(ls)[Takes(ls[..p])..Takes(ls[..q])]
  {
    var s := RunAll(Init(), ls);
    FromIsInstall(ls, f, p);
    UntilIsUninstall(ls, f, q);
    TakenInOrder(Init(), ls);
    SentBetweenInstallAndUninstall(s, f);
    TakenIsPublished(ls, s.subs[f].from, s.subs[f].until);
  }

  /** Subscribing to a channel gives a subscription of that channel for good. */
  lemma {:induction false} SubscribedToChannel(s: State, f: SubId, ch: ChanId, ls: seq<Action>)
    requires Enabled(s, Subscribe(f, ch)) && CanRunAll(Apply(s, Subscribe(f, ch)), ls)
    ensures var s' := RunAll(Apply(s, Subscribe(f, ch)), ls); f in s'.subs && s'.subs[f].ch == ch
  {
    SubsStay(Apply(s, Subscribe(f, ch)), ls, f);
  }

  lemma {:induction false} SubsStay(s: State, ls: seq<Action>, f: SubId)
    requires CanRunAll(s, ls) && f in s.subs
    ensures f in RunAll(s, ls).subs && RunAll(s, ls).subs[f].ch == s.subs[f].ch
    decreases |ls|
  {
    if ls != [] {
      SubsStay(Apply(s, ls[0]), ls[1..], f);
    }
  }
}
