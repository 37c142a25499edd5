/** The loop's own code: installing, uninstalling and broadcasting (template/subscribe.go.tpl). */
module EventLoop {

  type Event = int

  datatype SubType = UnknownSubscription | ResultsTaskSubscription

  class Subscription {
    const id: nat
    const typ: SubType
    /** Everything sent on the results channel for this subscription. */
    var results: seq<Event>
    var installed: bool
    var errClosed: bool

    constructor (id: nat, typ: SubType)
      ensures this.id == id && this.typ == typ && results == [] && !installed && !errClosed
    {
      this.id, this.typ, results, installed, errClosed := id, typ, [], false, false;
    }
  }

  type Bucket = map<nat, Subscription>

  class EventMsg {
    var index: map<SubType, Bucket>

    /** Every bucket exists and files each subscription under its own type and id, so no
        subscription is filed twice. */
    ghost predicate Valid()
      reads this
    {
      && (forall t: SubType :: t in index)
      && forall t, i :: t in index && i in index[t] ==> index[t][i].id == i && index[t][i].typ == t
    }

    constructor ()
      ensures Valid() && forall t :: t in index ==> index[t] == map[]
    {
      index := map[UnknownSubscription := map[], ResultsTaskSubscription := map[]];
      new;
      forall t: SubType
        ensures t in index
      {
        assert t == UnknownSubscription || t == ResultsTaskSubscription;
      }
    }

    method Install(f: Subscription)
      requires Valid()
      modifies this, f`installed
      ensures Valid() && f.installed
      ensures index.Keys == old(index).Keys
      ensures forall t :: t in index && t != f.typ ==> index[t] == old(index)[t]
      ensures index[f.typ].Keys == old(index)[f.typ].Keys + {f.id} && index[f.typ][f.id] == f
      ensures forall i :: i in old(index)[f.typ] && i != f.id ==> index[f.typ][i] == old(index)[f.typ][i]
    {
      var bucket: Bucket := index[f.typ];
      bucket := bucket[f.id := f];
      index := index[f.typ := bucket];
      f.installed := true;
    }

    method Uninstall(f: Subscription)
      requires Valid() && !f.errClosed
      modifies this, f`errClosed
      ensures Valid() && f.errClosed
      ensures index == old(index)[f.typ := old(index)[f.typ] - {f.id}]
    {
      index := index[f.typ := index[f.typ] - {f.id}];
      f.errClosed := true;
    }

    /** Sends the event once for every installed results subscription, in any order, and for no
        other. */
    method Broadcast(ev: Event)
      requires Valid()
      modifies index[ResultsTaskSubscription].Values`results
      ensures index == old(index)
      ensures forall i :: i in index[ResultsTaskSubscription] ==>
                var f := index[ResultsTaskSubscription][i]; f.results == old(f.results) + [ev]
    {
      var bucket := index[ResultsTaskSubscription];
      var todo := bucket.Keys;
      while todo != {}
        invariant todo <= bucket.Keys
        invariant forall i :: i in bucket.Keys - todo ==> bucket[i].results == old(bucket[i].results) + [ev]
        invariant forall i :: i in todo ==> bucket[i].results == old(bucket[i].results)
        decreases todo
      {
        var i :| i in todo;
        assert bucket[i] in bucket.Values;
        bucket[i].results := bucket[i].results + [ev];
        todo := todo - {i};
      }
    }
  }
}
