/**
 The methods of internal/rulestore as a caller sees them when no other goroutine runs in between. The interleavings
 are the subject of module Store; here each call is one change of the two maps and of the subscribers' channels.
 */
module StoreObject {
  import opened Wrappers
  import opened Store

  /** A channel of capacity one. */
  class Channel {
    var slot: Option<Bundle>

    constructor ()
      ensures slot == None
    {
      slot := None;
    }
  }

  class RuleStore {
    var bundles: map<EngineKey, Bundle>
    var subscribers: map<EngineKey, set<Channel>>

    /** A channel is registered under one key at most, and a key without subscribers has no entry. */
    ghost predicate Valid()
      reads this
    {
      && (forall k :: k in subscribers ==> subscribers[k] != {})
      && (forall k, k' :: k in subscribers && k' in subscribers && k != k' ==> subscribers[k] !! subscribers[k'])
    }

    function SubscribersOf(k: EngineKey): set<Channel>
      reads this
    {
      if k in subscribers then subscribers[k] else {}
    }

    constructor ()
      ensures Valid() && bundles == map[] && subscribers == map[]
    {
      bundles, subscribers := map[], map[];
    }

    /** The channel ends up holding `b` and nothing else, full or not before. */
    static method SendLatest(ch: Channel, b: Bundle)
      modifies ch
      ensures ch.slot == Some(b)
    {
      if ch.slot.None? {
        ch.slot := Some(b);
      } else {
        ch.slot := None;
        ch.slot := Some(b);
      }
    }

    method Broadcast(k: EngineKey, b: Bundle)
      modifies SubscribersOf(k)
      ensures forall ch :: ch in SubscribersOf(k) ==> ch.slot == Some(b)
    {
      var rest := SubscribersOf(k);
      while rest != {}
        invariant rest <= SubscribersOf(k)
        invariant forall ch :: ch in SubscribersOf(k) - rest ==> ch.slot == Some(b)
        decreases rest
      {
        var ch :| ch in rest;
        SendLatest(ch, b);
        rest := rest - {ch};
      }
    }

    method Publish(k: EngineKey, b: Bundle)
      requires Valid()
      modifies `bundles, SubscribersOf(k)
      ensures Valid() && bundles == old(bundles)[k := b]
      ensures forall ch :: ch in SubscribersOf(k) ==> ch.slot == Some(b)
      ensures forall k', ch :: k' != k && ch in SubscribersOf(k') ==> ch.slot == old(ch.slot)
    {
      bundles := bundles[k := b];
      Broadcast(k, b);
    }

    /** Stores and broadcasts unless the digest is the current one; then nothing changes at all. */
    method PublishIfChanged(k: EngineKey, b: Bundle) returns (changed: bool)
      requires Valid()
      modifies `bundles, SubscribersOf(k)
      ensures Valid() && changed == !(k in old(bundles) && old(bundles[k]).sha256 == b.sha256)
      ensures bundles == if changed then old(bundles)[k := b] else old(bundles)
      ensures k in bundles && bundles[k].sha256 == b.sha256
      ensures forall ch :: ch in SubscribersOf(k) ==> ch.slot == if changed then Some(b) else old(ch.slot)
      ensures forall k', ch :: k' != k && ch in SubscribersOf(k') ==> ch.slot == old(ch.slot)
    {
      if k in bundles && bundles[k].sha256 == b.sha256 {
        return false;
      }
      bundles := bundles[k := b];
      Broadcast(k, b);
      return true;
    }

    method Get(k: EngineKey) returns (b: Option<Bundle>)
      ensures b == if k in bundles then Some(bundles[k]) else None
    {
      b := if k in bundles then Some(bundles[k]) else None;
    }

    /** A fresh channel under `k`, already holding the current bundle if there is one. */
    method Subscribe(k: EngineKey) returns (ch: Channel)
      requires Valid()
      modifies `subscribers
      ensures Valid() && fresh(ch)
      ensures SubscribersOf(k) == old(SubscribersOf(k)) + {ch}
      ensures forall k' :: k' != k ==> SubscribersOf(k') == old(SubscribersOf(k'))
      ensures ch.slot == if k in bundles then Some(bundles[k]) else None
    {
      ch := new Channel();
      subscribers := subscribers[k := SubscribersOf(k) + {ch}];
      if k in bundles {
        ch.slot := Some(bundles[k]);
      }
    }

    /** Idempotent, and the key's entry goes with its last subscriber. */
    method Unsubscribe(k: EngineKey, ch: Channel)
      requires Valid()
      modifies `subscribers
      ensures Valid()
      ensures SubscribersOf(k) == old(SubscribersOf(k)) - {ch}
      ensures forall k' :: k' != k ==> SubscribersOf(k') == old(SubscribersOf(k'))
      ensures k in subscribers <==> old(SubscribersOf(k)) - {ch} != {}
    {
      var left := SubscribersOf(k) - {ch};
      subscribers := subscribers[k := left];
      if left == {} {
        subscribers := subscribers - {k};
      }
    }
  }
}
