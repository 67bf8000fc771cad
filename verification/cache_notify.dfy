/**
 * What current subscribers see when the cache is mutated: the operations of BusCache
 * connected to the streams of CacheStreams.
 */
module CacheNotify {
  import opened Wrappers
  import opened JsValues
  import opened Channels
  import opened BusLog
  import opened BusCache
  import opened CacheStreams
  import opened Shape

  /** The aggregate channel is never a per-key channel. */
  lemma ChangeChannelIsNotObjectChannel<S>(c: Cache<S>, key: string)
    requires Valid(c)
    ensures c.changeChannel != ObjectChannel(key)
  {
    ObjectIdRoundTrip(key);
    ChannelFamiliesDisjoint(ObjectChannel(key));
  }

  /** The log after a broadcast, as the old log followed by the two messages. */
  lemma BroadcastLog<S>(c: Cache<S>, r: Cache<S>, since: nat, a: BusOp<S>, b: BusOp<S>)
    requires since <= |c.log|
    requires |r.log| == |c.log| + 2 && r.log[..|c.log|] == c.log
    requires r.log[|c.log|] == a && r.log[|c.log| + 1] == b
    ensures r.log[since..] == c.log[since..] + [a] + [b]
  {
    assert r.log == c.log + [a, b];
  }

  /**
   * After `encache(id, value, changeType)` a live `notifyOnChange(key, t)` subscriber receives
   * `value` exactly when it watches that key and that change type; nothing else changes.
   */
  lemma EncacheNotifies<S>(c: Cache<S>, since: nat, id: string, value: JsValue, changeType: S, key: string, t: S)
    requires Valid(c) && since <= |c.log|
    ensures var before := NotifyOnChange(c, since, key, t);
            NotifyOnChange(Encache(c, id, value, changeType), since, key, t)
            == if before.end.Live? && key == id && changeType == t
               then before.(values := before.values + [value]) else before
  {
    var r := Encache(c, id, value, changeType);
    var change := StateChange(id, changeType, value);
    var a, b := Send(c.changeChannel, change, CacheName), Send(ObjectChannel(id), change, CacheName);
    BroadcastLog(c, r, since, a, b);
    OnChangeFeedSnoc(c.log[since..], a, ObjectChannel(key), t);
    OnChangeFeedSnoc(c.log[since..] + [a], b, ObjectChannel(key), t);
    ChangeChannelIsNotObjectChannel(c, key);
    ObjectChannelInjective(id, key);
  }

  /**
   * After `remove(id, changeType)` of a present key, a `notifyOnChange(id, t)` subscriber
   * that was still live receives the removed value (when `t` matches) and then completes,
   * because the key's channel is closed.
   */
  lemma RemoveNotifies<S>(c: Cache<S>, since: nat, id: string, changeType: S, t: S)
    requires Valid(c) && since <= |c.log| && id in c.entries
    ensures var before := NotifyOnChange(c, since, id, t);
            NotifyOnChange(Remove(c, id, changeType).0, since, id, t)
            == Delivery(before.values + (if before.end.Live? && changeType == t then [c.entries[id]] else []),
                        Completed)
  {
    var r := Remove(c, id, changeType).0;
    var change := StateChange(id, changeType, c.entries[id]);
    var a, b := Send(c.changeChannel, change, CacheName), Send(ObjectChannel(id), change, CacheName);
    var z := Close(ObjectChannel(id), CacheName);
    assert r.log == c.log + [a, b, z];
    var tail := c.log[since..];
    assert r.log[since..] == tail + [a] + [b] + [z];
    OnChangeFeedSnoc(tail, a, ObjectChannel(id), t);
    OnChangeFeedSnoc(tail + [a], b, ObjectChannel(id), t);
    OnChangeFeedSnoc(tail + [a] + [b], z, ObjectChannel(id), t);
    ChangeChannelIsNotObjectChannel(c, id);
  }

  /** Removing a key leaves the subscribers of every other key untouched. */
  lemma RemoveIsInvisibleToOtherKeys<S>(c: Cache<S>, since: nat, id: string, changeType: S, key: string, t: S)
    requires Valid(c) && since <= |c.log| && key != id
    ensures NotifyOnChange(Remove(c, id, changeType).0, since, key, t) == NotifyOnChange(c, since, key, t)
  {
    if id in c.entries {
      var r := Remove(c, id, changeType).0;
      var change := StateChange(id, changeType, c.entries[id]);
      var a, b := Send(c.changeChannel, change, CacheName), Send(ObjectChannel(id), change, CacheName);
      var z := Close(ObjectChannel(id), CacheName);
      assert r.log == c.log + [a, b, z];
      var tail := c.log[since..];
      assert r.log[since..] == tail + [a] + [b] + [z];
      OnChangeFeedSnoc(tail, a, ObjectChannel(key), t);
      OnChangeFeedSnoc(tail + [a], b, ObjectChannel(key), t);
      OnChangeFeedSnoc(tail + [a] + [b], z, ObjectChannel(key), t);
      ChangeChannelIsNotObjectChannel(c, key);
      ObjectChannelInjective(id, key);
    }
  }

  /**
   * A `notifyOnChange(id, t)` subscriber only ever receives values of type `t` that the cache
   * broadcast for that very key, never another key's.
   */
  lemma NotifyOnChangeOnlyKey<S>(c: Cache<S>, since: nat, id: string, t: S)
    requires Valid(c) && since <= |c.log|
    ensures var d := NotifyOnChange(c, since, id, t);
            forall i :: 0 <= i < |d.values| ==>
              exists j :: since <= j < |c.log| && c.log[j] == Send(ObjectChannel(id), StateChange(id, t, d.values[i]), CacheName)
  {
    var d := NotifyOnChange(c, since, id, t);
    forall i | 0 <= i < |d.values|
      ensures exists j :: since <= j < |c.log| && c.log[j] == Send(ObjectChannel(id), StateChange(id, t, d.values[i]), CacheName)
    {
      var j :| since <= j < |c.log| && Carries(c.log[j], ObjectChannel(id), t, d.values[i]);
      assert FromCache(c.changeChannel, c.log[j]);
      ChangeChannelIsNotObjectChannel(c, id);
      ObjectChannelInjective(id, c.log[j].change.id);
    }
  }

  /** A completed subscription stays exactly as it was, whatever the cache does afterwards. */
  lemma CompletedSubscriptionIsFinal<S>(c: Cache<S>, later: Cache<S>, since: nat, id: string, t: S)
    requires since <= |c.log| <= |later.log| && later.log[..|c.log|] == c.log
    requires NotifyOnChange(c, since, id, t).end == Completed
    ensures NotifyOnChange(later, since, id, t) == NotifyOnChange(c, since, id, t)
  {
    var more := later.log[|c.log|..];
    assert later.log[since..] == c.log[since..] + more;
    EndedFeedIsFinal(c.log[since..], more, ObjectChannel(id), t);
  }

  /**
   * After `encache(id, value, changeType)` a live `notifyOnAllChanges(sample, t)` subscriber
   * receives `value` exactly when the type matches and `value` has the sample's shape; its
   * stream fails if `compareKeys` throws on this value.
   */
  lemma EncacheNotifiesAll<S>(c: Cache<S>, since: nat, id: string, value: JsValue, changeType: S, sample: JsValue, t: S)
    requires Valid(c) && since <= |c.log|
    ensures var before := NotifyOnAllChanges(c, since, sample, t);
            NotifyOnAllChanges(Encache(c, id, value, changeType), since, sample, t)
            == if !before.end.Live? || changeType != t then before
               else match CompareKeys(sample, value)
                 case None => before.(end := Failed)
                 case Some(same) => if same then before.(values := before.values + [value]) else before
  {
    var r := Encache(c, id, value, changeType);
    var change := StateChange(id, changeType, value);
    var a, b := Send(c.changeChannel, change, CacheName), Send(ObjectChannel(id), change, CacheName);
    BroadcastLog(c, r, since, a, b);
    OnAllFeedSnoc(c.log[since..], a, c.changeChannel, sample, t);
    OnAllFeedSnoc(c.log[since..] + [a], b, c.changeChannel, sample, t);
    ChangeChannelIsNotObjectChannel(c, id);
  }

  /**
   * After `remove(id, changeType)` of a present key, a live `notifyOnAllChanges(sample, t)`
   * subscriber receives the removed value under the same rule; closing the key's channel
   * does not end the aggregate stream.
   */
  lemma RemoveNotifiesAll<S>(c: Cache<S>, since: nat, id: string, changeType: S, sample: JsValue, t: S)
    requires Valid(c) && since <= |c.log| && id in c.entries
    ensures var before := NotifyOnAllChanges(c, since, sample, t);
            var removed := c.entries[id];
            NotifyOnAllChanges(Remove(c, id, changeType).0, since, sample, t)
            == if !before.end.Live? || changeType != t then before
               else match CompareKeys(sample, removed)
                 case None => before.(end := Failed)
                 case Some(same) => if same then before.(values := before.values + [removed]) else before
  {
    var r := Remove(c, id, changeType).0;
    var change := StateChange(id, changeType, c.entries[id]);
    var a, b := Send(c.changeChannel, change, CacheName), Send(ObjectChannel(id), change, CacheName);
    var z := Close(ObjectChannel(id), CacheName);
    assert r.log == c.log + [a, b, z];
    var tail := c.log[since..];
    assert r.log[since..] == tail + [a] + [b] + [z];
    OnAllFeedSnoc(tail, a, c.changeChannel, sample, t);
    OnAllFeedSnoc(tail + [a], b, c.changeChannel, sample, t);
    OnAllFeedSnoc(tail + [a] + [b], z, c.changeChannel, sample, t);
    ChangeChannelIsNotObjectChannel(c, id);
  }
}
