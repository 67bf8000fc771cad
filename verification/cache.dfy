/**
 * `CacheImpl`: a keyed store whose every announced mutation is broadcast as a state-change
 * message, first on the cache's aggregate channel and then on the key's own channel.
 * The random suffix of the aggregate channel name is a constructor parameter.
 */
module BusCache {
  import opened Wrappers
  import opened JsValues
  import opened Channels
  import opened BusLog

  datatype Cache<S> = Cache(entries: map<string, JsValue>, changeChannel: string, log: seq<BusOp<S>>)

  /** A fresh cache: no entries, nothing broadcast yet. */
  function NewCache<S>(uuid: string): (c: Cache<S>)
    ensures c.entries == map[] && c.log == []
    ensures c.changeChannel == ChangeChannel(uuid)
    ensures Valid(c)
  {
    Cache(map[], ChangeChannel(uuid), [])
  }

  /** A bus operation the cache itself could have issued. */
  ghost predicate FromCache<S>(changeChannel: string, op: BusOp<S>) {
    match op
    case Send(ch, x, sender) => sender == CacheName && (ch == changeChannel || ch == ObjectChannel(x.id))
    case Close(ch, sender) => sender == CacheName && IsObjectChannel(ch)
  }

  /**
   * The cache invariant: the aggregate channel is named like one, and every logged operation
   * is a cache broadcast on the aggregate channel or on the channel of the key it carries, or
   * the close of a per-key channel.
   */
  ghost predicate Valid<S>(c: Cache<S>) {
    && IsChangeChannel(c.changeChannel)
    && forall j :: 0 <= j < |c.log| ==> FromCache(c.changeChannel, c.log[j])
  }

  /** `sendChangeBroadcast`: the same change goes out twice, aggregate channel first. */
  function SendChangeBroadcast<S>(c: Cache<S>, changeType: S, id: string, value: JsValue): (r: Cache<S>)
    ensures r.entries == c.entries && r.changeChannel == c.changeChannel
    ensures |r.log| == |c.log| + 2 && r.log[..|c.log|] == c.log
    ensures r.log[|c.log|] == Send(c.changeChannel, StateChange(id, changeType, value), CacheName)
    ensures r.log[|c.log| + 1] == Send(ObjectChannel(id), StateChange(id, changeType, value), CacheName)
    ensures Valid(c) ==> Valid(r)
  {
    var change := StateChange(id, changeType, value);
    c.(log := c.log + [Send(c.changeChannel, change, CacheName), Send(ObjectChannel(id), change, CacheName)])
  }

  /** `retrieve`: the stored value, or None where the source returns `undefined`. */
  function Retrieve<S>(c: Cache<S>, id: string): (r: Option<JsValue>)
    ensures r.Some? <==> id in c.entries
    ensures r.Some? ==> r.value == c.entries[id]
  {
    if id in c.entries then Some(c.entries[id]) else None
  }

  /** `populateCache`: adopts `items` wholesale, but only into an empty cache; never broadcasts. */
  function PopulateCache<S>(c: Cache<S>, items: map<string, JsValue>): (r: (Cache<S>, bool))
    ensures r.1 <==> |c.entries| == 0
    ensures r.1 ==> r.0.entries == items
    ensures !r.1 ==> r.0 == c
    ensures r.0.log == c.log && r.0.changeChannel == c.changeChannel
    ensures Valid(c) ==> Valid(r.0)
  {
    if |c.entries| == 0 then (c.(entries := items), true) else (c, false)
  }

  /** `encache`: upsert, then broadcast the change with the new value. */
  function Encache<S>(c: Cache<S>, id: string, value: JsValue, changeType: S): (r: Cache<S>)
    ensures Retrieve(r, id) == Some(value)
    ensures forall k :: k != id ==> Retrieve(r, k) == Retrieve(c, k)
    ensures r.entries.Keys == c.entries.Keys + {id}
    ensures r.changeChannel == c.changeChannel
    ensures |r.log| == |c.log| + 2 && r.log[..|c.log|] == c.log
    ensures r.log[|c.log|] == Send(c.changeChannel, StateChange(id, changeType, value), CacheName)
    ensures r.log[|c.log| + 1] == Send(ObjectChannel(id), StateChange(id, changeType, value), CacheName)
    ensures Valid(c) ==> Valid(r)
  {
    SendChangeBroadcast(c.(entries := c.entries[id := value]), changeType, id, value)
  }

  /**
   * `remove`: for a present key, broadcast the change carrying the value being removed, delete
   * the entry, then close the key's channel. For an absent key nothing at all happens.
   */
  function Remove<S>(c: Cache<S>, id: string, changeType: S): (r: (Cache<S>, bool))
    ensures r.1 <==> id in c.entries
    ensures !r.1 ==> r.0 == c
    ensures r.1 ==> Retrieve(r.0, id).None?
    ensures forall k :: k != id ==> Retrieve(r.0, k) == Retrieve(c, k)
    ensures r.0.changeChannel == c.changeChannel
    ensures r.1 ==> |r.0.log| == |c.log| + 3 && r.0.log[..|c.log|] == c.log
    ensures r.1 ==> r.0.log[|c.log|] == Send(c.changeChannel, StateChange(id, changeType, c.entries[id]), CacheName)
    ensures r.1 ==> r.0.log[|c.log| + 1] == Send(ObjectChannel(id), StateChange(id, changeType, c.entries[id]), CacheName)
    ensures r.1 ==> r.0.log[|c.log| + 2] == Close(ObjectChannel(id), CacheName)
    ensures Valid(c) ==> Valid(r.0)
  {
    if id in c.entries then
      var sent := SendChangeBroadcast(c, changeType, id, c.entries[id]);
      ObjectIdRoundTrip(id);
      (sent.(entries := sent.entries - {id}, log := sent.log + [Close(ObjectChannel(id), CacheName)]), true)
    else (c, false)
  }

  /** `resetCache`: drops every entry without announcing anything. */
  function ResetCache<S>(c: Cache<S>): (r: Cache<S>)
    ensures forall k :: Retrieve(r, k).None?
    ensures r.log == c.log && r.changeChannel == c.changeChannel
    ensures Valid(c) ==> Valid(r)
  {
    c.(entries := map[])
  }
}
