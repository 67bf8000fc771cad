/**
 * Channel names the cache broadcasts on: one aggregate channel per cache instance
 * (`cache-change-<uuid>`) and one channel per key (`cache-object-<id>`).
 */
module Channels {
  import opened Wrappers

  const ObjectPrefix: string := "cache-object-"
  const ChangePrefix: string := "cache-change-"

  /** The sender name every cache message and channel close carries (`getName()`). */
  const CacheName: string := "BusCache"

  /** `getObjectChannel(id)`: the fixed prefix followed by exactly the key. */
  function ObjectChannel(id: string): (ch: string)
    ensures |ch| == |ObjectPrefix| + |id|
    ensures ch[..|ObjectPrefix|] == ObjectPrefix
    ensures ch[|ObjectPrefix|..] == id
  {
    ObjectPrefix + id
  }

  /** The aggregate channel of a cache whose constructor drew `uuid`. */
  function ChangeChannel(uuid: string): (ch: string)
    ensures |ch| == |ChangePrefix| + |uuid|
    ensures ch[..|ChangePrefix|] == ChangePrefix
    ensures ch[|ChangePrefix|..] == uuid
  {
    ChangePrefix + uuid
  }

  predicate IsObjectChannel(ch: string) {
    |ch| >= |ObjectPrefix| && ch[..|ObjectPrefix|] == ObjectPrefix
  }

  predicate IsChangeChannel(ch: string) {
    |ch| >= |ChangePrefix| && ch[..|ChangePrefix|] == ChangePrefix
  }

  /** Recovers the key from a per-key channel name: the inverse of `ObjectChannel`. */
  function ObjectIdOf(ch: string): (r: Option<string>)
    ensures r.Some? <==> IsObjectChannel(ch)
    ensures r.Some? ==> ObjectChannel(r.value) == ch
  {
    if IsObjectChannel(ch) then
      assert ch == ch[..|ObjectPrefix|] + ch[|ObjectPrefix|..];
      Some(ch[|ObjectPrefix|..])
    else None
  }

  lemma ObjectIdRoundTrip(id: string)
    ensures IsObjectChannel(ObjectChannel(id))
    ensures ObjectIdOf(ObjectChannel(id)) == Some(id)
  {
  }

  /** Distinct keys get distinct per-key channels. */
  lemma ObjectChannelInjective(a: string, b: string)
    ensures ObjectChannel(a) == ObjectChannel(b) <==> a == b
  {
    ObjectIdRoundTrip(a);
    ObjectIdRoundTrip(b);
  }

  /** No per-key channel is an aggregate channel: the two names differ at "o" / "c". */
  lemma ChannelFamiliesDisjoint(ch: string)
    requires IsObjectChannel(ch)
    ensures !IsChangeChannel(ch)
  {
    assert ch[..|ChangePrefix|][6] == ch[..|ObjectPrefix|][6] == 'o';
    assert ChangePrefix[6] == 'c';
  }
}
