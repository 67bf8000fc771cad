/**
 * The cache's public operations as one command set, and what holds of any sequence of them
 * (the "for all sequences of encache/retrieve/remove" properties of the cache).
 */
module CacheRun {
  import opened Wrappers
  import opened JsValues
  import opened BusLog
  import opened BusCache

  datatype Command<S> =
    | Populate(items: map<string, JsValue>)
    | Put(id: string, value: JsValue, changeType: S)
    | Get(id: string)
    | Delete(id: string, changeType: S)
    | Reset

  /** The caller-visible result of a command: nothing, a flag, or a looked-up value. */
  datatype Reply = Done | Flag(ok: bool) | Found(value: Option<JsValue>)

  function Apply<S>(c: Cache<S>, cmd: Command<S>): (Cache<S>, Reply) {
    match cmd
    case Populate(items) => var r := PopulateCache(c, items); (r.0, Flag(r.1))
    case Put(id, v, s) => (Encache(c, id, v, s), Done)
    case Get(id) => (c, Found(Retrieve(c, id)))
    case Delete(id, s) => var r := Remove(c, id, s); (r.0, Flag(r.1))
    case Reset => (ResetCache(c), Done)
  }

  /** The state after running `cmds` in order. */
  function Run<S>(c: Cache<S>, cmds: seq<Command<S>>): Cache<S>
    decreases |cmds|
  {
    if |cmds| == 0 then c else Apply(Run(c, cmds[..|cmds| - 1]), cmds[|cmds| - 1]).0
  }

  /** `retrieve` is a pure read: it changes neither the entries nor the bus log. */
  lemma RetrieveIsPureRead<S>(c: Cache<S>, id: string)
    ensures Apply(c, Get(id)).0 == c
  {
  }

  /** Every sequence of operations keeps the cache invariant. */
  lemma {:induction false} RunPreservesValid<S>(c: Cache<S>, cmds: seq<Command<S>>)
    requires Valid(c)
    ensures Valid(Run(c, cmds))
    decreases |cmds|
  {
    if |cmds| > 0 {
      RunPreservesValid(c, cmds[..|cmds| - 1]);
    }
  }

  /** The bus log only grows: no operation rewrites what was already broadcast. */
  lemma {:induction false} RunExtendsLog<S>(c: Cache<S>, cmds: seq<Command<S>>)
    ensures |c.log| <= |Run(c, cmds).log|
    ensures Run(c, cmds).log[..|c.log|] == c.log
    ensures Run(c, cmds).changeChannel == c.changeChannel
    decreases |cmds|
  {
    if |cmds| > 0 {
      var before := Run(c, cmds[..|cmds| - 1]);
      RunExtendsLog(c, cmds[..|cmds| - 1]);
      var after := Run(c, cmds);
      assert after.log[..|before.log|] == before.log;
      assert after.log[..|c.log|] == after.log[..|before.log|][..|c.log|];
    }
  }

  /**
   * Reference: the value of `id` after `cmds`, read off the last command that touched it
   * (an `encache` of it, a `remove` of it, or a reset), or `initial` when none did.
   */
  function LastWrite<S>(cmds: seq<Command<S>>, id: string, initial: Option<JsValue>): Option<JsValue>
    decreases |cmds|
  {
    if |cmds| == 0 then initial
    else match cmds[|cmds| - 1]
      case Put(k, v, _) => if k == id then Some(v) else LastWrite(cmds[..|cmds| - 1], id, initial)
      case Delete(k, _) => if k == id then None else LastWrite(cmds[..|cmds| - 1], id, initial)
      case Reset => None
      case _ => LastWrite(cmds[..|cmds| - 1], id, initial)
  }

  /**
   * Without bulk seeding, `retrieve` after any sequence of operations returns the last value
   * encached under that key, or nothing once it was removed or the cache reset.
   */
  lemma {:induction false} RetrieveSeesLastWrite<S>(c: Cache<S>, cmds: seq<Command<S>>, id: string)
    requires forall i :: 0 <= i < |cmds| ==> !cmds[i].Populate?
    ensures Retrieve(Run(c, cmds), id) == LastWrite(cmds, id, Retrieve(c, id))
    decreases |cmds|
  {
    if |cmds| > 0 {
      RetrieveSeesLastWrite(c, cmds[..|cmds| - 1], id);
    }
  }
}
