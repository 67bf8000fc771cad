/**
 * `notifyOnChange` and `notifyOnAllChanges` as pure functions of the bus log. A subscriber that
 * attaches when the log has `since` entries receives what a left-to-right pass over the rest of
 * the log delivers: the stream completes when its channel is closed, and fails (stops with an
 * error) when `compareKeys` throws.
 */
module CacheStreams {
  import opened Wrappers
  import opened JsValues
  import opened Channels
  import opened BusLog
  import opened BusCache
  import opened Shape
  import opened Seqs

  datatype StreamEnd = Live | Completed | Failed

  /** What a subscriber has received so far, and whether the stream has ended. */
  datatype Delivery = Delivery(values: seq<JsValue>, end: StreamEnd)

  /** The operation is a cache broadcast on `ch` of a change of type `changeType` carrying `v`. */
  predicate Carries<S(==)>(op: BusOp<S>, ch: string, changeType: S, v: JsValue) {
    op.Send? && op.channel == ch && op.change.changeType == changeType && op.change.value == v
  }

  predicate IsCloseOf<S(==)>(op: BusOp<S>, ch: string) {
    op.Close? && op.channel == ch
  }

  // ---------------------------------------------------------------------------------------
  // notifyOnChange

  /** One bus operation as the `notifyOnChange` pipeline (map payload, filter type, map value) sees it. */
  function OnChangeStep<S(==)>(d: Delivery, op: BusOp<S>, ch: string, changeType: S): Delivery {
    if !d.end.Live? then d
    else match op
      case Send(c, x, _) =>
        if c == ch && x.changeType == changeType then d.(values := d.values + [x.value]) else d
      case Close(c, _) => if c == ch then d.(end := Completed) else d
  }

  /** Everything a subscriber to `ch` receives while `log` is written. */
  function OnChangeFeed<S(==)>(log: seq<BusOp<S>>, ch: string, changeType: S): (d: Delivery)
    ensures !d.end.Failed?
    ensures |d.values| <= |log|
    ensures forall i :: 0 <= i < |d.values| ==>
              exists j :: 0 <= j < |log| && Carries(log[j], ch, changeType, d.values[i])
    decreases |log|
  {
    if |log| == 0 then Delivery([], Live)
    else
      var prev := OnChangeFeed(log[..|log| - 1], ch, changeType);
      assert forall j :: 0 <= j < |log| - 1 ==> log[..|log| - 1][j] == log[j];
      OnChangeStep(prev, log[|log| - 1], ch, changeType)
  }

  /**
   * `notifyOnChange(id, changeType)` for a subscriber attached at log position `since`: only
   * values broadcast on the key's channel with exactly that change type, from then on.
   */
  function NotifyOnChange<S(==)>(c: Cache<S>, since: nat, id: string, changeType: S): (d: Delivery)
    requires since <= |c.log|
    ensures !d.end.Failed?
    ensures forall i :: 0 <= i < |d.values| ==>
              exists j :: since <= j < |c.log| && Carries(c.log[j], ObjectChannel(id), changeType, d.values[i])
  {
    var d := OnChangeFeed(c.log[since..], ObjectChannel(id), changeType);
    assert forall j :: 0 <= j < |c.log| - since ==> c.log[since..][j] == c.log[since + j];
    d
  }

  /** Reference: the values of all matching broadcasts, in log order (no notion of closing). */
  function MatchingValues<S(==)>(log: seq<BusOp<S>>, ch: string, changeType: S): seq<JsValue> {
    if |log| == 0 then []
    else
      (if log[0].Send? && log[0].channel == ch && log[0].change.changeType == changeType
       then [log[0].change.value] else [])
      + MatchingValues(log[1..], ch, changeType)
  }

  lemma {:induction false} MatchingValuesAppend<S>(a: seq<BusOp<S>>, b: seq<BusOp<S>>, ch: string, changeType: S)
    ensures MatchingValues(a + b, ch, changeType) == MatchingValues(a, ch, changeType) + MatchingValues(b, ch, changeType)
  {
    if |a| == 0 {
      assert a + b == b;
    } else {
      var head := if a[0].Send? && a[0].channel == ch && a[0].change.changeType == changeType
                  then [a[0].change.value] else [];
      assert (a + b)[0] == a[0];
      assert (a + b)[1..] == a[1..] + b;
      MatchingValuesAppend(a[1..], b, ch, changeType);
      calc {
        MatchingValues(a + b, ch, changeType);
        head + MatchingValues(a[1..] + b, ch, changeType);
        head + (MatchingValues(a[1..], ch, changeType) + MatchingValues(b, ch, changeType));
        (head + MatchingValues(a[1..], ch, changeType)) + MatchingValues(b, ch, changeType);
        MatchingValues(a, ch, changeType) + MatchingValues(b, ch, changeType);
      }
    }
  }

  /** Position of the first close of `ch`, or `|log|` when the log never closes it. */
  function FirstClose<S(==)>(log: seq<BusOp<S>>, ch: string): (k: nat)
    ensures k <= |log|
    ensures forall j :: 0 <= j < k ==> !IsCloseOf(log[j], ch)
    ensures k < |log| ==> IsCloseOf(log[k], ch)
  {
    if |log| == 0 then 0
    else if IsCloseOf(log[0], ch) then 0
    else 1 + FirstClose(log[1..], ch)
  }

  lemma FirstCloseUnique<S>(log: seq<BusOp<S>>, ch: string, k: nat)
    requires k <= |log|
    requires forall j :: 0 <= j < k ==> !IsCloseOf(log[j], ch)
    requires k < |log| ==> IsCloseOf(log[k], ch)
    ensures FirstClose(log, ch) == k
  {
  }

  /** Reference: the matching values broadcast before the first close, and whether there was one. */
  ghost function ChangeReference<S>(log: seq<BusOp<S>>, ch: string, changeType: S): Delivery {
    var k := FirstClose(log, ch);
    Delivery(MatchingValues(log[..k], ch, changeType), if k < |log| then Completed else Live)
  }

  lemma ChangeReferenceSnoc<S>(prefix: seq<BusOp<S>>, last: BusOp<S>, ch: string, changeType: S)
    ensures ChangeReference(prefix + [last], ch, changeType)
            == OnChangeStep(ChangeReference(prefix, ch, changeType), last, ch, changeType)
  {
    var k' := FirstClose(prefix, ch);
    if k' < |prefix| {
      SnocAfterClose(prefix, last, ch);
    } else if IsCloseOf(last, ch) {
      SnocClosing(prefix, last, ch);
      assert prefix[..k'] == prefix;
    } else {
      SnocOpen(prefix, last, ch);
      assert prefix[..k'] == prefix;
      MatchingValuesSnoc(prefix, last, ch, changeType);
      assert MatchingValues(prefix, ch, changeType) + [] == MatchingValues(prefix, ch, changeType);
    }
  }

  /**
   * A `notifyOnChange` subscriber receives exactly the matching values broadcast before the
   * first close of the channel, in log order, and the stream has completed iff it was closed.
   */
  lemma {:induction false} OnChangeIsFilterUntilClose<S>(log: seq<BusOp<S>>, ch: string, changeType: S)
    ensures OnChangeFeed(log, ch, changeType) == ChangeReference(log, ch, changeType)
    decreases |log|
  {
    if |log| == 0 {
      assert log[..0] == [];
    } else {
      var prefix := log[..|log| - 1];
      var last := log[|log| - 1];
      assert log == prefix + [last];
      OnChangeIsFilterUntilClose(prefix, ch, changeType);
      ChangeReferenceSnoc(prefix, last, ch, changeType);
    }
  }

  /** Once a subscriber's stream has completed, later bus traffic never reaches it. */
  lemma {:induction false} EndedFeedIsFinal<S>(log: seq<BusOp<S>>, more: seq<BusOp<S>>, ch: string, changeType: S)
    requires !OnChangeFeed(log, ch, changeType).end.Live?
    ensures OnChangeFeed(log + more, ch, changeType) == OnChangeFeed(log, ch, changeType)
    decreases |more|
  {
    if |more| == 0 {
      assert log + more == log;
    } else {
      var shorter := more[..|more| - 1];
      EndedFeedIsFinal(log, shorter, ch, changeType);
      assert (log + more)[..|log + more| - 1] == log + shorter;
    }
  }

  /** Appending one or two operations extends the fold by one or two steps. */
  lemma OnChangeFeedSnoc<S>(log: seq<BusOp<S>>, op: BusOp<S>, ch: string, changeType: S)
    ensures OnChangeFeed(log + [op], ch, changeType) == OnChangeStep(OnChangeFeed(log, ch, changeType), op, ch, changeType)
  {
    assert (log + [op])[..|log|] == log;
  }

  // ---------------------------------------------------------------------------------------
  // notifyOnAllChanges

  /** One bus operation as the `notifyOnAllChanges` pipeline (filter type, then shape) sees it. */
  function OnAllStep<S(==)>(d: Delivery, op: BusOp<S>, ch: string, sample: JsValue, changeType: S): Delivery {
    if !d.end.Live? then d
    else match op
      case Send(c, x, _) =>
        if c != ch || x.changeType != changeType then d
        else (match CompareKeys(sample, x.value)
              case None => d.(end := Failed)
              case Some(same) => if same then d.(values := d.values + [x.value]) else d)
      case Close(c, _) => if c == ch then d.(end := Completed) else d
  }

  /** Everything a shape-filtered subscriber to `ch` receives while `log` is written. */
  function OnAllFeed<S(==)>(log: seq<BusOp<S>>, ch: string, sample: JsValue, changeType: S): (d: Delivery)
    ensures |d.values| <= |log|
    ensures forall i :: 0 <= i < |d.values| ==>
              CompareKeys(sample, d.values[i]) == Some(true) &&
              exists j :: 0 <= j < |log| && Carries(log[j], ch, changeType, d.values[i])
    decreases |log|
  {
    if |log| == 0 then Delivery([], Live)
    else
      var prev := OnAllFeed(log[..|log| - 1], ch, sample, changeType);
      assert forall j :: 0 <= j < |log| - 1 ==> log[..|log| - 1][j] == log[j];
      OnAllStepGrows(prev, log[|log| - 1], ch, sample, changeType);
      OnAllStep(prev, log[|log| - 1], ch, sample, changeType)
  }

  /** A step either delivers nothing new or delivers the value of a matching broadcast of the right shape. */
  lemma OnAllStepGrows<S>(d: Delivery, op: BusOp<S>, ch: string, sample: JsValue, changeType: S)
    ensures var d' := OnAllStep(d, op, ch, sample, changeType);
            d'.values == d.values ||
            (d'.values == d.values + [op.change.value] && Carries(op, ch, changeType, op.change.value)
             && CompareKeys(sample, op.change.value) == Some(true))
  {
  }

  /**
   * `notifyOnAllChanges(sample, changeType)` for a subscriber attached at log position `since`:
   * only aggregate-channel values of that change type whose key set matches the sample's.
   */
  function NotifyOnAllChanges<S(==)>(c: Cache<S>, since: nat, sample: JsValue, changeType: S): (d: Delivery)
    requires since <= |c.log|
    ensures forall i :: 0 <= i < |d.values| ==>
              CompareKeys(sample, d.values[i]) == Some(true) &&
              exists j :: since <= j < |c.log| && Carries(c.log[j], c.changeChannel, changeType, d.values[i])
  {
    var d := OnAllFeed(c.log[since..], c.changeChannel, sample, changeType);
    assert forall j :: 0 <= j < |c.log| - since ==> c.log[since..][j] == c.log[since + j];
    d
  }

  lemma OnAllFeedSnoc<S>(log: seq<BusOp<S>>, op: BusOp<S>, ch: string, sample: JsValue, changeType: S)
    ensures OnAllFeed(log + [op], ch, sample, changeType)
            == OnAllStep(OnAllFeed(log, ch, sample, changeType), op, ch, sample, changeType)
  {
    assert (log + [op])[..|log|] == log;
  }

  /** Reference: drops the values whose shape differs from the sample's. */
  function KeepShape(vs: seq<JsValue>, sample: JsValue): seq<JsValue> {
    Filter(vs, SameShapeAs(sample))
  }

  /** The test `notifyOnAllChanges` applies to each value: same keys as the sample. */
  function SameShapeAs(sample: JsValue): JsValue -> bool {
    v => CompareKeys(sample, v) == Some(true)
  }

  /** Position of the first value `compareKeys` throws on, or `|vs|` when it throws on none. */
  function FirstThrow(vs: seq<JsValue>, sample: JsValue): (f: nat)
    ensures f <= |vs|
    ensures forall j :: 0 <= j < f ==> CompareKeys(sample, vs[j]).Some?
    ensures f < |vs| ==> CompareKeys(sample, vs[f]).None?
  {
    if |vs| == 0 then 0
    else if CompareKeys(sample, vs[0]).None? then 0
    else 1 + FirstThrow(vs[1..], sample)
  }

  lemma FirstThrowUnique(vs: seq<JsValue>, sample: JsValue, f: nat)
    requires f <= |vs|
    requires forall j :: 0 <= j < f ==> CompareKeys(sample, vs[j]).Some?
    requires f < |vs| ==> CompareKeys(sample, vs[f]).None?
    ensures FirstThrow(vs, sample) == f
  {
  }

  /** Appending a value keeps an earlier throw, or adds the new value as the first throw or not at all. */
  lemma FirstThrowSnoc(vs: seq<JsValue>, v: JsValue, sample: JsValue)
    ensures var f := FirstThrow(vs, sample);
            FirstThrow(vs + [v], sample)
            == if f < |vs| then f else if CompareKeys(sample, v).None? then |vs| else |vs| + 1
    ensures (vs + [v])[..FirstThrow(vs, sample)] == vs[..FirstThrow(vs, sample)]
  {
    var w := vs + [v];
    var f := FirstThrow(vs, sample);
    forall j | 0 <= j < f
      ensures CompareKeys(sample, w[j]).Some?
    {
      assert w[j] == vs[j];
    }
    if f < |vs| {
      assert w[f] == vs[f];
      FirstThrowUnique(w, sample, f);
    } else if CompareKeys(sample, v).None? {
      FirstThrowUnique(w, sample, |vs|);
    } else {
      FirstThrowUnique(w, sample, |vs| + 1);
    }
  }

  /**
   * What a shape-filtered subscriber has received once it has seen the matching values `vs`:
   * the ones of the sample's shape before the first value `compareKeys` throws on (where the
   * stream fails), and whether the channel has been closed.
   */
  ghost function ShapeOf(vs: seq<JsValue>, sample: JsValue, closed: bool): Delivery {
    var f := FirstThrow(vs, sample);
    Delivery(KeepShape(vs[..f], sample), if f < |vs| then Failed else if closed then Completed else Live)
  }

  /** Reference: the shape filter applied to the matching values broadcast before the first close. */
  ghost function ShapeReference<S>(log: seq<BusOp<S>>, ch: string, sample: JsValue, changeType: S): Delivery {
    var k := FirstClose(log, ch);
    ShapeOf(MatchingValues(log[..k], ch, changeType), sample, k < |log|)
  }

  lemma ShapeReferenceSnoc<S>(prefix: seq<BusOp<S>>, last: BusOp<S>, ch: string, sample: JsValue, changeType: S)
    ensures ShapeReference(prefix + [last], ch, sample, changeType)
            == OnAllStep(ShapeReference(prefix, ch, sample, changeType), last, ch, sample, changeType)
  {
    if FirstClose(prefix, ch) < |prefix| {
      SnocAfterClose(prefix, last, ch);
    } else if IsCloseOf(last, ch) {
      ShapeSnocClosing(prefix, last, ch, sample, changeType);
    } else {
      ShapeSnocOpen(prefix, last, ch, sample, changeType);
    }
  }

  /** The appended operation closes the channel: a live stream completes, a failed one stays failed. */
  lemma ShapeSnocClosing<S>(prefix: seq<BusOp<S>>, last: BusOp<S>, ch: string, sample: JsValue, changeType: S)
    requires FirstClose(prefix, ch) == |prefix| && IsCloseOf(last, ch)
    ensures ShapeReference(prefix + [last], ch, sample, changeType)
            == OnAllStep(ShapeReference(prefix, ch, sample, changeType), last, ch, sample, changeType)
  {
    SnocClosing(prefix, last, ch);
    assert prefix[..|prefix|] == prefix;
  }

  /** The channel stays open: a matching send is one step of the shape filter, anything else none. */
  lemma ShapeSnocOpen<S>(prefix: seq<BusOp<S>>, last: BusOp<S>, ch: string, sample: JsValue, changeType: S)
    requires FirstClose(prefix, ch) == |prefix| && !IsCloseOf(last, ch)
    ensures ShapeReference(prefix + [last], ch, sample, changeType)
            == OnAllStep(ShapeReference(prefix, ch, sample, changeType), last, ch, sample, changeType)
  {
    SnocOpen(prefix, last, ch);
    assert prefix[..|prefix|] == prefix;
    MatchingValuesSnoc(prefix, last, ch, changeType);
    var vs := MatchingValues(prefix, ch, changeType);
    if last.Send? && last.channel == ch && last.change.changeType == changeType {
      ShapeOfSnoc(vs, last.change.value, sample);
    } else {
      assert vs + [] == vs;
    }
  }

  /** One more matching value on an open channel is one step of the shape filter. */
  lemma ShapeOfSnoc(vs: seq<JsValue>, v: JsValue, sample: JsValue)
    ensures var d := ShapeOf(vs, sample, false);
            ShapeOf(vs + [v], sample, false)
            == if !d.end.Live? then d
               else match CompareKeys(sample, v)
                 case None => d.(end := Failed)
                 case Some(same) => if same then d.(values := d.values + [v]) else d
  {
    FirstThrowSnoc(vs, v, sample);
    var f, w := FirstThrow(vs, sample), vs + [v];
    if f < |vs| {
      assert w[..FirstThrow(w, sample)] == vs[..f];
    } else if CompareKeys(sample, v).None? {
      assert w[..FirstThrow(w, sample)] == vs == vs[..f];
    } else {
      assert w[..FirstThrow(w, sample)] == w;
      assert vs[..f] == vs;
      FilterAppend(vs, [v], SameShapeAs(sample));
      FilterSingle(v, SameShapeAs(sample));
      assert SameShapeAs(sample)(v) <==> CompareKeys(sample, v) == Some(true);
    }
  }

  lemma MatchingValuesSnoc<S>(prefix: seq<BusOp<S>>, last: BusOp<S>, ch: string, changeType: S)
    ensures MatchingValues(prefix + [last], ch, changeType)
            == MatchingValues(prefix, ch, changeType)
               + (if last.Send? && last.channel == ch && last.change.changeType == changeType
                  then [last.change.value] else [])
  {
    MatchingValuesAppend(prefix, [last], ch, changeType);
    assert [last][1..] == [];
  }

  /** A close already in the log stays the first one. */
  lemma SnocAfterClose<S>(prefix: seq<BusOp<S>>, last: BusOp<S>, ch: string)
    requires FirstClose(prefix, ch) < |prefix|
    ensures FirstClose(prefix + [last], ch) == FirstClose(prefix, ch)
    ensures (prefix + [last])[..FirstClose(prefix, ch)] == prefix[..FirstClose(prefix, ch)]
  {
    var log := prefix + [last];
    assert forall j :: 0 <= j < |prefix| ==> log[j] == prefix[j];
    FirstCloseUnique(log, ch, FirstClose(prefix, ch));
  }

  /** The appended operation is the first close. */
  lemma SnocClosing<S>(prefix: seq<BusOp<S>>, last: BusOp<S>, ch: string)
    requires FirstClose(prefix, ch) == |prefix| && IsCloseOf(last, ch)
    ensures FirstClose(prefix + [last], ch) == |prefix|
    ensures (prefix + [last])[..|prefix|] == prefix
  {
    var log := prefix + [last];
    assert forall j :: 0 <= j < |prefix| ==> log[j] == prefix[j];
    FirstCloseUnique(log, ch, |prefix|);
  }

  /** The channel is still open after the appended operation. */
  lemma SnocOpen<S>(prefix: seq<BusOp<S>>, last: BusOp<S>, ch: string)
    requires FirstClose(prefix, ch) == |prefix| && !IsCloseOf(last, ch)
    ensures FirstClose(prefix + [last], ch) == |prefix| + 1
    ensures (prefix + [last])[..|prefix| + 1] == prefix + [last]
  {
    var log := prefix + [last];
    assert forall j :: 0 <= j < |prefix| ==> log[j] == prefix[j];
    FirstCloseUnique(log, ch, |log|);
  }

  /**
   * A shape-filtered subscriber receives exactly the matching values of the sample's shape
   * broadcast before the first close, in log order, except that its stream fails at the first
   * matching value `compareKeys` throws on and receives nothing from then on.
   */
  lemma {:induction false} OnAllIsFilterUntilClose<S>(log: seq<BusOp<S>>, ch: string, sample: JsValue, changeType: S)
    ensures OnAllFeed(log, ch, sample, changeType) == ShapeReference(log, ch, sample, changeType)
    decreases |log|
  {
    if |log| == 0 {
      assert log[..0] == [];
    } else {
      var prefix := log[..|log| - 1];
      var last := log[|log| - 1];
      assert log == prefix + [last];
      assert forall j :: 0 <= j < |prefix| ==> prefix[j] == log[j];
      OnAllIsFilterUntilClose(prefix, ch, sample, changeType);
      ShapeReferenceSnoc(prefix, last, ch, sample, changeType);
    }
  }

  /** A `null` or `undefined` sample lets nothing through. */
  lemma {:induction false} KeylessSampleDeliversNothing<S>(log: seq<BusOp<S>>, ch: string, sample: JsValue, changeType: S)
    requires !HasKeys(sample)
    ensures OnAllFeed(log, ch, sample, changeType).values == []
  {
    var d := OnAllFeed(log, ch, sample, changeType);
    assert |d.values| > 0 ==> CompareKeys(sample, d.values[0]).None?;
  }
}
