/**
 * `IFrameProxyControl`: the proxy's live authorization policy (allowed origins, targeted
 * frames, authorized channels, the all-frames request and the listening switch) and the
 * mutators that change it. The lists keep insertion order, as the getters expose them.
 */
module ProxyControl {
  import opened Wrappers
  import opened Seqs

  datatype ProxyType = Parent | Child

  /** The options object passed to `enableMessageProxy`. */
  datatype ProxyConfig = ProxyConfig(
    protectedChannels: seq<string>,
    proxyType: ProxyType,
    targetOrigin: seq<string>,
    targetAllFrames: bool,
    targetSpecificFrames: Option<seq<string>>)

  datatype Control = Control(
    proxyType: ProxyType,
    allowedOrigins: seq<string>,
    targetedFrames: seq<string>,
    authorizedChannels: seq<string>,
    allFramesFlag: bool,
    listening: bool)

  /**
   * Whether outbound traffic goes to every frame: only when all frames were asked for and no
   * explicit frame is targeted.
   */
  predicate IsTargetingAllFrames(p: Control) {
    p.allFramesFlag && |p.targetedFrames| == 0
  }

  /** `enableMessageProxy(config)`: the proxy starts listening with the configured policy. */
  function EnableMessageProxy(config: ProxyConfig): (p: Control)
    ensures p.listening
    ensures p.proxyType == config.proxyType
    ensures p.allowedOrigins == config.targetOrigin
    ensures p.authorizedChannels == config.protectedChannels
    ensures config.targetSpecificFrames.None? ==> p.targetedFrames == []
    ensures config.targetSpecificFrames.Some? ==> p.targetedFrames == config.targetSpecificFrames.value
    ensures IsTargetingAllFrames(p) <==> config.targetAllFrames && |p.targetedFrames| == 0
  {
    var frames := if config.targetSpecificFrames.Some? then config.targetSpecificFrames.value else [];
    Control(config.proxyType, config.targetOrigin, frames, config.protectedChannels,
            config.targetAllFrames && |frames| == 0, true)
  }

  function StopListening(p: Control): (r: Control)
    ensures !r.listening
    ensures r.(listening := p.listening) == p
  {
    p.(listening := false)
  }

  function StartListening(p: Control): (r: Control)
    ensures r.listening
    ensures r.(listening := p.listening) == p
  {
    p.(listening := true)
  }

  function AddAllowedTargetOrigin(p: Control, origin: string): (r: Control)
    ensures |r.allowedOrigins| == |p.allowedOrigins| + 1
    ensures r.allowedOrigins[..|p.allowedOrigins|] == p.allowedOrigins
    ensures r.allowedOrigins[|p.allowedOrigins|] == origin
    ensures r.(allowedOrigins := p.allowedOrigins) == p
  {
    p.(allowedOrigins := p.allowedOrigins + [origin])
  }

  function RemoveAllowedTargetOrigin(p: Control, origin: string): (r: Control)
    ensures origin !in r.allowedOrigins
    ensures forall other :: other != origin ==> (other in r.allowedOrigins <==> other in p.allowedOrigins)
    ensures r.(allowedOrigins := p.allowedOrigins) == p
  {
    WithoutKeepsOthers(p.allowedOrigins, origin);
    p.(allowedOrigins := Without(p.allowedOrigins, origin))
  }

  function AddTargetedFrame(p: Control, frame: string): (r: Control)
    ensures |r.targetedFrames| == |p.targetedFrames| + 1
    ensures r.targetedFrames[..|p.targetedFrames|] == p.targetedFrames
    ensures r.targetedFrames[|p.targetedFrames|] == frame
    ensures !IsTargetingAllFrames(r)
    ensures r.(targetedFrames := p.targetedFrames) == p
  {
    p.(targetedFrames := p.targetedFrames + [frame])
  }

  function RemoveTargetedFrame(p: Control, frame: string): (r: Control)
    ensures frame !in r.targetedFrames
    ensures forall other :: other != frame ==> (other in r.targetedFrames <==> other in p.targetedFrames)
    ensures r.(targetedFrames := p.targetedFrames) == p
  {
    WithoutKeepsOthers(p.targetedFrames, frame);
    p.(targetedFrames := Without(p.targetedFrames, frame))
  }

  /**
   * `targetAllFrames(all)`: the request only takes hold while no explicit frame is targeted;
   * made while frames are targeted, it is dropped rather than deferred.
   */
  function TargetAllFrames(p: Control, all: bool): (r: Control)
    ensures IsTargetingAllFrames(r) <==> all && |p.targetedFrames| == 0
    ensures r.(allFramesFlag := p.allFramesFlag) == p
  {
    p.(allFramesFlag := all && |p.targetedFrames| == 0)
  }

  function AddAuthorizedChannel(p: Control, channel: string): (r: Control)
    ensures |r.authorizedChannels| == |p.authorizedChannels| + 1
    ensures r.authorizedChannels[..|p.authorizedChannels|] == p.authorizedChannels
    ensures r.authorizedChannels[|p.authorizedChannels|] == channel
    ensures r.(authorizedChannels := p.authorizedChannels) == p
  {
    p.(authorizedChannels := p.authorizedChannels + [channel])
  }

  function RemoveAuthorizedChannel(p: Control, channel: string): (r: Control)
    ensures channel !in r.authorizedChannels
    ensures forall other :: other != channel ==> (other in r.authorizedChannels <==> other in p.authorizedChannels)
    ensures r.(authorizedChannels := p.authorizedChannels) == p
  {
    WithoutKeepsOthers(p.authorizedChannels, channel);
    p.(authorizedChannels := Without(p.authorizedChannels, channel))
  }

  // ---------------------------------------------------------------------------------------
  // Properties

  /** Adding a new origin and removing it again restores the policy exactly. */
  lemma OriginAddRemoveRoundTrip(p: Control, origin: string)
    requires origin !in p.allowedOrigins
    ensures RemoveAllowedTargetOrigin(AddAllowedTargetOrigin(p, origin), origin) == p
  {
    AppendThenWithout(p.allowedOrigins, origin);
  }

  lemma FrameAddRemoveRoundTrip(p: Control, frame: string)
    requires frame !in p.targetedFrames
    ensures RemoveTargetedFrame(AddTargetedFrame(p, frame), frame) == p
  {
    AppendThenWithout(p.targetedFrames, frame);
  }

  lemma ChannelAddRemoveRoundTrip(p: Control, channel: string)
    requires channel !in p.authorizedChannels
    ensures RemoveAuthorizedChannel(AddAuthorizedChannel(p, channel), channel) == p
  {
    AppendThenWithout(p.authorizedChannels, channel);
  }

  /** Removing an entry listed once leaves the others in their original order. */
  lemma RemoveKeepsOrder(p: Control, before: seq<string>, origin: string, after: seq<string>)
    requires p.allowedOrigins == before + [origin] + after
    requires origin !in before && origin !in after
    ensures RemoveAllowedTargetOrigin(p, origin).allowedOrigins == before + after
  {
    WithoutSingleOccurrence(before, origin, after);
  }

  lemma RemoveFrameKeepsOrder(p: Control, before: seq<string>, frame: string, after: seq<string>)
    requires p.targetedFrames == before + [frame] + after
    requires frame !in before && frame !in after
    ensures RemoveTargetedFrame(p, frame).targetedFrames == before + after
  {
    WithoutSingleOccurrence(before, frame, after);
  }

  lemma RemoveChannelKeepsOrder(p: Control, before: seq<string>, channel: string, after: seq<string>)
    requires p.authorizedChannels == before + [channel] + after
    requires channel !in before && channel !in after
    ensures RemoveAuthorizedChannel(p, channel).authorizedChannels == before + after
  {
    WithoutSingleOccurrence(before, channel, after);
  }

  /**
   * Asking for all frames while a frame is targeted is forgotten: removing the last frame
   * afterwards still leaves all-frames targeting off, until it is asked for again.
   */
  lemma AllFramesRequestNeedsNoFrames(p: Control, frame: string)
    requires p.targetedFrames == [frame]
    ensures !IsTargetingAllFrames(TargetAllFrames(p, true))
    ensures !IsTargetingAllFrames(RemoveTargetedFrame(TargetAllFrames(p, true), frame))
    ensures IsTargetingAllFrames(TargetAllFrames(RemoveTargetedFrame(TargetAllFrames(p, true), frame), true))
  {
    assert Without([frame], frame) == [];
  }

  /**
   * The other side of the rule: an all-frames request made while no frame is targeted is kept,
   * so it is suspended while a frame is added and takes effect again once that frame is removed.
   */
  lemma AllFramesRequestSurvivesFrameRoundTrip(p: Control, frame: string)
    requires p.targetedFrames == []
    ensures IsTargetingAllFrames(TargetAllFrames(p, true))
    ensures !IsTargetingAllFrames(AddTargetedFrame(TargetAllFrames(p, true), frame))
    ensures IsTargetingAllFrames(RemoveTargetedFrame(AddTargetedFrame(TargetAllFrames(p, true), frame), frame))
  {
    FrameAddRemoveRoundTrip(TargetAllFrames(p, true), frame);
  }

  /** The start-up test: listening, the configured origin, no targeted frames. */
  lemma StartupScenario()
    ensures var control := EnableMessageProxy(ProxyConfig(["auth-chan1"], Parent, ["http://somewhere.out.there"], true, None));
            && control.listening
            && control.allowedOrigins == ["http://somewhere.out.there"]
            && |control.targetedFrames| == 0
            && IsTargetingAllFrames(control)
  {
  }

  /** The dynamic reconfiguration test, step by step. */
  lemma ReconfigurationScenario()
    ensures var p0 := EnableMessageProxy(ProxyConfig(["auth-chan1"], Parent, ["http://space.dogs"], false, None));
            var p1 := StopListening(p0);
            var p2 := AddAllowedTargetOrigin(p1, "http://space.force");
            var p3 := RemoveAllowedTargetOrigin(p2, "http://space.force");
            var p4 := AddTargetedFrame(p3, "ember");
            var p5 := AddTargetedFrame(p4, "cotton");
            var p6 := RemoveTargetedFrame(p5, "ember");
            var p7 := TargetAllFrames(p6, true);
            var p8 := RemoveTargetedFrame(p7, "cotton");
            var p9 := TargetAllFrames(p8, true);
            var p10 := AddAuthorizedChannel(p9, "new-chan");
            var p11 := RemoveAuthorizedChannel(p10, "auth-chan1");
            && !p1.listening
            && p2.allowedOrigins == ["http://space.dogs", "http://space.force"]
            && p3.allowedOrigins == ["http://space.dogs"]
            && !IsTargetingAllFrames(p3)
            && !IsTargetingAllFrames(p4) && p4.targetedFrames == ["ember"]
            && !IsTargetingAllFrames(p5) && p5.targetedFrames == ["ember", "cotton"]
            && !IsTargetingAllFrames(p6) && p6.targetedFrames == ["cotton"]
            && !IsTargetingAllFrames(p7)
            && !IsTargetingAllFrames(p8) && p8.targetedFrames == []
            && IsTargetingAllFrames(p9)
            && p9.authorizedChannels == ["auth-chan1"]
            && p10.authorizedChannels == ["auth-chan1", "new-chan"]
            && p11.authorizedChannels == ["new-chan"]
  {
    var dogs, force := ["http://space.dogs"], "http://space.force";
    var p0 := EnableMessageProxy(ProxyConfig(["auth-chan1"], Parent, dogs, false, None));
    assert p0 == Control(Parent, dogs, [], ["auth-chan1"], false, true);
    var p1 := StopListening(p0);
    var p2 := AddAllowedTargetOrigin(p1, force);
    assert p2 == Control(Parent, dogs + [force], [], ["auth-chan1"], false, false);
    var p3 := RemoveAllowedTargetOrigin(p2, force);
    WithoutSingleOccurrence(dogs, force, []);
    assert dogs + [force] + [] == dogs + [force];
    assert p3 == Control(Parent, dogs, [], ["auth-chan1"], false, false);
    var p4 := AddTargetedFrame(p3, "ember");
    var p5 := AddTargetedFrame(p4, "cotton");
    assert p5 == Control(Parent, dogs, ["ember", "cotton"], ["auth-chan1"], false, false);
    var p6 := RemoveTargetedFrame(p5, "ember");
    WithoutSingleOccurrence([], "ember", ["cotton"]);
    assert [] + ["ember"] + ["cotton"] == ["ember", "cotton"];
    assert p6 == Control(Parent, dogs, ["cotton"], ["auth-chan1"], false, false);
    var p7 := TargetAllFrames(p6, true);
    assert p7 == p6;
    var p8 := RemoveTargetedFrame(p7, "cotton");
    WithoutSingleOccurrence([], "cotton", []);
    assert [] + ["cotton"] + [] == ["cotton"];
    assert p8 == Control(Parent, dogs, [], ["auth-chan1"], false, false);
    var p9 := TargetAllFrames(p8, true);
    assert p9 == Control(Parent, dogs, [], ["auth-chan1"], true, false);
    var p10 := AddAuthorizedChannel(p9, "new-chan");
    assert p10.authorizedChannels == ["auth-chan1", "new-chan"];
    WithoutSingleOccurrence([], "auth-chan1", ["new-chan"]);
    assert [] + ["auth-chan1"] + ["new-chan"] == ["auth-chan1", "new-chan"];
  }
}
