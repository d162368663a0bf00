/**
 * The playback engine, class `Player` of app/src/core/player.ts: its state
 * (timeline, current time, playing flag, device registry), `play`, the
 * per-frame callback, `pause`, the read-only queries and the three reactions to
 * store updates.
 *
 * Scheduling is explicit: a callback that asks for another animation frame is
 * kept in `armed`, and the environment fires it with `Tick`. Deferred store
 * dispatches are appended to `dispatched`, in the order they were scheduled.
 * Clock readings (`element.currentTime` during playback, `Date.now()`) are
 * parameters.
 */
module Engine {
  import opened Wrappers
  import opened Timeline
  import opened Devices
  import opened Playback

  /** A store action the player schedules (`setPlayerTime`, `setPlay`). */
  datatype Action = SetPlayerTime(time: real) | SetPlay(playing: bool)

  /** Why an operation raised instead of completing. */
  datatype Failure =
    | EmptyTimeline            // `renderItems[0]` is undefined
    | NoCurrentItem            // `assertSome` found no segment
    | UnregisteredSource(id: SourceId)   // the segment's element is undefined
    | TimeDidNotAdvance        // the segment ended where it was entered
    | SelectionOutOfRange      // no timed item at `selection.startIndex`
    | SeekOutOfRange           // no timed item for the user's index

  datatype Status = Done | Failed(reason: Failure)

  /** The editor's selection, as far as the player reads it. */
  datatype Selection = Selection(startIndex: int)

  /** The devices after `onRenderItemDone`: a media chain pauses its element. */
  function AfterItemDone(sources: map<SourceId, Device>, c: Chain): (r: map<SourceId, Device>)
    ensures r.Keys == sources.Keys
    ensures forall id :: id in sources && !(c.clock.MediaClock? && id == c.clock.source) ==> r[id] == sources[id]
    ensures c.clock.MediaClock? && c.clock.source in sources ==> r[c.clock.source] == sources[c.clock.source].(paused := true)
  {
    if c.clock.MediaClock? && c.clock.source in sources then
      sources[c.clock.source := sources[c.clock.source].(paused := true)]
    else sources
  }

  /**
   * The devices after `play` started the sourced segment `item` at `t`: its
   * element is sought to the matching source time and, unless the first callback
   * froze, playing (`element.play()` follows the callback even when the callback
   * has just paused the element).
   */
  function StartedDevices(sources: map<SourceId, Device>, item: RenderItem, t: real, d: Decision): (r: map<SourceId, Device>)
    requires HasSource(item) && item.source.value in sources
    ensures r.Keys == sources.Keys
    ensures forall id :: id in sources && id != item.source.value ==> r[id] == sources[id]
    ensures r[item.source.value].currentTime == SourceTime(item, t)
    ensures r[item.source.value].paused == (d == Frozen && sources[item.source.value].paused)
    ensures r[item.source.value].(currentTime := sources[item.source.value].currentTime, paused := sources[item.source.value].paused)
            == sources[item.source.value]
  {
    var id := item.source.value;
    var sought := sources[id := sources[id].(currentTime := SourceTime(item, t))];
    if d == Frozen then sought else sought[id := sought[id].(paused := false)]
  }

  /**
   * The effect of `play` on a player whose timeline is `items`, entered at time
   * `t0` with devices `sources0`, waiting callbacks `armed0` and dispatch log
   * `log0`: the status `s` and the new time, devices, waiting callbacks and log.
   * An empty timeline fails at once. Otherwise the time is clamped (and published
   * if it moved); no segment there fails; an unregistered source fails; else the
   * segment is started and its first callback publishes and decides.
   */
  ghost predicate PlayOutcome(items: seq<RenderItem>, playing: bool, t0: real, sources0: map<SourceId, Device>,
                              armed0: seq<Chain>, log0: seq<Action>, now: real,
                              s: Status, time: real, sources: map<SourceId, Device>, armed: seq<Chain>, log: seq<Action>)
  {
    if items == [] then
      s == Failed(EmptyTimeline) && time == t0 && sources == sources0 && armed == armed0 && log == log0
    else
      var t := Clamp(items, t0);
      var clamped := log0 + (if t != t0 then [SetPlayerTime(t)] else []);
      LookupOutcome(items, playing, t, now, sources0, armed0, clamped, s, time, sources, armed, log)
  }

  /**
   * The effect of the part of `play` after clamping, at time `t`: no segment
   * there fails and changes nothing; else the segment found is started.
   */
  ghost predicate LookupOutcome(items: seq<RenderItem>, playing: bool, t: real, now: real,
                                sources0: map<SourceId, Device>, armed0: seq<Chain>, log0: seq<Action>,
                                s: Status, time: real, sources: map<SourceId, Device>, armed: seq<Chain>, log: seq<Action>)
    requires items != []
  {
    var found := CurrentItem(items, t);
    if found.None? then
      s == Failed(NoCurrentItem) && time == t && sources == sources0 && armed == armed0 && log == log0
    else StartOutcome(found.value, items[|items| - 1], playing, t, now, sources0, armed0, log0, s, time, sources, armed, log)
  }

  /**
   * Pressing play at (or past) the end of a well-formed timeline whose last
   * segment plays a registered source: playback stops at once, publishing the end
   * and requesting `setPlay(false)`, and no callback is left waiting.
   */
  lemma PlayAtEndOfMediaTimelineStops(items: seq<RenderItem>, t0: real, sources0: map<SourceId, Device>,
                                      armed0: seq<Chain>, log0: seq<Action>, now: real,
                                      s: Status, time: real, sources: map<SourceId, Device>, armed: seq<Chain>, log: seq<Action>)
    requires items != [] && Contiguous(items) && t0 >= Timeline.Finish(items)
    requires items[|items| - 1].length > 0.0 && HasSource(items[|items| - 1]) && items[|items| - 1].source.value in sources0
    requires PlayOutcome(items, true, t0, sources0, armed0, log0, now, s, time, sources, armed, log)
    ensures s == Done && time == Timeline.Finish(items) && armed == armed0
    ensures log == log0 + (if t0 != Timeline.Finish(items) then [SetPlayerTime(Timeline.Finish(items))] else [])
                        + [SetPlayerTime(Timeline.Finish(items)), SetPlay(false)]
  {
    var last := items[|items| - 1];
    SpanOrdered(items);
    assert Clamp(items, t0) == End(last);
    CurrentItemIsLastCovering(items, End(last));
    assert CurrentItem(items, End(last)) == Some(last);
    StartAtTimelineEnd(last, now);
  }

  /**
   * The same on a timeline ending in silence: playback does not stop but jumps
   * back to the start of the silent segment and waits for the next frame there.
   */
  lemma PlayAtEndOfSilentTimelineRestarts(items: seq<RenderItem>, t0: real, sources0: map<SourceId, Device>,
                                          armed0: seq<Chain>, log0: seq<Action>, now: real,
                                          s: Status, time: real, sources: map<SourceId, Device>, armed: seq<Chain>, log: seq<Action>)
    requires items != [] && Contiguous(items) && t0 >= Timeline.Finish(items)
    requires items[|items| - 1].length > 0.0 && !HasSource(items[|items| - 1])
    requires PlayOutcome(items, true, t0, sources0, armed0, log0, now, s, time, sources, armed, log)
    ensures s == Done && time == items[|items| - 1].absoluteStart < Timeline.Finish(items)
    ensures armed == armed0 + [EnterChain(items[|items| - 1], items[|items| - 1], Timeline.Finish(items), now)]
    ensures sources == sources0
  {
    var last := items[|items| - 1];
    SpanOrdered(items);
    assert Clamp(items, t0) == End(last);
    CurrentItemIsLastCovering(items, End(last));
    assert CurrentItem(items, End(last)) == Some(last);
    StartAtTimelineEnd(last, now);
    FirstCallbackDoesNotAdvance(true, last, last, End(last), now);
  }

  /**
   * The effect of starting the segment `item`, which contains `t`, on a timeline
   * ending with `last`: an unregistered source fails and changes nothing; else
   * the first callback publishes its time and decides, a re-arm leaves the chain
   * waiting, a finish requests `setPlay(false)`, a freeze fails, and the
   * segment's element is sought and started.
   */
  ghost predicate StartOutcome(item: RenderItem, last: RenderItem, playing: bool, t: real, now: real,
                               sources0: map<SourceId, Device>, armed0: seq<Chain>, log0: seq<Action>,
                               s: Status, time: real, sources: map<SourceId, Device>, armed: seq<Chain>, log: seq<Action>)
  {
    if HasSource(item) && item.source.value !in sources0 then
      && s == Failed(UnregisteredSource(item.source.value)) && time == t
      && sources == sources0 && armed == armed0 && log == log0
    else
      var d := FirstDecision(playing, item, last, t, now);
      var published := FirstTime(item, last, t, now);
      && s == (if d == Frozen then Failed(TimeDidNotAdvance) else Done)
      && time == published
      && log == log0 + [SetPlayerTime(published)] + (if d == Finish then [SetPlay(false)] else [])
      && armed == armed0 + (if d == Rearm then [EnterChain(item, last, t, now)] else [])
      && sources == if HasSource(item) then StartedDevices(sources0, item, t, d) else sources0
  }

  /**
   * The devices after a user seek to `t`: the element of the sourced segment
   * that contains `t`, if it is registered, is moved to the matching source time.
   */
  function SeekDevice(sources: map<SourceId, Device>, items: seq<RenderItem>, t: real): (r: map<SourceId, Device>)
    ensures r.Keys == sources.Keys
    ensures forall id :: id in sources ==> r[id] == sources[id].(currentTime := r[id].currentTime)
  {
    var found := CurrentItem(items, t);
    if found.Some? && HasSource(found.value) && found.value.source.value in sources then
      var id := found.value.source.value;
      sources[id := sources[id].(currentTime := SourceTime(found.value, t))]
    else sources
  }

  /**
   * A user seek moves the registered device of the sourced segment that contains
   * the new time to the matching source time, and no other device; reading the
   * moved device back gives the new time.
   */
  lemma SeekDeviceMovesOnlyCovering(sources: map<SourceId, Device>, items: seq<RenderItem>, t: real)
    ensures SeekDevice(sources, items, t).Keys == sources.Keys
    ensures CurrentItem(items, t).Some? && HasSource(CurrentItem(items, t).value)
            && CurrentItem(items, t).value.source.value in sources ==>
      var id := CurrentItem(items, t).value.source.value;
      SeekDevice(sources, items, t)[id] == sources[id].(currentTime := SourceTime(CurrentItem(items, t).value, t))
    ensures forall id :: id in sources && SeekDevice(sources, items, t)[id] != sources[id] ==>
      && CurrentItem(items, t).Some?
      && Covers(CurrentItem(items, t).value, t)
      && CurrentItem(items, t).value.source == Some(id)
      && DocumentTime(CurrentItem(items, t).value, SeekDevice(sources, items, t)[id].currentTime) == t
  {
    var found := CurrentItem(items, t);
    if found.Some? {
      CurrentItemCovers(items, t);
      DeviceMappingRoundTrip(found.value, t, 0.0);
    }
  }

  class Player {
    var sources: map<SourceId, Device>
    var renderItems: seq<RenderItem>
    var currentTime: real
    var playing: bool
    /** Callbacks waiting for an animation frame. */
    var armed: seq<Chain>
    /** Store actions scheduled so far. */
    var dispatched: seq<Action>

    /** Every waiting callback's segment contains the time at which it was entered. */
    ghost predicate Valid()
      reads this
    {
      forall k :: 0 <= k < |armed| ==> Covers(armed[k].item, armed[k].startTime)
    }

    /** A fresh player: no devices, an empty timeline, time zero, not playing. */
    constructor()
      ensures Valid()
      ensures sources == map[] && renderItems == [] && currentTime == 0.0 && !playing
      ensures armed == [] && dispatched == []
    {
      sources := map[];
      renderItems := [];
      currentTime := 0.0;
      playing := false;
      armed := [];
      dispatched := [];
    }

    /** Sets the time at once and schedules `setPlayerTime` for the store. */
    method UpdateCurrentTime(t: real)
      modifies this
      ensures currentTime == t && dispatched == old(dispatched) + [SetPlayerTime(t)]
      ensures sources == old(sources) && renderItems == old(renderItems)
      ensures playing == old(playing) && armed == old(armed)
    {
      currentTime := t;
      dispatched := dispatched + [SetPlayerTime(t)];
    }

    /** The last segment whose closed range contains the current time. */
    function GetCurrentRenderItem(): (r: Option<RenderItem>)
      reads this
      ensures r.None? <==> forall i :: 0 <= i < |renderItems| ==> !Covers(renderItems[i], currentTime)
      ensures r.Some? ==> Covers(r.value, currentTime)
      ensures r.Some? ==> exists i :: 0 <= i < |renderItems| && renderItems[i] == r.value
                                      && forall j :: i < j < |renderItems| ==> !Covers(renderItems[j], currentTime)
    {
      CurrentItemCovers(renderItems, currentTime);
      CurrentItem(renderItems, currentTime)
    }

    /**
     * Forces the current time into the timeline's span, publishing it only when
     * it changes; an empty timeline raises.
     */
    method ClampCurrentTime() returns (s: Status)
      modifies this
      ensures s.Failed? <==> old(renderItems) == []
      ensures s.Failed? ==> s.reason == EmptyTimeline && currentTime == old(currentTime)
      ensures s.Done? ==> currentTime == Clamp(old(renderItems), old(currentTime))
      ensures dispatched == old(dispatched) + (if currentTime != old(currentTime) then [SetPlayerTime(currentTime)] else [])
      ensures sources == old(sources) && renderItems == old(renderItems)
      ensures playing == old(playing) && armed == old(armed)
    {
      if renderItems == [] {
        return Failed(EmptyTimeline);
      }
      var first := renderItems[0];
      var last := renderItems[|renderItems| - 1];
      if currentTime < first.absoluteStart {
        UpdateCurrentTime(first.absoluteStart);
      } else if currentTime > End(last) {
        UpdateCurrentTime(End(last));
      }
      s := Done;
    }

    /** `onRenderItemDone` of a chain: a media segment pauses its element. */
    method RenderItemDone(c: Chain)
      modifies this
      ensures sources == AfterItemDone(old(sources), c)
      ensures currentTime == old(currentTime) && dispatched == old(dispatched)
      ensures renderItems == old(renderItems) && playing == old(playing) && armed == old(armed)
    {
      if c.clock.MediaClock? && c.clock.source in sources {
        sources := sources[c.clock.source := sources[c.clock.source].(paused := true)];
      }
    }

    /**
     * The body of the frame callback: publish the capped clock reading, then
     * decide. Re-entering `play` after an advance is left to the caller.
     */
    method RunCallback(c: Chain, reading: real) returns (d: Decision)
      requires Valid() && Covers(c.item, c.startTime)
      modifies this
      ensures Valid()
      ensures d == Decide(old(playing), c, PublishedTime(c, reading))
      ensures currentTime == PublishedTime(c, reading)
      ensures dispatched == old(dispatched) + [SetPlayerTime(PublishedTime(c, reading))]
                            + (if d == Finish then [SetPlay(false)] else [])
      ensures armed == old(armed) + (if d == Rearm then [c] else [])
      ensures sources == if d == Halt || d == Finish || d == Advance then AfterItemDone(old(sources), c) else old(sources)
      ensures renderItems == old(renderItems) && playing == old(playing)
    {
      var time := PublishedTime(c, reading);
      UpdateCurrentTime(time);
      d := Decide(playing, c, time);
      match d
      case Halt =>
        RenderItemDone(c);
      case Finish =>
        RenderItemDone(c);
        dispatched := dispatched + [SetPlay(false)];
      case Frozen =>
      case Advance =>
        RenderItemDone(c);
      case Rearm =>
        armed := armed + [c];
    }

    /**
     * `play`: clamp, look up the segment of the current time, and start it.
     */
    method Play(now: real) returns (s: Status)
      requires Valid()
      modifies this
      ensures Valid()
      ensures renderItems == old(renderItems) && playing == old(playing)
      ensures |old(armed)| <= |armed| <= |old(armed)| + 1 && armed[..|old(armed)|] == old(armed)
      ensures |old(dispatched)| <= |dispatched| && dispatched[..|old(dispatched)|] == old(dispatched)
      ensures old(renderItems) != [] && Contiguous(old(renderItems)) ==> s.Done? || s.reason.UnregisteredSource?
      ensures |armed| > |old(armed)| ==>
        && s == Done && old(renderItems) != []
        && var t := Clamp(old(renderItems), old(currentTime));
           && CurrentItem(old(renderItems), t).Some?
           && armed[|old(armed)|] == EnterChain(CurrentItem(old(renderItems), t).value, old(renderItems)[|old(renderItems)| - 1], t, now)
      ensures PlayOutcome(old(renderItems), old(playing), old(currentTime), old(sources), old(armed), old(dispatched), now,
                          s, currentTime, sources, armed, dispatched)
    {
      s := ClampCurrentTime();
      if s.Failed? {
        return;
      }
      if Contiguous(renderItems) {
        SpanOrdered(renderItems);
        ClampIntoSpan(renderItems, old(currentTime));
      }
      s := StartCurrentItem(now);
    }

    /**
     * The part of `play` after clamping: look up the segment of the current time
     * (`assertSome` fails when there is none) and start it.
     */
    method StartCurrentItem(now: real) returns (s: Status)
      requires Valid() && renderItems != []
      modifies this
      ensures Valid()
      ensures renderItems == old(renderItems) && playing == old(playing)
      ensures |old(armed)| <= |armed| <= |old(armed)| + 1 && armed[..|old(armed)|] == old(armed)
      ensures |old(dispatched)| <= |dispatched| && dispatched[..|old(dispatched)|] == old(dispatched)
      ensures Contiguous(renderItems) && Start(renderItems) <= old(currentTime) <= Timeline.Finish(renderItems) ==>
        s.Done? || s.reason.UnregisteredSource?
      ensures |armed| > |old(armed)| ==>
        && s == Done && CurrentItem(renderItems, old(currentTime)).Some?
        && armed[|old(armed)|] == EnterChain(CurrentItem(renderItems, old(currentTime)).value,
                                             renderItems[|renderItems| - 1], old(currentTime), now)
      ensures LookupOutcome(renderItems, old(playing), old(currentTime), now, old(sources), old(armed), old(dispatched),
                            s, currentTime, sources, armed, dispatched)
    {
      var found := CurrentItem(renderItems, currentTime);
      CurrentItemIsLastCovering(renderItems, currentTime);
      if Contiguous(renderItems) && Start(renderItems) <= currentTime <= Timeline.Finish(renderItems) {
        SpanIsCovered(renderItems, currentTime);
      }
      if found.None? {
        return Failed(NoCurrentItem);
      }
      CurrentItemCovers(renderItems, currentTime);
      if Contiguous(renderItems) && currentTime == End(found.value) {
        LookupAtSegmentEndIsLast(renderItems, currentTime);
      }
      s := StartItem(found.value, now);
    }

    /**
     * The part of `play` after the lookup, for the segment `item` that contains
     * the current time: a media segment seeks its element to the matching source
     * time, runs the first callback and starts the element; silence runs the
     * first callback on a wall clock started at `now`.
     */
    method StartItem(item: RenderItem, now: real) returns (s: Status)
      requires Valid() && renderItems != [] && Covers(item, currentTime)
      modifies this
      ensures Valid()
      ensures renderItems == old(renderItems) && playing == old(playing)
      ensures |old(armed)| <= |armed| <= |old(armed)| + 1 && armed[..|old(armed)|] == old(armed)
      ensures |old(dispatched)| <= |dispatched| && dispatched[..|old(dispatched)|] == old(dispatched)
      ensures |armed| > |old(armed)| ==>
        s == Done && armed[|old(armed)|] == EnterChain(item, renderItems[|renderItems| - 1], old(currentTime), now)
      ensures s.Done? ==> currentTime == if HasSource(item) then old(currentTime) else item.absoluteStart
      ensures HasSource(item) && item.source.value !in old(sources) ==>
        && s == Failed(UnregisteredSource(item.source.value)) && currentTime == old(currentTime)
        && sources == old(sources) && armed == old(armed) && dispatched == old(dispatched)
      ensures HasSource(item) && item.source.value in old(sources) ==>
        var id := item.source.value;
        && id in sources && sources[id].currentTime == SourceTime(item, old(currentTime))
        && (s.Done? ==> !sources[id].paused)
        && sources.Keys == old(sources).Keys
        && forall other :: other in old(sources) && other != id ==> sources[other] == old(sources)[other]
      ensures !HasSource(item) ==> sources == old(sources)
      ensures s.Failed? ==> s.reason.UnregisteredSource? || s.reason.TimeDidNotAdvance?
      ensures s == Failed(TimeDidNotAdvance) ==>
        old(playing) && old(currentTime) == End(item) && End(item) < End(renderItems[|renderItems| - 1])
      ensures StartOutcome(item, renderItems[|renderItems| - 1], old(playing), old(currentTime), now,
                           old(sources), old(armed), old(dispatched), s, currentTime, sources, armed, dispatched)
    {
      var last := renderItems[|renderItems| - 1];
      var t := currentTime;
      FirstCallbackDoesNotAdvance(playing, item, last, t, now);
      var chain := EnterChain(item, last, t, now);
      if HasSource(item) {
        var id := item.source.value;
        if id !in sources {
          return Failed(UnregisteredSource(id));
        }
        sources := sources[id := sources[id].(currentTime := SourceTime(item, t))];
        var d := RunCallback(chain, sources[id].currentTime);
        if d == Frozen {
          return Failed(TimeDidNotAdvance);
        }
        sources := sources[id := sources[id].(paused := false)];
        assert sources == StartedDevices(old(sources), item, t, d);
      } else {
        var d := RunCallback(chain, now);
        if d == Frozen {
          return Failed(TimeDidNotAdvance);
        }
      }
      s := Done;
    }

    /**
     * The environment fires the waiting callback `k` with its clock's reading
     * (the element's time for media, the wall clock for silence); `now` is the
     * wall clock should `play` be entered again.
     */
    method Tick(k: nat, reading: real, now: real) returns (s: Status)
      requires Valid() && k < |armed|
      modifies this
      ensures Valid()
      ensures renderItems == old(renderItems) && playing == old(playing)
      ensures |dispatched| > |old(dispatched)|
      ensures dispatched[|old(dispatched)|] == SetPlayerTime(PublishedTime(old(armed)[k], reading))
      ensures PublishedTime(old(armed)[k], reading) <= End(old(armed)[k].item)
      ensures var c := old(armed)[k];
        var t := PublishedTime(c, reading);
        var rest := old(armed)[..k] + old(armed)[k + 1..];
        match Decide(old(playing), c, t)
        case Halt => s == Done && armed == rest && currentTime == t && sources == AfterItemDone(old(sources), c)
                     && dispatched == old(dispatched) + [SetPlayerTime(t)]
        case Finish => s == Done && armed == rest && currentTime == t && sources == AfterItemDone(old(sources), c)
                       && dispatched == old(dispatched) + [SetPlayerTime(t), SetPlay(false)]
        case Frozen => s == Failed(TimeDidNotAdvance) && armed == rest && currentTime == t && sources == old(sources)
                       && dispatched == old(dispatched) + [SetPlayerTime(t)]
        case Advance => t == End(c.item) && c.startTime < t && |rest| <= |armed| && armed[..|rest|] == rest
                        && PlayOutcome(old(renderItems), true, t, AfterItemDone(old(sources), c), rest,
                                       old(dispatched) + [SetPlayerTime(t)], now, s, currentTime, sources, armed, dispatched)
        case Rearm => s == Done && armed == rest + [c] && currentTime == t && sources == old(sources)
                      && dispatched == old(dispatched) + [SetPlayerTime(t)]
    {
      var c := armed[k];
      armed := armed[..k] + armed[k + 1..];
      var d := RunCallback(c, reading);
      if d == Frozen {
        s := Failed(TimeDidNotAdvance);
      } else if d == Advance {
        AdvanceMovesForward(playing, c, reading);
        s := Play(now);
      } else {
        s := Done;
      }
    }

    /** Pauses every registered device; nothing else changes. */
    method Pause()
      modifies this
      ensures sources == PauseAll(old(sources))
      ensures currentTime == old(currentTime) && dispatched == old(dispatched)
      ensures renderItems == old(renderItems) && playing == old(playing) && armed == old(armed)
    {
      var todo := sources.Keys;
      while todo != {}
        invariant todo <= sources.Keys == old(sources).Keys
        invariant forall id :: id in todo ==> sources[id] == old(sources)[id]
        invariant forall id :: id in sources && id !in todo ==> sources[id] == old(sources)[id].(paused := true)
        invariant currentTime == old(currentTime) && dispatched == old(dispatched)
        invariant renderItems == old(renderItems) && playing == old(playing) && armed == old(armed)
        decreases todo
      {
        var id :| id in todo;
        sources := sources[id := sources[id].(paused := true)];
        todo := todo - {id};
      }
    }

    function GetResolution(id: SourceId): (r: Option<Resolution>)
      reads this
      ensures r.Some? <==> id in sources && sources[id].videoWidth != 0 && sources[id].videoHeight != 0
      ensures r.Some? ==> r.value == Resolution(sources[id].videoWidth, sources[id].videoHeight)
      ensures r.Some? ==> r.value.x > 0 && r.value.y > 0
    {
      Devices.GetResolution(sources, id)
    }

    function GetDuration(id: SourceId): (r: Option<real>)
      reads this
      ensures r.Some? <==> id in sources
      ensures r.Some? ==> r.value == sources[id].duration
    {
      Devices.GetDuration(sources, id)
    }

    /**
     * The export resolution: 1280x720 when no registered device knows its
     * resolution, else the largest width and the largest height reported.
     */
    method GetTargetResolution() returns (r: Resolution)
      ensures IsTargetResolution(sources, r)
    {
      var todo := sources.Keys;
      var resolutions: seq<Option<Resolution>> := [];
      ghost var ids: seq<SourceId> := [];
      while todo != {}
        invariant todo <= sources.Keys
        invariant |ids| == |resolutions|
        invariant forall i :: 0 <= i < |ids| ==> ids[i] in sources && resolutions[i] == Devices.GetResolution(sources, ids[i])
        invariant forall id :: id in sources ==> id in todo || id in ids
        decreases todo
      {
        var id :| id in todo;
        resolutions := resolutions + [GetResolution(id)];
        ids := ids + [id];
        todo := todo - {id};
      }
      r := TargetResolution(resolutions);
      TargetResolutionOfRegistry(sources, ids, resolutions);
    }

    /**
     * Reaction to the playing flag: record it; when it turns on, move to the
     * start of the selection (if any) and play, else pause every device.
     */
    method PlayingHandler(playingNow: bool, selection: Option<Selection>, timed: seq<TimedItem>, now: real)
      returns (s: Status)
      requires Valid()
      modifies this
      ensures Valid()
      ensures playing == playingNow && renderItems == old(renderItems)
      ensures !playingNow ==> s == Done && sources == PauseAll(old(sources)) && currentTime == old(currentTime)
                              && armed == old(armed) && dispatched == old(dispatched)
      ensures playingNow && selection.Some? && !(0 <= selection.value.startIndex < |timed|) ==>
        && s == Failed(SelectionOutOfRange) && sources == old(sources) && armed == old(armed)
        && currentTime == old(currentTime) && dispatched == old(dispatched)
      ensures playingNow && selection.Some? && 0 <= selection.value.startIndex < |timed| && renderItems != []
              && |armed| > |old(armed)| ==>
        armed[|old(armed)|].startTime == Clamp(renderItems, timed[selection.value.startIndex].absoluteStart)
      ensures playingNow && selection.None? && renderItems != [] && |armed| > |old(armed)| ==>
        armed[|old(armed)|].startTime == Clamp(renderItems, old(currentTime))
      ensures playingNow && selection.None? ==>
        PlayOutcome(renderItems, true, old(currentTime), old(sources), old(armed), old(dispatched), now,
                    s, currentTime, sources, armed, dispatched)
      ensures playingNow && selection.Some? && 0 <= selection.value.startIndex < |timed| ==>
        PlayOutcome(renderItems, true, timed[selection.value.startIndex].absoluteStart, old(sources), old(armed),
                    old(dispatched), now, s, currentTime, sources, armed, dispatched)
    {
      playing := playingNow;
      if playingNow {
        if selection.Some? {
          var i := selection.value.startIndex;
          if i < 0 || i >= |timed| {
            return Failed(SelectionOutOfRange);
          }
          currentTime := timed[i].absoluteStart;
        }
        s := Play(now);
      } else {
        Pause();
        s := Done;
      }
    }

    /**
     * Reaction to the selection and the document: pause, replace the timeline by
     * the selection view when something is selected, else by the full view, and
     * play again when playing.
     */
    method RenderItemsHandler<I, C>(selected: seq<I>, content: C, selectionView: seq<I> -> seq<RenderItem>,
                                    documentView: C -> seq<RenderItem>, now: real)
      returns (s: Status)
      requires Valid()
      modifies this
      ensures Valid()
      ensures renderItems == if |selected| > 0 then selectionView(selected) else documentView(content)
      ensures playing == old(playing)
      ensures !playing ==> s == Done && sources == PauseAll(old(sources)) && currentTime == old(currentTime)
                           && armed == old(armed) && dispatched == old(dispatched)
      ensures |armed| > |old(armed)| ==> renderItems != [] && armed[|old(armed)|].last == renderItems[|renderItems| - 1]
      ensures playing ==>
        PlayOutcome(renderItems, true, old(currentTime), PauseAll(old(sources)), old(armed), old(dispatched), now,
                    s, currentTime, sources, armed, dispatched)
    {
      Pause();
      if |selected| > 0 {
        renderItems := selectionView(selected);
      } else {
        renderItems := documentView(content);
      }
      if playing {
        s := Play(now);
      } else {
        s := Done;
      }
    }

    /**
     * Reaction to a cursor move: for a move the user made, pause, move to the
     * seek target, move the element of the segment there (so that its frame is
     * shown) and play again when playing. The new time is not published.
     */
    method UserSetTimeHandler(current: string, userIndex: int, timed: seq<TimedItem>, now: real)
      returns (s: Status)
      requires Valid()
      modifies this
      ensures Valid()
      ensures renderItems == old(renderItems) && playing == old(playing)
      ensures current != "user" ==> s == Done && sources == old(sources) && currentTime == old(currentTime)
                                    && armed == old(armed) && dispatched == old(dispatched)
      ensures current == "user" && SeekTarget(timed, userIndex).None? ==>
        && s == Failed(SeekOutOfRange) && sources == PauseAll(old(sources)) && currentTime == old(currentTime)
        && armed == old(armed) && dispatched == old(dispatched)
      ensures current == "user" && SeekTarget(timed, userIndex).Some? && !playing ==>
        && s == Done
        && currentTime == SeekTarget(timed, userIndex).value
        && sources == SeekDevice(PauseAll(old(sources)), renderItems, currentTime)
        && armed == old(armed) && dispatched == old(dispatched)
      ensures current == "user" && SeekTarget(timed, userIndex).Some? && playing ==>
        var target := SeekTarget(timed, userIndex).value;
        PlayOutcome(renderItems, true, target, SeekDevice(PauseAll(old(sources)), renderItems, target), old(armed),
                    old(dispatched), now, s, currentTime, sources, armed, dispatched)
    {
      if current != "user" {
        return Done;
      }
      Pause();
      var target := SeekTarget(timed, userIndex);
      if target.None? {
        return Failed(SeekOutOfRange);
      }
      currentTime := target.value;
      var found := CurrentItem(renderItems, currentTime);
      if found.Some? && HasSource(found.value) && found.value.source.value in sources {
        var id := found.value.source.value;
        sources := sources[id := sources[id].(currentTime := SourceTime(found.value, currentTime))];
      }
      if playing {
        s := Play(now);
      } else {
        s := Done;
      }
    }
  }
}
