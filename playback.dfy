/**
 * The per-frame decision of `playRenderItem` (app/src/core/player.ts): what a
 * callback publishes as the current time and what it does next.
 */
module Playback {
  import opened Timeline

  /**
   * Where a callback chain reads its clock: the element of a media segment
   * (its `currentTime`), or the wall clock for synthetic silence, together with
   * the wall-clock time at which the silence began.
   */
  datatype Clock = MediaClock(source: SourceId) | WallClock(startedAt: real)

  /**
   * One `playRenderItem` call: the segment it plays, the timeline's last segment
   * and the current time as they were when it was entered, and its clock.
   */
  datatype Chain = Chain(item: RenderItem, last: RenderItem, startTime: real, clock: Clock)

  /** What a callback does after publishing the time. */
  datatype Decision =
    | Halt      // not playing: the segment is done, nothing is re-armed
    | Finish    // the end of the timeline: the segment is done and `setPlay(false)` is requested
    | Frozen    // the segment ended without time having moved: an error is raised
    | Advance   // the segment ended: it is done and `play` is entered again
    | Rearm     // another animation frame is requested

  /** `getTime`: the clock reading converted to document time. */
  function ClockTime(c: Chain, reading: real): real
  {
    match c.clock
    case MediaClock(_) => DocumentTime(c.item, reading)
    case WallClock(startedAt) => reading - startedAt + c.item.absoluteStart
  }

  /** The time a callback publishes: the clock, capped at the end of the segment. */
  function PublishedTime(c: Chain, reading: real): (t: real)
    ensures t <= End(c.item)
    ensures t <= ClockTime(c, reading)
    ensures t == End(c.item) || t == ClockTime(c, reading)
  {
    if ClockTime(c, reading) < End(c.item) then ClockTime(c, reading) else End(c.item)
  }

  /** The outcome of a callback that published `time`, checked in the source's order. */
  function Decide(playing: bool, c: Chain, time: real): (d: Decision)
    ensures d == Halt <==> !playing
    ensures d == Finish ==> time >= End(c.last)
    ensures d == Frozen || d == Advance ==> playing && End(c.item) <= time < End(c.last)
    ensures d == Frozen ==> time == c.startTime
    ensures d == Rearm ==> playing && time < End(c.item) && time < End(c.last)
  {
    if !playing then Halt
    else if time >= End(c.last) then Finish
    else if time >= End(c.item) then (if time == c.startTime then Frozen else Advance)
    else Rearm
  }

  /**
   * Each outcome holds exactly under its condition: the checks are made in the
   * fixed order playing, end of timeline, end of segment, and only an unfinished
   * segment re-arms.
   */
  lemma DecideCases(playing: bool, c: Chain, time: real)
    ensures Decide(playing, c, time) == Halt <==> !playing
    ensures Decide(playing, c, time) == Finish <==> playing && time >= End(c.last)
    ensures Decide(playing, c, time) == Frozen <==>
      playing && time < End(c.last) && time >= End(c.item) && time == c.startTime
    ensures Decide(playing, c, time) == Advance <==>
      playing && time < End(c.last) && time >= End(c.item) && time != c.startTime
    ensures Decide(playing, c, time) == Rearm <==> playing && time < End(c.last) && time < End(c.item)
  {
  }

  /**
   * A callback that advances has published exactly the end of its segment, and
   * that is later than the time at which the segment was entered.
   */
  lemma AdvanceMovesForward(playing: bool, c: Chain, reading: real)
    requires Covers(c.item, c.startTime)
    requires Decide(playing, c, PublishedTime(c, reading)) == Advance
    ensures PublishedTime(c, reading) == End(c.item)
    ensures c.startTime < PublishedTime(c, reading)
  {
  }

  /**
   * The chain `play` enters for a segment that contains the current time `t`:
   * a media chain on the segment's source, or a silence chain started at `now`.
   */
  function EnterChain(item: RenderItem, last: RenderItem, t: real, now: real): (c: Chain)
    ensures c.item == item && c.last == last && c.startTime == t
    ensures c.clock.MediaClock? <==> HasSource(item)
    ensures c.clock.MediaClock? ==> c.clock.source == item.source.value
    ensures c.clock.WallClock? ==> c.clock.startedAt == now
  {
    Chain(item, last, t, if HasSource(item) then MediaClock(item.source.value) else WallClock(now))
  }

  /**
   * The first reading of that chain: the element was just sought to the source
   * position of `t`, and the wall clock has not moved since `now`.
   */
  function FirstReading(item: RenderItem, t: real, now: real): real
  {
    if HasSource(item) then SourceTime(item, t) else now
  }

  /** The time published by the callback `play` runs at once for `item` entered at `t`. */
  function FirstTime(item: RenderItem, last: RenderItem, t: real, now: real): real
  {
    PublishedTime(EnterChain(item, last, t, now), FirstReading(item, t, now))
  }

  /** What that first callback does next. */
  function FirstDecision(playing: bool, item: RenderItem, last: RenderItem, t: real, now: real): Decision
  {
    Decide(playing, EnterChain(item, last, t, now), FirstTime(item, last, t, now))
  }

  /**
   * The callback `play` runs at once never advances: it publishes `t` for a media
   * segment and the segment's start for silence, so `play` does not re-enter itself
   * before a frame has passed.
   */
  lemma FirstCallbackDoesNotAdvance(playing: bool, item: RenderItem, last: RenderItem, t: real, now: real)
    requires Covers(item, t)
    ensures FirstDecision(playing, item, last, t, now) != Advance
    ensures FirstTime(item, last, t, now) == if HasSource(item) then t else item.absoluteStart
  {
    var c := EnterChain(item, last, t, now);
    if HasSource(item) {
      DeviceMappingRoundTrip(item, t, 0.0);
      assert ClockTime(c, FirstReading(item, t, now)) == t;
    } else {
      assert ClockTime(c, FirstReading(item, t, now)) == item.absoluteStart;
    }
  }

  /**
   * Entering a media segment at the end of the timeline stops at once, while a
   * silent last segment entered at its end restarts from its own start: the
   * silence clock counts from the segment's start, not from the current time.
   */
  lemma StartAtTimelineEnd(item: RenderItem, now: real)
    requires item.length > 0.0
    ensures HasSource(item) ==> FirstDecision(true, item, item, End(item), now) == Finish
    ensures !HasSource(item) ==> FirstDecision(true, item, item, End(item), now) == Rearm
  {
    FirstCallbackDoesNotAdvance(true, item, item, End(item), now);
  }
}
