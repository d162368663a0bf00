/**
 * The timeline the player walks through: segments ("render items") of document
 * time, each either a slice of a media source or synthetic silence, and the
 * pure computations the player makes over them (app/src/core/player.ts).
 */
module Timeline {
  import opened Wrappers

  /** Identifier of a media source (a key of the player's device registry). */
  type SourceId = string

  /**
   * A segment of document time. `source` is the optional source id; the player
   * treats the empty string like an absent source (a falsy value in the source).
   * `sourceStart` is the offset inside the source where the segment begins.
   */
  datatype RenderItem = RenderItem(absoluteStart: real, length: real, source: Option<SourceId>, sourceStart: real)

  /** An item of the timed document, as the `timedDocumentItems` selector yields it. */
  datatype TimedItem = TimedItem(absoluteStart: real, length: real, isParagraph: bool)

  function End(item: RenderItem): real
  {
    item.absoluteStart + item.length
  }

  /** The segment plays from a device rather than producing silence. */
  predicate HasSource(item: RenderItem)
  {
    item.source.Some? && item.source.value != ""
  }

  /** The closed range of `item` contains `t`. */
  predicate Covers(item: RenderItem, t: real)
  {
    item.absoluteStart <= t <= End(item)
  }

  /** The segments whose closed range contains `t`, in timeline order (the source's `filter`). */
  function Candidates(items: seq<RenderItem>, t: real): (c: seq<RenderItem>)
    ensures forall i :: 0 <= i < |c| ==> c[i] in items && Covers(c[i], t)
    ensures c == [] <==> forall j :: 0 <= j < |items| ==> !Covers(items[j], t)
  {
    if items == [] then []
    else Candidates(items[..|items| - 1], t) + (if Covers(items[|items| - 1], t) then [items[|items| - 1]] else [])
  }

  /** `getCurrentRenderItem`: the last of the candidates, or none. */
  function CurrentItem(items: seq<RenderItem>, t: real): (r: Option<RenderItem>)
    ensures r.None? <==> forall j :: 0 <= j < |items| ==> !Covers(items[j], t)
    ensures r.Some? ==> r.value in items && Covers(r.value, t)
  {
    var c := Candidates(items, t);
    if c == [] then None else Some(c[|c| - 1])
  }

  /**
   * Reference definition of the lookup: the index of the last segment whose range
   * contains `t`, found by a backward search.
   */
  function LastCovering(items: seq<RenderItem>, t: real): (r: Option<nat>)
    ensures r.Some? ==> r.value < |items| && Covers(items[r.value], t)
    ensures r.Some? ==> forall j :: r.value < j < |items| ==> !Covers(items[j], t)
    ensures r.None? <==> forall j :: 0 <= j < |items| ==> !Covers(items[j], t)
  {
    if items == [] then None
    else if Covers(items[|items| - 1], t) then Some(|items| - 1)
    else LastCovering(items[..|items| - 1], t)
  }

  /** The source's filter-then-last lookup agrees with the backward search. */
  lemma {:induction false} CurrentItemIsLastCovering(items: seq<RenderItem>, t: real)
    ensures CurrentItem(items, t).None? <==> LastCovering(items, t).None?
    ensures CurrentItem(items, t).Some? ==> CurrentItem(items, t).value == items[LastCovering(items, t).value]
  {
    if items != [] && !Covers(items[|items| - 1], t) {
      CurrentItemIsLastCovering(items[..|items| - 1], t);
    }
  }

  /**
   * Direct consequence for callers: nothing is found exactly when no segment
   * contains `t`, and a found segment is a segment of the timeline that contains
   * `t` while no later one does.
   */
  lemma CurrentItemCovers(items: seq<RenderItem>, t: real)
    ensures CurrentItem(items, t).None? <==> forall j :: 0 <= j < |items| ==> !Covers(items[j], t)
    ensures CurrentItem(items, t).Some? ==> Covers(CurrentItem(items, t).value, t)
    ensures CurrentItem(items, t).Some? ==>
      exists i :: 0 <= i < |items| && items[i] == CurrentItem(items, t).value
                  && forall j :: i < j < |items| ==> !Covers(items[j], t)
  {
    CurrentItemIsLastCovering(items, t);
    if CurrentItem(items, t).Some? {
      var i := LastCovering(items, t).value;
      assert items[i] == CurrentItem(items, t).value;
    }
  }

  /** At the boundary shared by [0,5] and [5,10], time 5 belongs to the later segment. */
  lemma SharedBoundaryPicksLater(a: RenderItem, b: RenderItem)
    requires a.absoluteStart == 0.0 && a.length == 5.0
    requires b.absoluteStart == 5.0 && b.length == 5.0
    ensures CurrentItem([a, b], 5.0) == Some(b)
  {
    CurrentItemIsLastCovering([a, b], 5.0);
  }

  /**
   * A well-formed timeline: no segment has negative length and every segment
   * starts where the previous one ends (sorted, contiguous, no overlap).
   */
  ghost predicate Contiguous(items: seq<RenderItem>)
  {
    && (forall i :: 0 <= i < |items| ==> items[i].length >= 0.0)
    && (forall i :: 0 <= i < |items| - 1 ==> items[i + 1].absoluteStart == End(items[i]))
  }

  function Start(items: seq<RenderItem>): real
    requires items != []
  {
    items[0].absoluteStart
  }

  function Finish(items: seq<RenderItem>): real
    requires items != []
  {
    End(items[|items| - 1])
  }

  lemma {:induction false} ContiguousPrefix(items: seq<RenderItem>, n: nat)
    requires Contiguous(items) && n <= |items|
    ensures Contiguous(items[..n])
  {
  }

  /** A well-formed timeline starts no later than it ends. */
  lemma {:induction false} SpanOrdered(items: seq<RenderItem>)
    requires items != [] && Contiguous(items)
    ensures Start(items) <= Finish(items)
  {
    if |items| > 1 {
      var prefix := items[..|items| - 1];
      ContiguousPrefix(items, |items| - 1);
      SpanOrdered(prefix);
      assert Finish(prefix) == items[|items| - 1].absoluteStart;
    }
  }

  /** Every time of a well-formed timeline's span lies in some segment. */
  lemma {:induction false} SpanIsCovered(items: seq<RenderItem>, t: real)
    requires items != [] && Contiguous(items)
    requires Start(items) <= t <= Finish(items)
    ensures LastCovering(items, t).Some?
  {
    var last := items[|items| - 1];
    if t < last.absoluteStart {
      var prefix := items[..|items| - 1];
      ContiguousPrefix(items, |items| - 1);
      assert |items| > 1;
      assert Finish(prefix) == last.absoluteStart;
      SpanIsCovered(prefix, t);
    }
  }

  /**
   * At the end of segment `i`, which is not the last one, the lookup of a
   * well-formed timeline picks a later segment: playback moves forward and does
   * not re-enter the segment it just finished.
   */
  lemma BoundaryMovesToLaterSegment(items: seq<RenderItem>, i: nat)
    requires Contiguous(items) && i + 1 < |items|
    ensures LastCovering(items, End(items[i])).Some?
    ensures LastCovering(items, End(items[i])).value > i
  {
    assert Covers(items[i + 1], End(items[i]));
  }

  /**
   * On a well-formed timeline, a time that the lookup finds at the very end of
   * its segment is the end of the whole timeline.
   */
  lemma LookupAtSegmentEndIsLast(items: seq<RenderItem>, t: real)
    requires Contiguous(items)
    requires LastCovering(items, t).Some? && t == End(items[LastCovering(items, t).value])
    ensures t == Finish(items)
  {
    var i := LastCovering(items, t).value;
    assert i + 1 < |items| ==> Covers(items[i + 1], t);
  }

  /**
   * `clampCurrentTimeToRenderItemsRange`: a time before the first segment moves to
   * its start, a time after the last segment moves to its end, any other time stays.
   */
  function Clamp(items: seq<RenderItem>, t: real): (r: real)
    requires items != []
    ensures r == t || r == Start(items) || r == Finish(items)
    ensures Start(items) <= t <= Finish(items) ==> r == t
  {
    if t < Start(items) then Start(items)
    else if t > Finish(items) then Finish(items)
    else t
  }

  /** Clamping moves the time only when it lies outside the span, and then onto an end of it. */
  lemma ClampMovesOnlyOutside(items: seq<RenderItem>, t: real)
    requires items != []
    ensures Clamp(items, t) != t ==> t < Start(items) || t > Finish(items)
    ensures t < Start(items) ==> Clamp(items, t) == Start(items)
    ensures Start(items) <= t && t > Finish(items) ==> Clamp(items, t) == Finish(items)
  {
  }

  /** When the span is ordered, the clamped time lies in it and clamping again changes nothing. */
  lemma ClampIntoSpan(items: seq<RenderItem>, t: real)
    requires items != [] && Start(items) <= Finish(items)
    ensures Start(items) <= Clamp(items, t) <= Finish(items)
    ensures Clamp(items, Clamp(items, t)) == Clamp(items, t)
  {
  }

  /**
   * On a non-empty well-formed timeline, the lookup after clamping always finds a
   * segment: the `assertSome` in `play` cannot fail.
   */
  lemma LookupAfterClampSucceeds(items: seq<RenderItem>, t: real)
    requires items != [] && Contiguous(items)
    ensures CurrentItem(items, Clamp(items, t)).Some?
    ensures Covers(CurrentItem(items, Clamp(items, t)).value, Clamp(items, t))
  {
    SpanOrdered(items);
    ClampIntoSpan(items, t);
    SpanIsCovered(items, Clamp(items, t));
    CurrentItemIsLastCovering(items, Clamp(items, t));
    CurrentItemCovers(items, Clamp(items, t));
  }

  /** Document time -> position inside the segment's source (`sourceStart + offset`). */
  function SourceTime(item: RenderItem, t: real): (d: real)
    ensures DocumentTime(item, d) == t
    ensures Covers(item, t) ==> item.sourceStart <= d <= item.sourceStart + item.length
  {
    item.sourceStart + (t - item.absoluteStart)
  }

  /** Position inside the segment's source -> document time. */
  function DocumentTime(item: RenderItem, d: real): (t: real)
    ensures item.sourceStart <= d <= item.sourceStart + item.length ==> Covers(item, t)
  {
    d - item.sourceStart + item.absoluteStart
  }

  /** Seeking a device and reading its clock back gives the document time again, and conversely. */
  lemma DeviceMappingRoundTrip(item: RenderItem, t: real, d: real)
    ensures DocumentTime(item, SourceTime(item, t)) == t
    ensures SourceTime(item, DocumentTime(item, d)) == d
    ensures Covers(item, t) ==> item.sourceStart <= SourceTime(item, t) <= item.sourceStart + item.length
  {
  }

  /**
   * The time a user seek to `userIndex` moves to: the start of the timed item at
   * that index, or, past the end, the start of the last item plus its length when
   * it is a paragraph. An empty document or a negative index reads an undefined
   * item, which the source does not survive.
   */
  function SeekTarget(timed: seq<TimedItem>, userIndex: int): (r: Option<real>)
    ensures r.Some? <==> timed != [] && userIndex >= 0
    ensures 0 <= userIndex < |timed| ==> r == Some(timed[userIndex].absoluteStart)
  {
    if userIndex >= |timed| then
      if timed == [] then None
      else
        var last := timed[|timed| - 1];
        Some(last.absoluteStart + (if last.isParagraph then last.length else 0.0))
    else if userIndex < 0 then None
    else Some(timed[userIndex].absoluteStart)
  }

  /** Timed items in document order with non-negative lengths. */
  ghost predicate TimedOrdered(timed: seq<TimedItem>)
  {
    && (forall i :: 0 <= i < |timed| ==> timed[i].length >= 0.0)
    && (forall i, j :: 0 <= i <= j < |timed| ==> timed[i].absoluteStart <= timed[j].absoluteStart)
  }

  /**
   * A seek succeeds exactly for a non-negative index into a non-empty document
   * (a negative index has no target), and on an ordered document seeking to a
   * larger index never lands earlier.
   */
  lemma SeekTargetMonotone(timed: seq<TimedItem>, i: int, j: int)
    requires TimedOrdered(timed) && i <= j
    ensures SeekTarget(timed, i).Some? <==> timed != [] && i >= 0
    ensures SeekTarget(timed, i).Some? ==> SeekTarget(timed, i).value <= SeekTarget(timed, j).value
  {
  }

  /** A seek past the end lands within the last item, at its end when it is a paragraph. */
  lemma SeekPastEndStaysInLastItem(timed: seq<TimedItem>, userIndex: int)
    requires timed != [] && userIndex >= |timed| && timed[|timed| - 1].length >= 0.0
    ensures timed[|timed| - 1].absoluteStart <= SeekTarget(timed, userIndex).value
    ensures SeekTarget(timed, userIndex).value <= timed[|timed| - 1].absoluteStart + timed[|timed| - 1].length
    ensures timed[|timed| - 1].isParagraph ==>
      SeekTarget(timed, userIndex).value == timed[|timed| - 1].absoluteStart + timed[|timed| - 1].length
    ensures !timed[|timed| - 1].isParagraph ==> SeekTarget(timed, userIndex).value == timed[|timed| - 1].absoluteStart
  {
  }
}
