/**
 * The source registry's devices (the video elements the player drives) and the
 * pure computations over them in app/src/core/player.ts: resolution, duration,
 * pausing every device, and the export resolution heuristic.
 */
module Devices {
  import opened Wrappers
  import opened Timeline

  /** The part of a video element the player reads and writes. */
  datatype Device = Device(currentTime: real, paused: bool, videoWidth: nat, videoHeight: nat, duration: real)

  datatype Resolution = Resolution(x: nat, y: nat)

  /** Used when no device reports a resolution. */
  const DefaultResolution := Resolution(1280, 720)

  /** A device's resolution; a zero width or height means it is not known yet. */
  function ResolutionOf(d: Device): (r: Option<Resolution>)
    ensures r.Some? <==> d.videoWidth != 0 && d.videoHeight != 0
    ensures r.Some? ==> r.value.x == d.videoWidth && r.value.y == d.videoHeight
  {
    if d.videoHeight == 0 || d.videoWidth == 0 then None
    else Some(Resolution(d.videoWidth, d.videoHeight))
  }

  /** `getResolution`: absent for an unregistered id or an unknown resolution. */
  function GetResolution(sources: map<SourceId, Device>, id: SourceId): (r: Option<Resolution>)
    ensures r.Some? <==> id in sources && sources[id].videoWidth != 0 && sources[id].videoHeight != 0
    ensures r.Some? ==> r.value == Resolution(sources[id].videoWidth, sources[id].videoHeight)
  {
    if id !in sources then None else ResolutionOf(sources[id])
  }

  /** `getDuration`: absent for an unregistered id, else the device's duration. */
  function GetDuration(sources: map<SourceId, Device>, id: SourceId): (r: Option<real>)
    ensures r.Some? <==> id in sources
    ensures r.Some? ==> r.value == sources[id].duration
  {
    if id !in sources then None else Some(sources[id].duration)
  }

  /** Every registered device, paused; nothing else about them changes. */
  function PauseAll(sources: map<SourceId, Device>): (r: map<SourceId, Device>)
    ensures r.Keys == sources.Keys
    ensures forall id :: id in r ==> r[id].paused
    ensures forall id :: id in sources ==> r[id].(paused := sources[id].paused) == sources[id]
  {
    map id | id in sources :: sources[id].(paused := true)
  }

  /** Pausing twice has the effect of pausing once, and keeps the set of devices. */
  lemma PauseAllIdempotent(sources: map<SourceId, Device>)
    ensures PauseAll(PauseAll(sources)) == PauseAll(sources)
    ensures PauseAll(sources).Keys == sources.Keys
    ensures forall id :: id in sources ==> PauseAll(sources)[id].paused
  {
  }

  /** `x?.x || 0` and `x?.y || 0`: a missing resolution counts as zero. */
  function Width(r: Option<Resolution>): nat
  {
    if r.Some? then r.value.x else 0
  }

  function Height(r: Option<Resolution>): nat
  {
    if r.Some? then r.value.y else 0
  }

  /** `every((x) => x == undefined)`. */
  predicate AllUndefined(rs: seq<Option<Resolution>>)
  {
    forall i :: 0 <= i < |rs| ==> rs[i].None?
  }

  /** `reduce((acc, x) => Math.max(acc, x?.x || 0), 0)`, folded from the left. */
  function MaxWidth(rs: seq<Option<Resolution>>): (m: nat)
    ensures forall i :: 0 <= i < |rs| ==> Width(rs[i]) <= m
    ensures m == 0 || exists i :: 0 <= i < |rs| && Width(rs[i]) == m
  {
    if rs == [] then 0
    else
      var acc := MaxWidth(rs[..|rs| - 1]);
      if Width(rs[|rs| - 1]) > acc then Width(rs[|rs| - 1]) else acc
  }

  /** The same reduction over heights. */
  function MaxHeight(rs: seq<Option<Resolution>>): (m: nat)
    ensures forall i :: 0 <= i < |rs| ==> Height(rs[i]) <= m
    ensures m == 0 || exists i :: 0 <= i < |rs| && Height(rs[i]) == m
  {
    if rs == [] then 0
    else
      var acc := MaxHeight(rs[..|rs| - 1]);
      if Height(rs[|rs| - 1]) > acc then Height(rs[|rs| - 1]) else acc
  }

  /**
   * `getTargetResolution` over the resolutions of the registered devices: the
   * default when none is known, else the componentwise maximum.
   */
  function TargetResolution(rs: seq<Option<Resolution>>): (r: Resolution)
    ensures AllUndefined(rs) ==> r == DefaultResolution
    ensures !AllUndefined(rs) ==> forall i :: 0 <= i < |rs| && rs[i].Some? ==> rs[i].value.x <= r.x && rs[i].value.y <= r.y
  {
    if AllUndefined(rs) then DefaultResolution
    else Resolution(MaxWidth(rs), MaxHeight(rs))
  }

  /**
   * When some device reports a resolution whose sides are positive, each side of
   * the target is the side of some reported resolution: the maximum is attained.
   */
  lemma TargetResolutionAttained(rs: seq<Option<Resolution>>)
    requires forall i :: 0 <= i < |rs| && rs[i].Some? ==> rs[i].value.x > 0 && rs[i].value.y > 0
    requires !AllUndefined(rs)
    ensures exists i :: 0 <= i < |rs| && rs[i].Some? && rs[i].value.x == TargetResolution(rs).x
    ensures exists j :: 0 <= j < |rs| && rs[j].Some? && rs[j].value.y == TargetResolution(rs).y
  {
    var k :| 0 <= k < |rs| && rs[k].Some?;
    assert Width(rs[k]) > 0 && Height(rs[k]) > 0;
    assert MaxWidth(rs) >= Width(rs[k]) > 0 && MaxHeight(rs) >= Height(rs[k]) > 0;
    var i :| 0 <= i < |rs| && Width(rs[i]) == MaxWidth(rs);
    var j :| 0 <= j < |rs| && Height(rs[j]) == MaxHeight(rs);
    assert Width(rs[i]) > 0 && Height(rs[j]) > 0;
  }

  /** No devices give 1280x720; 640x480 and 1920x1080 give 1920x1080. */
  lemma TargetResolutionExamples()
    ensures TargetResolution([]) == Resolution(1280, 720)
    ensures TargetResolution([Some(Resolution(640, 480)), Some(Resolution(1920, 1080))]) == Resolution(1920, 1080)
  {
    var rs := [Some(Resolution(640, 480)), Some(Resolution(1920, 1080))];
    assert rs[..1] == [Some(Resolution(640, 480))];
    assert rs[..1][..0] == [];
    assert MaxWidth(rs[..1]) == 640 && MaxHeight(rs[..1]) == 480;
    assert MaxWidth(rs) == 1920 && MaxHeight(rs) == 1080;
    assert !AllUndefined(rs);
  }

  /**
   * What `getTargetResolution` promises about the registry: the default when no
   * registered device knows its resolution, else each side is the largest
   * reported one.
   */
  ghost predicate IsTargetResolution(sources: map<SourceId, Device>, r: Resolution)
  {
    && ((forall id :: id in sources ==> GetResolution(sources, id).None?) ==> r == DefaultResolution)
    && ((exists id :: id in sources && GetResolution(sources, id).Some?) ==>
         && (forall id :: id in sources && GetResolution(sources, id).Some? ==>
               GetResolution(sources, id).value.x <= r.x && GetResolution(sources, id).value.y <= r.y)
         && (exists id :: id in sources && GetResolution(sources, id).Some? && GetResolution(sources, id).value.x == r.x)
         && (exists id :: id in sources && GetResolution(sources, id).Some? && GetResolution(sources, id).value.y == r.y))
  }

  /**
   * Reducing the resolutions of the registered devices, enumerated in any order
   * (`Object.keys`), yields the target resolution of the registry.
   */
  lemma TargetResolutionOfRegistry(sources: map<SourceId, Device>, ids: seq<SourceId>, rs: seq<Option<Resolution>>)
    requires |ids| == |rs|
    requires forall i :: 0 <= i < |ids| ==> ids[i] in sources && rs[i] == GetResolution(sources, ids[i])
    requires forall id :: id in sources ==> id in ids
    ensures IsTargetResolution(sources, TargetResolution(rs))
  {
    var r := TargetResolution(rs);
    if exists id :: id in sources && GetResolution(sources, id).Some? {
      var id0 :| id0 in sources && GetResolution(sources, id0).Some?;
      var i0 :| 0 <= i0 < |ids| && ids[i0] == id0;
      assert rs[i0].Some?;
      TargetResolutionAttained(rs);
      var i :| 0 <= i < |rs| && rs[i].Some? && rs[i].value.x == r.x;
      var j :| 0 <= j < |rs| && rs[j].Some? && rs[j].value.y == r.y;
      assert GetResolution(sources, ids[i]).Some? && GetResolution(sources, ids[j]).Some?;
      forall id | id in sources && GetResolution(sources, id).Some?
        ensures GetResolution(sources, id).value.x <= r.x && GetResolution(sources, id).value.y <= r.y
      {
        var k :| 0 <= k < |ids| && ids[k] == id;
        assert rs[k] == GetResolution(sources, id);
      }
    } else {
      forall i | 0 <= i < |rs| ensures rs[i].None? {
        assert ids[i] in sources;
      }
    }
  }
}
