# Audapolis playback engine and menu bar, in Dafny

This project models two parts of the audapolis editor's front end.

- **The playback engine**, class `Player` of `app/src/core/player.ts`. The
  player walks through a timeline of render items. A render item is a segment
  of document time. It either plays a slice of a media source, through a video
  element registered under the source's id, or it produces synthetic silence
  timed by the wall clock. The model covers:
  - the lookup of the segment under the current time;
  - clamping the current time into the timeline's span;
  - `play` and the per-frame callback of `playRenderItem`;
  - `pause`;
  - the device queries: resolution, duration and the export resolution;
  - the three reactions to store updates registered by `setStore`.
- **The menu bar**, `app/src/components/MenuBar.tsx`. The model covers:
  - the translation of the `MenuBar` component's children into native menu
    options;
  - `setMenu`, which replaces each click callback by a fresh id, keeps a
    listener table from ids to callbacks, and calls the registered callback
    when the main process reports a click.

## Modules

| file | module | contents |
|---|---|---|
| `wrappers.dfy` | `Wrappers` | `Option`, `Result` |
| `timeline.dfy` | `Timeline` | render items and the pure computations over them: lookup, clamping, device-time mapping, the seek target of a cursor move |
| `devices.dfy` | `Devices` | the video elements as values, and the resolution, duration, pause and export-resolution computations |
| `playback.dfy` | `Playback` | the frame callback's decision: published time, order of the checks, the chain `play` enters |
| `player.dfy` | `Engine` | class `Player`, whose fields the methods update in place |
| `menu_tree.dfy` | `MenuTree` | the menu translation, its failure on unknown components, and its inverse |
| `menu_template.dfy` | `MenuTemplate` | class `MenuListeners`, which holds the listener table, the template rewrite and the round trip from ids back to callbacks |

### How the environment is modelled

- **Clocks and scheduling are explicit.**
  - A callback that requests another animation frame is appended to the
    player's `armed` list.
  - `Engine.Player.Tick(k, reading, now)` fires waiting callback `k`.
    `reading` is its clock reading: the element's `currentTime` for media,
    the wall clock for silence.
  - Several callbacks can be waiting at once, because the player never
    cancels one.
  - The deferred `setPlayerTime` and `setPlay(false)` dispatches are appended
    to `dispatched`, in the order they are scheduled.
  - `Date.now()` is the parameter `now`. It is constant within one
    synchronous run.
- **An exception becomes a `Failed` status.** Exceptions are:
  - an undefined render item or element;
  - `assertSome`;
  - "didnt advance time";
  - an out-of-range timed item.

  State changed before the throw stays changed, as in the source.
- **The store's selectors are parameters of the handlers.** These are
  `timedDocumentItems`, `renderItems` and `documentRenderItems`, passed as
  their results or as function values.

### Playback at the end of a silent segment

Playback that runs into the end of the timeline stops, whatever the last
segment is: the callback publishes the end and requests `setPlay(false)`.
Pressing play when the time already is at the end stops at once only when the
last segment plays media. For a silent segment, the synthetic clock counts
from the segment's start, not from the current time. So `play` entered at the
very end of a silent last segment publishes the segment's start and requests
another frame instead of stopping. The model follows the code.
`Playback.StartAtTimelineEnd` states both cases of pressing play at the end.

## Model

| member | source | states |
|---|---|---|
| Timeline.LastCovering | app/src/core/player.ts:108-115 | reference lookup: the index found contains the time and no later segment does; none is found exactly when no segment contains the time |
| Timeline.Candidates | app/src/core/player.ts:109-113 | the `filter`: every candidate is a segment of the timeline that contains the time, and there are none exactly when no segment contains it |
| Timeline.CurrentItem | app/src/core/player.ts:108-115 | the lookup finds nothing exactly when no segment contains the time, and otherwise a segment of the timeline that contains it; `CurrentItemIsLastCovering` shows it is the last such segment |
| Timeline.CurrentItemIsLastCovering | app/src/core/player.ts:108-115 | the filter-then-take-last lookup agrees with the backward search, both when it finds a segment and when it does not |
| Timeline.CurrentItemCovers | app/src/core/player.ts:108-115 | a found segment contains the current time (closed range), it is in the timeline, and no later segment contains the time |
| Timeline.SharedBoundaryPicksLater | app/src/core/player.ts:109-114 | at the time shared by [0,5] and [5,10] the lookup returns the later segment |
| Timeline.SpanOrdered | app/src/core/player.ts:117-125 | a contiguous timeline with non-negative lengths starts no later than it ends |
| Timeline.SpanIsCovered | app/src/core/player.ts:108-115 | on such a timeline every time between start and end lies in some segment |
| Timeline.BoundaryMovesToLaterSegment | app/src/core/player.ts:176-180 | at the end of a segment that is not the last, the lookup picks a later segment, so advancing never re-enters the finished segment |
| Timeline.LookupAtSegmentEndIsLast | app/src/core/player.ts:171-178 | on a contiguous timeline, a time found at the very end of its segment is the end of the timeline |
| Timeline.Clamp | app/src/core/player.ts:117-125 | the clamped time is the time itself or one of the span's two ends, and a time inside the span is left alone; `ClampIntoSpan` shows it lands in the span |
| Timeline.ClampMovesOnlyOutside | app/src/core/player.ts:117-125 | clamping changes the time only when it lies before the first segment (then to its start) or after the last (then to its end) |
| Timeline.ClampIntoSpan | app/src/core/player.ts:117-125 | the clamped time lies in the span and clamping again changes nothing |
| Timeline.LookupAfterClampSucceeds | app/src/core/player.ts:128-131 | on a non-empty contiguous timeline the lookup after clamping finds a segment that contains the time, so `assertSome` cannot fail |
| Timeline.SourceTime | app/src/core/player.ts:78-81 | mapping a document time into the segment's source and back gives it again, and a time inside the segment lands inside its slice of the source |
| Timeline.DocumentTime | app/src/core/player.ts:139 | a position inside the segment's slice of the source reads back as a time inside the segment |
| Timeline.DeviceMappingRoundTrip | app/src/core/player.ts:133-139 | seeking an element to the source time and reading it back gives the document time again, and conversely; a covered time maps inside the segment's slice of the source |
| Timeline.SeekTarget | app/src/core/player.ts:66-73 | a seek has a target exactly for a non-negative index into a non-empty document, and an index inside the document seeks to that item's start; `SeekPastEndStaysInLastItem` gives the value past the end and `SeekTargetMonotone` the order |
| Timeline.SeekTargetMonotone | app/src/core/player.ts:66-73 | a seek has a target exactly for a non-negative index into a non-empty document (a negative index has none); on an ordered document a larger index never seeks earlier |
| Timeline.SeekPastEndStaysInLastItem | app/src/core/player.ts:67-70 | an index past the end seeks to the last timed item: to its end when it is a paragraph, to its start otherwise, so always inside it |
| Devices.ResolutionOf | app/src/core/player.ts:197-204 | a resolution exists exactly when width and height are both non-zero, and it is the element's width and height |
| Devices.GetResolution | app/src/core/player.ts:194-205 | absent for an unregistered id or an unknown resolution, else the element's width and height |
| Devices.GetDuration | app/src/core/player.ts:207-211 | absent exactly for an unregistered id, else the element's duration |
| Devices.PauseAll | app/src/core/player.ts:188-192 | the same ids stay registered, every element is paused, and nothing but the paused flag of an element changes |
| Devices.PauseAllIdempotent | app/src/core/player.ts:188-192 | pausing every element keeps the registry's ids, leaves every element paused, and pausing twice equals pausing once |
| Devices.MaxWidth | app/src/core/player.ts:225 | the reduce over widths (missing counts as 0) bounds every width and equals one of them or 0 |
| Devices.MaxHeight | app/src/core/player.ts:226 | the same for heights |
| Devices.TargetResolution | app/src/core/player.ts:216-229 | 1280x720 when every resolution is undefined, else componentwise an upper bound of all reported resolutions |
| Devices.TargetResolutionAttained | app/src/core/player.ts:224-227 | when some resolution is defined, both components of the result are attained by some reported resolution |
| Devices.TargetResolutionExamples | app/src/core/player.ts:216-229 | no elements gives 1280x720; 640x480 and 1920x1080 give 1920x1080 |
| Devices.TargetResolutionOfRegistry | app/src/core/player.ts:216-229 | whatever the order in which the registry's ids are enumerated, the result is the default or the componentwise maximum over the registered elements |
| Playback.PublishedTime | app/src/core/player.ts:165-168 | the published time is the clock reading capped at the segment's end: it never exceeds either, and equals one of them |
| Playback.Decide | app/src/core/player.ts:169-183 | stops exactly when not playing; finishes only at or past the timeline's end; freezes or advances only while playing, at or past the segment's end and before the timeline's end, freezing only when time has not moved; re-arms only before both ends |
| Playback.DecideCases | app/src/core/player.ts:169-183 | each of the five outcomes (stop, finish, frozen, advance, re-arm) holds exactly under its condition, checked in the source's order |
| Playback.AdvanceMovesForward | app/src/core/player.ts:176-180 | a callback that advances published exactly the segment's end, which is later than the time the segment was entered |
| Playback.EnterChain | app/src/core/player.ts:133-153 | the chain play enters keeps the segment, the last segment and the start time; it reads a media clock exactly when the segment has a source, and then the element of the segment's own source; a silence chain counts from `now` |
| Playback.FirstCallbackDoesNotAdvance | app/src/core/player.ts:133-153 | the callback play runs at once never advances; it publishes the current time for media and the segment's start for silence |
| Playback.StartAtTimelineEnd | app/src/core/player.ts:145-152 | entering the last segment at its end finishes for media but re-arms for silence |
| Engine.AfterItemDone | app/src/core/player.ts:137-142 | after a segment is done, the element of a media chain is paused and every other element is unchanged |
| Engine.StartedDevices | app/src/core/player.ts:133-143 | after `play` starts a sourced segment, its element is at the matching source time and playing (even when the first callback just paused it), unless the callback froze; no other element changes, and no other field of that element |
| Engine.PlayAtEndOfMediaTimelineStops | app/src/core/player.ts:127-175 | pressing play at or past the end of a well-formed timeline ending in a registered media segment stops at once: the end is published, `setPlay(false)` is requested and no callback waits |
| Engine.PlayAtEndOfSilentTimelineRestarts | app/src/core/player.ts:144-182 | on a timeline ending in silence the same press does not stop: the time jumps back to the silent segment's start and a callback waits for the next frame |
| Engine.SeekDevice | app/src/core/player.ts:74-83 | the same ids stay registered and no element changes except in its `currentTime`; `SeekDeviceMovesOnlyCovering` says which element moves and where to |
| Engine.SeekDeviceMovesOnlyCovering | app/src/core/player.ts:74-83 | a user seek moves the registered element of the sourced segment containing the new time to the matching source time, even when not playing, and moves no other element; reading the moved element back gives the new time |
| Engine.Player.constructor | app/src/core/player.ts:15-20 | a new player has no elements, an empty timeline, time zero and is not playing |
| Engine.Player.UpdateCurrentTime | app/src/core/player.ts:101-106 | sets the time at once and schedules exactly one `setPlayerTime` of it; nothing else changes |
| Engine.Player.GetCurrentRenderItem | app/src/core/player.ts:108-115 | absent exactly when no segment contains the current time; a found segment is a segment of the timeline that contains the time, and no later segment does |
| Engine.Player.ClampCurrentTime | app/src/core/player.ts:117-125 | fails exactly on an empty timeline; otherwise the time becomes its clamp, and it is published only when it changed |
| Engine.Player.RenderItemDone | app/src/core/player.ts:137-142 | the devices become `AfterItemDone` of the chain; nothing else changes |
| Engine.Player.RunCallback | app/src/core/player.ts:164-184 | publishes the capped time, decides by `Decide` on the playing flag, requests `setPlay(false)` only on finish, re-arms only on re-arm, pauses the media element on stop, finish and advance |
| Engine.Player.Play | app/src/core/player.ts:127-154 | the whole effect of `play` (`PlayOutcome`): an empty timeline fails; else the time is clamped and published if it moved, then the segment there is started; on a contiguous timeline only an unregistered source can fail |
| Engine.Player.StartCurrentItem | app/src/core/player.ts:130-153 | after clamping: no segment at the current time fails and changes nothing (`assertSome`), else the last segment containing it is started (`LookupOutcome`) |
| Engine.Player.StartItem | app/src/core/player.ts:133-153 | `StartOutcome`: an unregistered source fails and changes nothing; else the first callback publishes its time (the current time for media, the segment start for silence), `setPlay(false)` follows on finish, the chain waits on re-arm, a freeze fails, and the element is sought and started; a freeze happens only at a segment end that is not the timeline's end |
| Engine.Player.Tick | app/src/core/player.ts:164-185 | fires one waiting callback: removes it, publishes the capped time, and per outcome states the status, the waiting callbacks, the time, the devices and the dispatch log; an advance publishes the segment's end, moves forward and has the effect of `play` from there |
| Engine.Player.Pause | app/src/core/player.ts:188-192 | every registered element is paused and nothing else changes |
| Engine.Player.GetResolution | app/src/core/player.ts:194-205 | present exactly for a registered element with known width and height, and then that width and height |
| Engine.Player.GetDuration | app/src/core/player.ts:207-211 | present exactly for a registered element, and then its duration |
| Engine.Player.GetTargetResolution | app/src/core/player.ts:216-229 | the default when no element knows its resolution, else the componentwise maximum over the registered elements |
| Engine.Player.PlayingHandler | app/src/core/player.ts:25-40 | records the flag; when off, pauses every element and changes nothing else; when on, an out-of-range selection fails and changes nothing else, otherwise the effect is that of `play` from the selection start or the current time |
| Engine.Player.RenderItemsHandler | app/src/core/player.ts:41-53 | pauses, replaces the timeline by the selection's items when something is selected and by the document's otherwise, and when playing has the effect of `play` on the new timeline with paused elements |
| Engine.Player.UserSetTimeHandler | app/src/core/player.ts:54-87 | ignores moves not made by the user; otherwise pauses; fails without a seek target, changing nothing else; else moves to it without publishing it and moves the element of the segment there, then when playing has the effect of `play` from the target |
| MenuTree.SingleIsOneElementList | app/src/components/MenuBar.tsx:14-16 | a single child is translated as the one-element list holding it |
| MenuTree.Transform | app/src/components/MenuBar.tsx:11-42 | a successful translation has one option for a single child and one per child for a list; a failure carries the source's message; `TransformFailsOnUnknown` says when it fails, and `TransformIsExact` that its output is the only option list standing for the tree |
| MenuTree.TransformList | app/src/components/MenuBar.tsx:17-41 | the `map`: one option per child when it succeeds, the source's message when it fails |
| MenuTree.TransformChild | app/src/components/MenuBar.tsx:18-40 | an unknown component fails with the source's message; a translated option has a click exactly for an item or a checkbox and a submenu exactly for a group; `ChildRecovers` pins the rest of its shape |
| MenuTree.TransformListPointwise | app/src/components/MenuBar.tsx:17-41 | a successful translation has one option per child, in order, each the child's translation; it fails exactly when some child fails |
| MenuTree.TransformFailsOnUnknown | app/src/components/MenuBar.tsx:11-42 | the translation fails exactly when an unknown component occurs at any depth, and then with the source's message |
| MenuTree.ListFailsOnUnknown | app/src/components/MenuBar.tsx:17-41 | the same for a list of children |
| MenuTree.ChildFailsOnUnknown | app/src/components/MenuBar.tsx:18-39 | the same for one child, a group failing through its children |
| MenuTree.TransformRecovers | app/src/components/MenuBar.tsx:11-42 | the option list determines the children: labels, accelerators, checked states, callbacks and nesting are all kept |
| MenuTree.ListRecovers | app/src/components/MenuBar.tsx:17-41 | the same for a list of children |
| MenuTree.ChildRecovers | app/src/components/MenuBar.tsx:18-37 | the same for one child: each of item, checkbox, separator and group is translated into exactly the shape that stands for it (an item or a group with no type, a separator with its type only) |
| MenuTree.RecoveredTransforms | app/src/components/MenuBar.tsx:17-41 | conversely, an option list whose every option has the shape of a menu component is the translation of the tree it stands for |
| MenuTree.OptionRecoveredTransforms | app/src/components/MenuBar.tsx:18-37 | the same for one option |
| MenuTree.TransformIsExact | app/src/components/MenuBar.tsx:11-42 | the translation is fixed field by field: any option list that stands for the same tree is the translation itself, so no type, checked state, label or accelerator is added or dropped |
| MenuTemplate.RewrittenGrows | app/src/components/MenuBar.tsx:97-113 | a rewritten template stays valid while later clicks add listeners to the table |
| MenuTemplate.OptionRewrittenGrows | app/src/components/MenuBar.tsx:105-112 | the same for one option |
| MenuTemplate.ResolveRewritten | app/src/components/MenuBar.tsx:95-119 | looking up every id of a rewritten template in the table gives the original template back, callbacks included |
| MenuTemplate.ResolveOptionRewritten | app/src/components/MenuBar.tsx:105-112 | the same for one option |
| MenuTemplate.MenuListeners.constructor | app/src/components/MenuBar.tsx:96 | a new listener table is empty |
| MenuTemplate.MenuListeners.TransformClick | app/src/components/MenuBar.tsx:100-104 | registers the callback under an id never used before and returns that id |
| MenuTemplate.MenuListeners.TransformTemplate | app/src/components/MenuBar.tsx:97-113 | rewrites every option, keeping all other fields and the nesting; the clicks, in pre-order, get consecutive ids from the first unused one, so each click has its own id and none reuses an earlier one; earlier listeners are kept |
| MenuTemplate.MenuListeners.TransformOption | app/src/components/MenuBar.tsx:105-112 | rewrites one option: its click, if any, is registered first, under the first fresh id; its submenu is rewritten against the same table, its clicks taking the following ids; the other fields are kept |
| MenuTemplate.MenuListeners.SetMenu | app/src/components/MenuBar.tsx:95-121 | the clicks of the rewritten template get consecutive, hence distinct, ids; the new table holds exactly those ids, and resolving them gives the original menu back |
| MenuTemplate.MenuListeners.ClickTarget | app/src/components/MenuBar.tsx:117-119 | a click id reaches the callback registered under it; an unknown id has none |

## Left out

- Redux itself is not modelled: `createSelector`'s memoisation, `store.subscribe` and the order in which `setStore` calls the three handlers. Each handler is a method to call when its inputs change. The selectors `timedDocumentItems`, `renderItems`, `selectedItems` and `documentRenderItems` are not part of this model; their results are parameters. `isParagraphItem` is not part of this model either; its answer is the field `TimedItem.isParagraph`.
- `setTimeout` and `requestAnimationFrame` are not modelled as timers: deferred dispatches go to the `dispatched` log and waiting callbacks to `armed`.
- `Date.now()` and the element's clock are parameters, and `Date.now()` is taken as constant within one synchronous run.
- JavaScript numbers are modelled as exact reals: no rounding, no NaN, no infinities. A `NaN` duration is not modelled.
- `HTMLVideoElement` is reduced to the fields the player reads and writes. `play()` sets `paused` to false, and a seek sets `currentTime` exactly. Media loading and playback timing are not modelled. Two ids that share one element (aliasing) are not modelled; each id has its own device value.
- `console.log` in the clamp and the global `window.player` are left out.
- Fields that start undefined in the source (`renderItems`, `currentTime`, `playing`) start as the empty timeline, 0 and false.
- A render item's source is `Option<string>`, and an empty string counts as no source, as the source's falsy test does.
- uuids are replaced by a counter that never repeats an id.
- MenuTemplate.MenuListeners.ClickTarget: for an id that is not in the table, such as a click on the previous menu arriving after `setMenu` replaced the table, the source's handler calls `undefined` and throws a `TypeError`. The model returns `None` for it and does not model the exception.
- Engine.AfterItemDone: a media chain names its element by source id, and the element is looked up in the registry when the segment is done. The source's chain holds the element object it started. The two differ when the id is removed from the registry or bound to another element between `play` and the callback: the source then pauses the element it started, and the model pauses nothing or the new element.
- Registering elements is not an operation of this model. The registry is the public `sources` field, which other code assigns; the model's methods only read and update the elements already in it.
- The IPC calls `unsubscribeAllMenuClick`, `subscribeMenuClick` and `setMenuIpc` are not part of this model. `SetMenu` returns the rewritten template, and `ClickTarget` is the lookup the subscribed handler performs.
- The `MenuBar` component's React effects (deferring `setMenu` to an animation frame, `setMenu([])` on unmount, the `JSON.stringify` dependency) and the component functions that render nothing are left out.
- React children are modelled as one element or a list of elements. `null` or nested arrays are not modelled.
