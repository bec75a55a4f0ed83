# Render-update engine of the CrysMonitor resource monitor

`MonitorUI` (web/monitorUI.ts) turns a stream of stats snapshots (CPU, RAM, disk and
per-GPU usage, VRAM and temperature) into writes on a row of bar widgets. This project
models it in Dafny and proves what it promises:

- **Frame coalescing.** `updateDisplay` keeps only the newest snapshot in a one-slot
  buffer and asks for an animation frame only when none is pending.
- **Flushing.** The frame callback `_flushDisplay` renders the buffer. A hidden page
  keeps the snapshot and requests no new frame.
- **Render cache.** `updateMonitor` skips every write when the floored percent, the
  used bytes and the total bytes equal the cached ones. Otherwise it writes:
  - the cache;
  - the label;
  - the tooltip, with a peak for byte-reporting widgets;
  - the fill, unless numbers-only mode is on.
- **Peak map.** `maxVRAMUsed` keeps a running maximum per key. A slot that is unset,
  0 or above the reported total starts again from 0.
- **Temperature gradient.** The temperature widgets' gradient is rewritten once per
  floored temperature.
- **Display modes.** Leaving numbers-only mode clears every render cache. Changing
  the smoothing flag re-applies every slider transition with the stored rate.
- **Numbering.** `orderMonitors` numbers the widgets in order until the first missing
  one throws.

Files:

- `opt.dfy`: `Option`.
- `js_text.dfy`: the JavaScript text operations the engine relies on:
  - `parseInt`;
  - integer-to-decimal text;
  - `toFixed(1)`;
  - `split(':')[0]`.
- `widgets.dfy`: one widget (the settings record and its elements, as a value) and
  one snapshot.
- `engine.dfy`: the whole object state as a value `State`, with one function per
  operation.
- `monitor_ui.dfy`: class `MonitorUI`. Its fields are the object's. Its methods update
  them step by step, with loops over the widget arrays. The method for each operation
  of the class, and for each statement group those operations are built from, ensures
  `Model() == Engine.<operation>(old(Model()), ...)`. This covers `UpdateDisplay`,
  `FlushDisplay`, `DoUpdateDisplay`, `UpdateRowMonitors`, `UpdateRowEntry`,
  `UpdateMonitor`, `WriteMonitor`, `RecolourTemperature`, `UpdateAllAnimationDuration`,
  `SetDisableSmooth`, `SetNumbersOnly`, `InvalidateMonitorCaches`, `CreateMonitor`,
  `CreateDOMGPUMonitor`, `StoreSettings`, `ShowMonitor`, `OrderMonitors` and the
  constructor. The smaller helpers state their own results:
  - `RenderRecord` returns `Engine.Render` of the record;
  - `TrackPeak` updates the peak map to `Engine.ObservePeak` and returns the new slot value;
  - `Put` stores one record in a slot, as `Engine.Set`;
  - `UpdatedAnimationDuration` stores `Engine.Animate` of the record in its slot;
  - `AnimateRowWidgets` turns a row into `Engine.AnimateRow` of it;
  - `ClearRowCaches` turns a row into `Engine.ClearRow` of it;
  - `ClearFixedCaches` clears the CPU, RAM and HDD caches and nothing else;
  - `OrderOne` and `OrderGpuIndex` end in the `Engine.AssignOrders` outcome of the slots numbered so far, or, after a throw, in its final state.
- `engine_facts.dfy`: proof steps that the class methods use.
- `update_facts.dfy`: properties of `updateMonitor`, the peak map and the temperature check.
- `frame_facts.dfy`: properties of coalescing and flushing.
- `render_facts.dfy`: what a row's `forEach` leaves at each index, and why rendering
  the same snapshot twice changes nothing the second time.
- `mode_facts.dfy`: properties of the display modes, animation, visibility and mounting.
- `order_facts.dfy`: properties of `orderMonitors`.

Representation choices:

- **Widget arrays.** The three GPU arrays are JavaScript arrays that the settings
  module writes by index, so they can have holes. They are `seq<Option<Widget>>`,
  and `forEach` skips the holes.
- **The peak key.** The map key is `Option<int>`, where `None` is the key `NaN` that
  `parseInt` gives for a title without a leading number.
- **Frames.** `requestAnimationFrame` returns handles 1, 2, … from a counter
  (`frameRequests`), and `_rafId` holds the last one, or 0.
- **Visibility.** `document.hidden` is the parameter `hidden` of `FlushDisplay`.

Five behaviours of the code are easy to miss; the model follows the code in each:

- **Mounting keeps the cache.** `createMonitor` replaces a record's elements but does
  not clear its render cache (web/monitorUI.ts:311-353). A remounted widget whose next
  reading equals the cached one keeps its fresh "0%" label
  (`ModeFacts.RemountKeepsStaleCache`).
- **A hidden frame requests no frame.** `_flushDisplay` clears `_rafId` and returns on
  a hidden page without a new `requestAnimationFrame` (web/monitorUI.ts:93,99). The kept
  snapshot is rendered only after the next `updateDisplay`, whichever snapshot that
  brings (`FrameFacts.HiddenThenVisible`).
- **Peaks for every byte reading.** Peak tracking runs for any widget given both used
  and total bytes (web/monitorUI.ts:192), so RAM and HDD widgets are tracked as well as
  VRAM ones (`UpdateFacts.UpdateMonitorPeak`).
- **Peak reset.** The peak slot is reset to 0 and then raised to `used`, rather than
  set to `used` directly. It is also reset when it holds 0. The two readings agree
  whenever `used` is not negative.
- **One shared peak slot.** The key is parsed from the title. RAM and HDD records
  have no title, and every GPU record is titled `"0: {name}"` whatever its index
  (web/monitor.ts:308,340,372). So every byte-reporting widget shares slot 0, and one
  widget's reading can reset another's peak (`UpdateFacts.SharedPeakSlot`,
  `UpdateFacts.RamPeakLostToVram`).

## Model

| member | source | states |
|---|---|---|
| MonitorUI.MonitorUI.constructor | web/monitorUI.ts:15-51 | the object starts in `Engine.Init`: flags from the arguments, empty peak map, no pending snapshot, no frame, numbering from 1, CPU/RAM/HDD mounted and given the initial transition |
| MonitorUI.MonitorUI.CreateMonitor | web/monitorUI.ts:311-353 | the record gets fresh elements: its title as tooltip, label "0%", no fill, no inline transition, a plain or 0% mixed slider colour; its cache is kept |
| MonitorUI.MonitorUI.StoreSettings | web/monitor.ts:321 | the settings module's store of a GPU record at an index of the array it shares with the object; writing past the end leaves holes |
| MonitorUI.MonitorUI.CreateDOMGPUMonitor | web/monitorUI.ts:53-60 | a stored record is mounted and every transition re-applied with the current rate; a missing record changes nothing |
| MonitorUI.MonitorUI.UpdateDisplay | web/monitorUI.ts:84-90 | the snapshot replaces the pending one; a frame is requested (with the next handle) only when none is pending |
| MonitorUI.MonitorUI.FlushDisplay | web/monitorUI.ts:92-103 | the frame slot is cleared; nothing else happens with no pending snapshot or a hidden page; otherwise the pending slot is cleared and the snapshot rendered |
| MonitorUI.MonitorUI.DoUpdateDisplay | web/monitorUI.ts:105-164 | CPU, RAM and HDD are updated, then, when the snapshot has GPU entries, the three GPU rows in turn |
| MonitorUI.MonitorUI.UpdateRowMonitors | web/monitorUI.ts:115-163 | one row's `forEach`: each present widget whose index has a GPU entry is updated (temperature widgets also get the colour check), as `Engine.UpdateRow` over the whole row |
| MonitorUI.MonitorUI.RecolourTemperature | web/monitorUI.ts:152-158 | the gradient check and write after a temperature widget's update |
| MonitorUI.MonitorUI.UpdateMonitor | web/monitorUI.ts:167-182 | the three early returns (not mounted, negative percent, cache hit) change nothing; otherwise the write below |
| MonitorUI.MonitorUI.WriteMonitor | web/monitorUI.ts:183-221 | cache, peak (when used and total are both given, before the tooltip) and element writes, as `Engine.WriteMonitor` |
| MonitorUI.MonitorUI.RenderRecord | web/monitorUI.ts:183-221 | the record after the writes: the cache triple, tooltip prefix + label + optional byte reading, label = floored percent and symbol, fill written only outside numbers-only mode |
| MonitorUI.MonitorUI.TrackPeak | web/monitorUI.ts:194-204 | reset to 0 when unset, 0 or above total, then raise to used; the result is the slot's new value |
| MonitorUI.MonitorUI.UpdateAllAnimationDuration | web/monitorUI.ts:224-238 | the rate is stored and every present record's transition recomputed |
| MonitorUI.MonitorUI.UpdatedAnimationDuration | web/monitorUI.ts:240-253 | a mounted record gets `transform {rate to one decimal}s linear`, or no inline transition when smoothing is disabled; an unmounted one is untouched |
| MonitorUI.MonitorUI.AnimateRowWidgets | web/monitorUI.ts:229-237 | one row's `forEach` of `updateAllAnimationDuration`: every present entry animated, holes kept |
| MonitorUI.MonitorUI.SetDisableSmooth | web/monitorUI.ts:255-259 | the flag is stored, then every transition re-applied with the stored rate |
| MonitorUI.MonitorUI.SetNumbersOnly | web/monitorUI.ts:270-280 | the flag is stored; the caches are cleared when it goes from on to off |
| MonitorUI.MonitorUI.InvalidateMonitorCaches | web/monitorUI.ts:282-299 | all four cache fields of every present record are cleared |
| MonitorUI.MonitorUI.ClearFixedCaches | web/monitorUI.ts:284-296 | the CPU, RAM and HDD records' caches are cleared and nothing else changes |
| MonitorUI.MonitorUI.ClearRowCaches | web/monitorUI.ts:287-298 | the loop's walk over one row: every present entry cleared, holes kept |
| MonitorUI.MonitorUI.ShowMonitor | web/monitorUI.ts:360-364 | a mounted widget's display becomes flex or none |
| MonitorUI.MonitorUI.OrderOne | web/monitorUI.ts:65-78 | one `style.order = lastMonitor++` statement: numbers the slot, or throws when it is a hole or unmounted, ending the run as `AssignOrders` does |
| MonitorUI.MonitorUI.OrderGpuIndex | web/monitorUI.ts:69-76 | the `forEach` callback: usage, VRAM and temperature widgets of one GPU index numbered in turn |
| MonitorUI.MonitorUI.OrderMonitors | web/monitorUI.ts:62-82 | the object ends in `Engine.OrderMonitors`: CPU, RAM, the GPU triples, HDD numbered until the first throw |
| Engine.Set | web/monitorUI.ts:183-185 | an in-place write on one record: that slot holds the new record, every other slot and field is kept, and writing the same record changes nothing |
| Engine.ObservePeak | web/monitorUI.ts:196-204 | keys gain only the widget's key; the slot ends at least at `used`; it never falls unless it was reset; it ends at `used` or at its (reset) base |
| Engine.AssignOrders | web/monitorUI.ts:62-82 | numbering keeps the row layout |
| Engine.PlaceAt | web/monitor.ts:321 | an index store: length grows to the index + 1 when past the end, with holes between; other entries kept |
| Engine.UpdateRow | web/monitorUI.ts:115-163 | a row's `forEach` keeps the row layout; what it does at each index is `RenderFacts.UpdateRowEffect` |
| Widgets.Mount | web/monitorUI.ts:311-353 | fresh elements: mounted, the settings title as tooltip, label "0%", no fill, no transition, display and order unset, 0% colour mix only with a final colour; symbol, titles, final-colour flag and caches unchanged |
| Engine.Render | web/monitorUI.ts:183-221 | the record after a write (cache triple, label, tooltip, fill); its properties are `UpdateFacts.UpdateMonitorWrites` and `UpdateFacts.LabelNotClamped` |
| Engine.WriteMonitor | web/monitorUI.ts:183-221 | the write keeps the row layout and the slot present; its effect is `UpdateFacts.WriteMonitorEffect` |
| Engine.UpdateMonitor | web/monitorUI.ts:167-222 | `updateMonitor` keeps the row layout and the slot present; it is a no-op exactly on an early return (`UpdateFacts.UpdateMonitorNoOpIffSkips`) |
| Engine.RecolourTemperature | web/monitorUI.ts:152-158 | the gradient step keeps the row layout; its effect is `UpdateFacts.RecolourTemperatureEffect` |
| Engine.UpdateRowAt | web/monitorUI.ts:115-127 | one `forEach` callback keeps the row layout; its effect is `RenderFacts.StepEffect` |
| Engine.DoUpdateDisplay | web/monitorUI.ts:105-164 | rendering keeps the row layout; it is idempotent (`RenderFacts.DoUpdateDisplayIdempotent`) |
| Engine.UpdateDisplay | web/monitorUI.ts:84-90 | `updateDisplay` as a state function; its properties are `FrameFacts.CoalesceBurst` |
| Engine.FlushDisplay | web/monitorUI.ts:92-103 | `_flushDisplay` as a state function; its branches are `FrameFacts.FlushBranches` |
| Engine.Animate | web/monitorUI.ts:240-253 | one record's transition; its properties are `ModeFacts.SetDisableSmoothTransitions` |
| Engine.AnimateRow | web/monitorUI.ts:229-237 | animating a row keeps its layout |
| Engine.UpdateAllAnimationDuration | web/monitorUI.ts:224-238 | keeps the row layout; its effect is `ModeFacts.UpdateAllAnimationEffect` |
| Engine.SetDisableSmooth | web/monitorUI.ts:255-259 | `setDisableSmooth` as a state function; its properties are `ModeFacts.SetDisableSmoothTransitions` and `ModeFacts.SetDisableSmoothIdempotent` |
| Engine.ClearRow | web/monitorUI.ts:287-298 | clearing a row's caches keeps its layout |
| Engine.InvalidateMonitorCaches | web/monitorUI.ts:282-299 | keeps the row layout; its effect is `ModeFacts.InvalidateClearsEveryCache` |
| Engine.SetNumbersOnly | web/monitorUI.ts:270-280 | `setNumbersOnly` as a state function; its effect is `ModeFacts.SetNumbersOnlyEffect` |
| Engine.CreateMonitor | web/monitorUI.ts:311-353 | mounting keeps the row layout; the record becomes `Widgets.Mount` of it |
| Engine.StoreSettings | web/monitor.ts:321 | the index store into one GPU array; its effect is `ModeFacts.StoreSettingsThenPresent` |
| Engine.CreateDOMGPUMonitor | web/monitorUI.ts:53-60 | `createDOMGPUMonitor` as a state function; its effect is `ModeFacts.CreateDOMGPUMonitorEffect` |
| Engine.ShowMonitor | web/monitorUI.ts:360-364 | `showMonitor` as a state function; its effect is `ModeFacts.ShowMonitorEffect` |
| Engine.NumberOne | web/monitorUI.ts:65 | one `style.order = '' + this.lastMonitor++`; its effect is `OrderFacts.NumberOneEffect` |
| Engine.OrderMonitors | web/monitorUI.ts:62-82 | `orderMonitors` as a state function; its effect is `OrderFacts.OrderMonitorsEffect` |
| Engine.Init | web/monitorUI.ts:15-51 | the constructed state; its properties are `ModeFacts.InitEffect` |
| Widgets.TitlePrefix | web/monitorUI.ts:187 | the tooltip prefix, title and " - " or nothing; used by `UpdateFacts.UpdateMonitorWrites` |
| Widgets.PeakKey | web/monitorUI.ts:194 | the peak key parsed from the title before its first colon, or from "0" when that part is empty; its values are `UpdateFacts.PeakKeyOfIndexedTitle` |
| JsText.ParseInt | web/monitorUI.ts:194 | `parseInt`: leading white space and one sign skipped, a `0x` prefix read in base 16; its round trip is `JsText.ParseIntOfNatToString` |
| JsText.ParseMagnitude | web/monitorUI.ts:194 | the unsigned part of `parseInt`; on digits it reads their value (`JsText.MagnitudeOfDigits`) |
| JsText.MagnitudeOfDigits | web/monitorUI.ts:194 | a run of decimal digits without a leading zero, followed by nothing or by a character that is neither a digit nor an x, parses to the digits' value |
| MonitorUI.MonitorUI.UpdateRowEntry | web/monitorUI.ts:115-127 | one `forEach` callback: skipped for a hole or a missing GPU entry, otherwise the widget's update (and the colour check for temperatures), as `Engine.UpdateRowAt` |
| RenderFacts.StepEffect | web/monitorUI.ts:115-163 | one callback: the widget at the index takes its GPU's reading, nothing else changes, and a settled widget makes it a no-op |
| RenderFacts.UpdateRowEffect | web/monitorUI.ts:115-163 | after a row's `forEach`, each present widget with a GPU entry took its reading and is settled (an already settled one unchanged); holes, indices without entries, later indices, other rows, fixed widgets and control fields are kept |
| RenderFacts.UpdateRowTakesReading | web/monitorUI.ts:123-158 | a mounted widget's cache holds its GPU's floored reading (percent not negative), and a temperature widget with a final colour shows the floored temperature outside numbers-only mode |
| RenderFacts.SettledRowNoOp | web/monitorUI.ts:115-163 | a row whose widgets are all settled is left unchanged |
| RenderFacts.UpdateRowIdempotent | web/monitorUI.ts:115-163 | a row's `forEach` run twice with the same GPU list is run once |
| RenderFacts.DoUpdateDisplaySettles | web/monitorUI.ts:105-164 | after rendering a snapshot, CPU, RAM, HDD and every GPU row have nothing left to do for it |
| RenderFacts.SettledDisplayNoOp | web/monitorUI.ts:105-164 | rendering a snapshot that is already settled changes nothing |
| RenderFacts.DoUpdateDisplayIdempotent | web/monitorUI.ts:105-164 | rendering the same snapshot twice is rendering it once |
| RenderFacts.SameStatsTwoFrames | web/monitorUI.ts:84-103 | two visible frames after `updateDisplay` of the same snapshot: the second renders nothing and only counts its frame request |
| Widgets.ClearCaches | web/monitorUI.ts:293-296 | the four cache fields are cleared and nothing else changes |
| Widgets.FillFraction | web/monitorUI.ts:220 | the fill is between 0 and 1, equals percent/100 up to 100 and 1 from 100 on |
| JsText.NatToString | web/monitorUI.ts:216 | decimal text of the floored percent: digits only, no leading zero |
| JsText.BeforeColon | web/monitorUI.ts:194 | `split(':')[0]`: the prefix of the title up to its first colon |
| JsText.ToFixed1 | web/monitorUI.ts:249 | `toFixed(1)` in tenths: within half a tenth of the value, ties away from zero |
| JsText.ParseIntOfNatToString | web/monitorUI.ts:194 | `parseInt` reads back the decimal text of a number followed by a non-digit |
| JsText.ToFixed1OfTenths | web/monitorUI.ts:249 | a rate that is a whole number of tenths is printed exactly |
| EngineFacts.ResetThenRaise | web/monitorUI.ts:197-204 | the source's two statements (reset to 0, then raise) compute `ObservePeak` |
| EngineFacts.AssignOrdersAppend | web/monitorUI.ts:62-82 | numbering a concatenation numbers the first part, then, if it completed, the second |
| EngineFacts.OrderSlotsStep | web/monitorUI.ts:69-76 | a GPU index's three widgets come right after those of the earlier indices |
| EngineFacts.SetInRow | web/monitorUI.ts:229-237 | a write on one present entry of a row replaces that entry of the row and nothing else |
| UpdateFacts.WriteMonitorEffect | web/monitorUI.ts:183-221 | a write renders the slot from its old record with the updated peak; the peak map changes only with both byte counts; other slots and control fields are kept |
| UpdateFacts.UpdateMonitorNoOpIffSkips | web/monitorUI.ts:167-185 | `updateMonitor` leaves the state unchanged if and only if an early return is taken |
| UpdateFacts.UpdateMonitorIdempotent | web/monitorUI.ts:176-185 | a repeated identical call writes nothing |
| UpdateFacts.UpdateMonitorWrites | web/monitorUI.ts:183-221 | after a write: cache = (floor, used, total); label = floor + symbol; tooltip = prefix + label; fill = clamped fraction unless numbers-only, else unchanged; byte reading present exactly with both counts |
| UpdateFacts.LabelNotClamped | web/monitorUI.ts:216-220 | at 100% and above the label parses back to the floored percent while the fill is 1 |
| UpdateFacts.UpdateMonitorPeak | web/monitorUI.ts:192-209 | with both counts the slot is at least `used`, does not fall without a reset, is the tooltip's max, and other slots are kept; without them the map is unchanged |
| UpdateFacts.PeakIsRunningMax | web/monitorUI.ts:197-204 | within one total, readings between 0 and it leave the slot at their maximum (or the earlier peak) |
| UpdateFacts.PeakResetsOnSmallerTotal | web/monitorUI.ts:197-204 | 4 GiB of 8, then 1 GiB of 2 gives a peak of 1 GiB; 1 GiB of 8 keeps 4 GiB |
| UpdateFacts.PeakKeyOfIndexedTitle | web/monitorUI.ts:194 | a title "n: name" gives key n; no title gives key 0 |
| UpdateFacts.SharedPeakSlot | web/monitor.ts:308 | untitled records and GPU records titled "0: name" share key 0 |
| UpdateFacts.RamPeakLostToVram | web/monitorUI.ts:197-204 | on the shared slot a RAM peak of 16 GiB is lost after a VRAM reading against a total of 8 GiB |
| UpdateFacts.RecolourTemperatureEffect | web/monitorUI.ts:152-158 | the gradient changes if and only if the check passes, and then cache and mix take the floored temperature |
| UpdateFacts.RecolourOncePerFloor | web/monitorUI.ts:153-158 | two temperatures with the same floor recolour at most once |
| UpdateFacts.RecolourSequence | web/monitorUI.ts:152-158 | 55.2, 55.8, 56.1 recolour twice, ending at 56 |
| UpdateFacts.NegativeTemperatureStillRecolours | web/monitorUI.ts:151-158 | a negative temperature skips `updateMonitor` yet still sets the colour mix |
| FrameFacts.DoUpdateDisplayControl | web/monitorUI.ts:105-164 | rendering touches neither the frame slot, the pending snapshot, the flags, the rate nor the counter |
| FrameFacts.NoGpuDataKeepsRows | web/monitorUI.ts:106-113 | without GPU entries the three GPU rows are unchanged |
| FrameFacts.CoalesceBurst | web/monitorUI.ts:84-90 | after a burst of snapshots only the newest is pending, at most one frame was requested, and nothing was rendered |
| FrameFacts.BurstRendersNewestOnce | web/monitorUI.ts:84-103 | the next visible frame renders the newest snapshot once; a further frame renders nothing |
| FrameFacts.FlushBranches | web/monitorUI.ts:92-103 | the frame slot is always cleared; no pending data or a hidden page renders nothing and keeps the buffer; otherwise the buffer is cleared and rendered |
| FrameFacts.HiddenThenVisible | web/monitorUI.ts:97-101 | a hidden frame requests no new frame; the next snapshot requests one and only it is rendered |
| ModeFacts.InvalidateClearsEveryCache | web/monitorUI.ts:282-299 | every present record's cache is cleared and nothing else changes |
| ModeFacts.SetNumbersOnlyEffect | web/monitorUI.ts:270-280 | the flag is stored; caches are cleared on the way from on to off, and every other transition leaves the records alone |
| ModeFacts.BarsRepaintAfterNumbersOnly | web/monitorUI.ts:275-278 | after leaving numbers-only mode the next reading, even an unchanged one, writes the fill |
| ModeFacts.NumbersOnlyKeepsFill | web/monitorUI.ts:218-221 | in numbers-only mode the fill is never written |
| ModeFacts.UpdateAllAnimationEffect | web/monitorUI.ts:224-238 | the rate is stored, every present record animated, nothing else changed |
| ModeFacts.SetDisableSmoothTransitions | web/monitorUI.ts:255-259 | every mounted widget gets no transition or the stored rate's transition; unmounted ones are untouched |
| ModeFacts.SetDisableSmoothIdempotent | web/monitorUI.ts:255-259 | setting the same flag twice is setting it once |
| ModeFacts.AnimationKeepsCacheHits | web/monitorUI.ts:240-253 | animation writes only transitions, so a cached reading still skips |
| ModeFacts.ShowMonitorEffect | web/monitorUI.ts:360-364 | a mounted widget's display is set and nothing else; an unmounted one is left alone; the last call wins |
| ModeFacts.RemountKeepsStaleCache | web/monitorUI.ts:311-353 | after mounting, a reading equal to the cache is skipped and the label stays "0%" |
| ModeFacts.CreateDOMGPUMonitorEffect | web/monitorUI.ts:53-60 | a stored record is mounted with label "0%" and the current transition; a missing one changes nothing |
| ModeFacts.StoreSettingsThenPresent | web/monitor.ts:321 | a stored record is found at its index, other entries kept |
| ModeFacts.InitEffect | web/monitorUI.ts:15-51 | after construction CPU/RAM/HDD are mounted with label "0%" and the initial transition; no snapshot, no frame, numbering from 1 |
| OrderFacts.AssignOrdersKeepsNumberable | web/monitorUI.ts:62-82 | numbering mounts or unmounts nothing: the same slots can be numbered before and after |
| OrderFacts.AssignOrdersCount | web/monitorUI.ts:62-82 | the counter advances by between 0 and the number of slots, by all of them exactly when the run completes |
| OrderFacts.AssignOrdersPrefix | web/monitorUI.ts:62-82 | numbering covers a prefix of numberable slots, all of them exactly when it completes, the next one being the one that threw |
| OrderFacts.AssignOrdersCompletes | web/monitorUI.ts:62-82 | numbering completes if and only if every slot is present and mounted, and then advances the counter by the number of slots |
| OrderFacts.AssignOrdersUntouched | web/monitorUI.ts:62-82 | a widget outside the numbered prefix is unchanged |
| OrderFacts.AssignOrdersNumbers | web/monitorUI.ts:62-82 | with distinct slots the j-th numbered widget gets order lastMonitor + j |
| OrderFacts.OrderMonitorsEffect | web/monitorUI.ts:62-82 | `orderMonitors` gives CPU, RAM, GPU triples and HDD consecutive orders when all are mounted; after a throw the HDD widget keeps its order |
| OrderFacts.MissingVramStopsNumbering | web/monitorUI.ts:69-76 | a GPU index with a usage widget but no VRAM widget makes the numbering throw |

## Left out

- Style sheets are not modelled: `_applyNumbersOnlyCSS`, `_applyDisableSmoothCSS`, `updateMonitorSize` and the `styleSheet` members. They only write CSS text. The numbers-only and smoothing flags are kept.
- Class names, element ids, the `innerHTML` label caption of `createMonitor` and the appending of elements to the root element are not modelled.
- The root-element check and the exception in `createDOM` are not modelled. The model assumes a root element.
- `formatBytes` is not modelled because it is floating point. The tooltip keeps the byte reading (used, total, peak) as numbers, not as the text built from them.
- `Math.min(...).toFixed(4)`: the fill is the exact fraction. The four-decimal rounding of the `scaleX` text is not modelled.
- The `color-mix(...)` text and the static slider colours are not modelled. The mix is kept as its percentage, or as none for a plain colour.
- `percent` and temperatures are exact reals, so NaN, infinities and float rounding are not modelled. Byte counts are exact integers, so `parseInt` precision above 2^53 and the exponent form of numbers from 1e21 on are not modelled.
- Object identity is not modelled. The settings records are shared with the settings module (web/monitor.ts), but here they are values held by the object. The module's only write that matters here, storing a record at an index of a GPU array, is `StoreSettings`.
- `requestAnimationFrame` and `document.hidden` are not modelled as browser APIs. The first is a handle counter; the second is the `hidden` argument of `FlushDisplay`. `console.warn` and `console.error` are dropped.
- web/monitor.ts is not part of this model beyond `StoreSettings` and the record titles it creates (the settings, the HTTP calls and the setup order).
