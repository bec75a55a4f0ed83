/**
 * The render-update engine of `MonitorUI` as a state machine over values: the whole
 * state of one `MonitorUI` object is a `State`, and every operation is a function
 * from the old state (and its arguments) to the new one. The class in monitor_ui.dfy
 * performs the same operations step by step and is proved to end in these states.
 */
module Engine {
  import opened Opt
  import opened JsText
  import opened Widgets

  /** The three per-GPU widget arrays. */
  datatype Row = GpuRow | VramRow | TempRow

  /** Where a widget sits: one of the three fixed widgets or an index of a GPU row. */
  datatype Slot = Cpu | Ram | Hdd | InRow(row: Row, index: nat)

  datatype State = State(
    cpu: Widget,
    ram: Widget,
    hdd: Widget,
    gpus: seq<Option<Widget>>,          // sparse arrays: None is a hole
    vrams: seq<Option<Widget>>,
    temps: seq<Option<Widget>>,
    maxVRAMUsed: map<Option<int>, int>, // key None is the key NaN
    disableSmooth: bool,
    numbersOnly: bool,
    pending: Option<Stats>,             // _pendingData
    rafId: nat,                         // 0: no frame requested
    frameRequests: nat,                 // animation frames requested so far (handles are 1, 2, ...)
    currentRate: real,
    lastMonitor: int)

  function RowOf(e: State, row: Row): seq<Option<Widget>>
  {
    match row
    case GpuRow => e.gpus
    case VramRow => e.vrams
    case TempRow => e.temps
  }

  function WithRow(e: State, row: Row, ws: seq<Option<Widget>>): (r: State)
    ensures RowOf(r, row) == ws
    ensures forall other :: other != row ==> RowOf(r, other) == RowOf(e, other)
    ensures r.(gpus := e.gpus, vrams := e.vrams, temps := e.temps) == e
  {
    match row
    case GpuRow => e.(gpus := ws)
    case VramRow => e.(vrams := ws)
    case TempRow => e.(temps := ws)
  }

  /** The slot holds a settings record (for a row: the index is no hole). */
  predicate Present(e: State, s: Slot)
  {
    match s
    case InRow(row, i) => i < |RowOf(e, row)| && RowOf(e, row)[i].Some?
    case _ => true
  }

  function Get(e: State, s: Slot): Widget
    requires Present(e, s)
  {
    match s
    case Cpu => e.cpu
    case Ram => e.ram
    case Hdd => e.hdd
    case InRow(row, i) => RowOf(e, row)[i].value
  }

  predicate SameLayout(a: seq<Option<Widget>>, b: seq<Option<Widget>>)
  {
    |a| == |b| && forall i :: 0 <= i < |a| ==> a[i].Some? == b[i].Some?
  }

  /** Same rows with the same holes: the same slots are present. */
  predicate SameShape(e: State, r: State)
  {
    SameLayout(e.gpus, r.gpus) && SameLayout(e.vrams, r.vrams) && SameLayout(e.temps, r.temps)
  }

  /** The record in slot `s` replaced by `w`; every other slot and every other field kept. */
  function Set(e: State, s: Slot, w: Widget): (r: State)
    requires Present(e, s)
    ensures SameShape(e, r) && Present(r, s) && Get(r, s) == w
    ensures w == Get(e, s) ==> r == e
    ensures forall t :: Present(e, t) && t != s ==> Present(r, t) && Get(r, t) == Get(e, t)
    ensures r.(cpu := e.cpu, ram := e.ram, hdd := e.hdd, gpus := e.gpus, vrams := e.vrams, temps := e.temps) == e
  {
    match s
    case Cpu => e.(cpu := w)
    case Ram => e.(ram := w)
    case Hdd => e.(hdd := w)
    case InRow(row, i) => WithRow(e, row, RowOf(e, row)[i := Some(w)])
  }

  // ---------------------------------------------------------------- updateMonitor

  /** The cached triple equals (floored percent, used, total): nothing to write. */
  predicate CacheHit(w: Widget, flooredPercent: int, used: Option<int>, total: Option<int>)
  {
    w.lastPercent == Some(flooredPercent) && w.lastUsed == used && w.lastTotal == total
  }

  /** The three early returns of `updateMonitor`. */
  predicate Skips(w: Widget, percent: real, used: Option<int>, total: Option<int>)
  {
    !w.mounted || percent < 0.0 || CacheHit(w, percent.Floor, used, total)
  }

  /**
   * The slot is reset when it is unset, 0 or above `total` (`!max || max > total`).
   */
  predicate PeakResets(peaks: map<Option<int>, int>, key: Option<int>, total: int)
  {
    key !in peaks || peaks[key] == 0 || peaks[key] > total
  }

  /**
   * Peak tracking: a slot that resets starts again from 0, and the slot is then
   * raised to `used` when `used` is larger.
   */
  function ObservePeak(peaks: map<Option<int>, int>, key: Option<int>, used: int, total: int): (r: map<Option<int>, int>)
    ensures r.Keys == peaks.Keys + {key}
    ensures forall k :: k in peaks && k != key ==> r[k] == peaks[k]
    ensures r[key] >= used
    ensures !PeakResets(peaks, key, total) ==> r[key] >= peaks[key]
    ensures r[key] == used || r[key] == (if PeakResets(peaks, key, total) then 0 else peaks[key])
  {
    var base := if PeakResets(peaks, key, total) then 0 else peaks[key];
    peaks[key := if used > base then used else base]
  }

  /** What a non-skipped `updateMonitor` writes to the record. */
  function Render(w: Widget, numbersOnly: bool, flooredPercent: nat, used: Option<int>, total: Option<int>,
                  bytes: Option<ByteReading>): Widget
  {
    var shown := NatToString(flooredPercent) + w.symbol;
    w.(lastPercent := Some(flooredPercent), lastUsed := used, lastTotal := total,
       tooltip := Reading(TitlePrefix(w.monitorTitle) + shown, bytes),
       labelText := shown,
       fillScale := if numbersOnly then w.fillScale else Some(FillFraction(flooredPercent)))
  }

  /**
   * What `updateMonitor` does once the dirty check has failed: with both byte counts
   * present the peak slot is updated first, then the record is rendered.
   */
  function WriteMonitor(e: State, s: Slot, flooredPercent: nat, used: Option<int>, total: Option<int>): (r: State)
    requires Present(e, s)
    ensures SameShape(e, r) && Present(r, s)
  {
    var w := Get(e, s);
    var key := PeakKey(w.monitorTitle);
    if used.Some? && total.Some? then
      var peaks := ObservePeak(e.maxVRAMUsed, key, used.value, total.value);
      var bytes := ByteReading(used.value, total.value, peaks[key]);
      var e1 := e.(maxVRAMUsed := peaks);
      Set(e1, s, Render(w, e.numbersOnly, flooredPercent, used, total, Some(bytes)))
    else
      Set(e, s, Render(w, e.numbersOnly, flooredPercent, used, total, None))
  }

  /** `updateMonitor(settings, percent, used, total)` on the record in slot `s`. */
  function UpdateMonitor(e: State, s: Slot, percent: real, used: Option<int>, total: Option<int>): (r: State)
    requires Present(e, s)
    ensures SameShape(e, r) && Present(r, s)
  {
    if Skips(Get(e, s), percent, used, total) then e
    else WriteMonitor(e, s, percent.Floor, used, total)
  }

  // ---------------------------------------------------------------- _doUpdateDisplay

  /** The gradient check after a temperature widget's `updateMonitor`. */
  predicate RecoloursTemperature(e: State, w: Widget, temperature: real)
  {
    !e.numbersOnly && w.hasFinalColor && w.mounted && w.lastTempColor != Some(temperature.Floor)
  }

  function RecolourTemperature(e: State, i: nat, temperature: real): (r: State)
    requires Present(e, InRow(TempRow, i))
    ensures SameShape(e, r)
  {
    var s := InRow(TempRow, i);
    var w := Get(e, s);
    if RecoloursTemperature(e, w, temperature) then
      Set(e, s, w.(lastTempColor := Some(temperature.Floor), bgMix := Some(temperature.Floor)))
    else e
  }

  /** The body of one row's `forEach` for index `i`. */
  function UpdateRowAt(e: State, row: Row, gs: seq<GpuStats>, i: nat): (r: State)
    requires i < |RowOf(e, row)|
    ensures SameShape(e, r)
  {
    if i >= |gs| || RowOf(e, row)[i].None? then e
    else
      var g := gs[i];
      var s := InRow(row, i);
      match row
      case GpuRow => UpdateMonitor(e, s, g.gpuUtilization, None, None)
      case VramRow => UpdateMonitor(e, s, g.vramUsedPercent, g.vramUsed, g.vramTotal)
      case TempRow => RecolourTemperature(UpdateMonitor(e, s, g.gpuTemperature, None, None), i, g.gpuTemperature)
  }

  /** The first `n` iterations of one row's `forEach`. */
  function UpdateRow(e: State, row: Row, gs: seq<GpuStats>, n: nat): (r: State)
    requires n <= |RowOf(e, row)|
    ensures SameShape(e, r)
    decreases n
  {
    if n == 0 then e
    else
      var prev := UpdateRow(e, row, gs, n - 1);
      UpdateRowAt(prev, row, gs, n - 1)
  }

  /** `_doUpdateDisplay(data)`. */
  function DoUpdateDisplay(e: State, data: Stats): (r: State)
    ensures SameShape(e, r)
  {
    var e1 := UpdateMonitor(e, Cpu, data.cpuUtilization, None, None);
    var e2 := UpdateMonitor(e1, Ram, data.ramUsedPercent, data.ramUsed, data.ramTotal);
    var e3 := UpdateMonitor(e2, Hdd, data.hddUsedPercent, data.hddUsed, data.hddTotal);
    if data.gpus.None? || |data.gpus.value| == 0 then e3
    else
      var gs := data.gpus.value;
      var e4 := UpdateRow(e3, GpuRow, gs, |e3.gpus|);
      var e5 := UpdateRow(e4, VramRow, gs, |e4.vrams|);
      UpdateRow(e5, TempRow, gs, |e5.temps|)
  }

  // ---------------------------------------------------------------- frame coalescing

  /** `updateDisplay(data)`: the slot takes `data`; a frame is requested unless one is. */
  function UpdateDisplay(e: State, data: Stats): State
  {
    if e.rafId == 0 then
      e.(pending := Some(data), rafId := e.frameRequests + 1, frameRequests := e.frameRequests + 1)
    else
      e.(pending := Some(data))
  }

  /** `_flushDisplay`, the frame callback; `hidden` is `document.hidden`. */
  function FlushDisplay(e: State, hidden: bool): State
  {
    var e1 := e.(rafId := 0);
    match e.pending
    case None => e1
    case Some(data) => if hidden then e1 else DoUpdateDisplay(e1.(pending := None), data)
  }

  // ---------------------------------------------------------------- animation

  /** `updatedAnimationDuration(settings, value)` on one record. */
  function Animate(w: Widget, disableSmooth: bool, value: real): (r: Widget)
  {
    if !w.mounted then w
    else w.(transition := if disableSmooth then NoTransition else TransformLinear(ToFixed1(value)))
  }

  function AnimateRow(ws: seq<Option<Widget>>, disableSmooth: bool, value: real): (r: seq<Option<Widget>>)
    ensures SameLayout(ws, r)
  {
    seq(|ws|, i requires 0 <= i < |ws| => if ws[i].Some? then Some(Animate(ws[i].value, disableSmooth, value)) else None)
  }

  /** `updateAllAnimationDuration(value)`. */
  function UpdateAllAnimationDuration(e: State, value: real): (r: State)
    ensures SameShape(e, r)
  {
    e.(currentRate := value,
       cpu := Animate(e.cpu, e.disableSmooth, value),
       ram := Animate(e.ram, e.disableSmooth, value),
       hdd := Animate(e.hdd, e.disableSmooth, value),
       gpus := AnimateRow(e.gpus, e.disableSmooth, value),
       vrams := AnimateRow(e.vrams, e.disableSmooth, value),
       temps := AnimateRow(e.temps, e.disableSmooth, value))
  }

  /** `setDisableSmooth(value)`: the flag, then the stored rate re-applied. */
  function SetDisableSmooth(e: State, value: bool): State
  {
    UpdateAllAnimationDuration(e.(disableSmooth := value), e.currentRate)
  }

  // ---------------------------------------------------------------- display mode

  function ClearRow(ws: seq<Option<Widget>>): (r: seq<Option<Widget>>)
    ensures SameLayout(ws, r)
  {
    seq(|ws|, i requires 0 <= i < |ws| => if ws[i].Some? then Some(ClearCaches(ws[i].value)) else None)
  }

  /** `_invalidateMonitorCaches`. */
  function InvalidateMonitorCaches(e: State): (r: State)
    ensures SameShape(e, r)
  {
    e.(cpu := ClearCaches(e.cpu), ram := ClearCaches(e.ram), hdd := ClearCaches(e.hdd),
       gpus := ClearRow(e.gpus), vrams := ClearRow(e.vrams), temps := ClearRow(e.temps))
  }

  /** `setNumbersOnly(value)`: caches are dropped on the way from numbers-only back to bars. */
  function SetNumbersOnly(e: State, value: bool): State
  {
    var e1 := e.(numbersOnly := value);
    if e.numbersOnly && !value then InvalidateMonitorCaches(e1) else e1
  }

  // ---------------------------------------------------------------- mounting and layout

  /** `createMonitor(settings)` for the record in slot `s`. */
  function CreateMonitor(e: State, s: Slot): (r: State)
    requires Present(e, s)
    ensures SameShape(e, r)
  {
    Set(e, s, Mount(Get(e, s)))
  }

  /**
   * The settings module's `monitorXSettings[index] = record` on the array it shares
   * with `MonitorUI`; writing past the end leaves holes.
   */
  function PlaceAt(ws: seq<Option<Widget>>, i: nat, w: Widget): (r: seq<Option<Widget>>)
    ensures |r| == if i < |ws| then |ws| else i + 1
    ensures r[i] == Some(w)
    ensures forall k :: 0 <= k < |r| && k != i ==> r[k] == if k < |ws| then ws[k] else None
  {
    if i < |ws| then ws[i := Some(w)] else ws + seq(i - |ws|, _ => None) + [Some(w)]
  }

  function StoreSettings(e: State, row: Row, i: nat, w: Widget): State
  {
    WithRow(e, row, PlaceAt(RowOf(e, row), i, w))
  }

  /** `createDOMGPUMonitor(monitorXSettings[index])`. */
  function CreateDOMGPUMonitor(e: State, row: Row, i: nat): State
  {
    var s := InRow(row, i);
    if Present(e, s) then UpdateAllAnimationDuration(CreateMonitor(e, s), e.currentRate) else e
  }

  /** `showMonitor(settings, value)`. */
  function ShowMonitor(e: State, s: Slot, value: bool): State
    requires Present(e, s)
  {
    var w := Get(e, s);
    if w.mounted then Set(e, s, w.(display := if value then Flex else DisplayNone)) else e
  }

  /** The widgets `orderMonitors` numbers, in order, for the first `n` GPU indices. */
  function GpuOrderSlots(gpus: seq<Option<Widget>>, n: nat): seq<Slot>
    requires n <= |gpus|
  {
    if n == 0 then []
    else GpuOrderSlots(gpus, n - 1) +
         (if gpus[n - 1].Some? then [InRow(GpuRow, n - 1), InRow(VramRow, n - 1), InRow(TempRow, n - 1)] else [])
  }

  function OrderSlots(e: State): seq<Slot>
  {
    [Cpu, Ram] + GpuOrderSlots(e.gpus, |e.gpus|) + [Hdd]
  }

  /** The state after numbering `slots`, and whether that ran without throwing. */
  datatype Outcome = Outcome(state: State, completed: bool)

  /**
   * Numbering widgets one by one with `lastMonitor++`; a slot that is a hole or not
   * mounted throws, and the `catch` ends the numbering there.
   */
  function AssignOrders(e: State, slots: seq<Slot>): (r: Outcome)
    ensures SameShape(e, r.state)
    decreases |slots|
  {
    if slots == [] then Outcome(e, true)
    else
      var s := slots[0];
      if !Present(e, s) || !Get(e, s).mounted then Outcome(e, false)
      else AssignOrders(NumberOne(e, s), slots[1..])
  }

  /** One `style.order = '' + this.lastMonitor++` on the widget in slot `s`. */
  function NumberOne(e: State, s: Slot): (r: State)
    requires Present(e, s)
  {
    Set(e, s, Get(e, s).(order := Some(e.lastMonitor))).(lastMonitor := e.lastMonitor + 1)
  }

  /** `orderMonitors`. */
  function OrderMonitors(e: State): State
  {
    AssignOrders(e, OrderSlots(e)).state
  }

  // ---------------------------------------------------------------- construction

  /**
   * The constructor: the three fixed widgets are mounted (`createDOM`), and the
   * transitions follow the initial rate. The GPU rows are whatever the settings
   * module has put in the shared arrays so far.
   */
  function Init(cpu: Widget, ram: Widget, hdd: Widget,
                gpus: seq<Option<Widget>>, vrams: seq<Option<Widget>>, temps: seq<Option<Widget>>,
                currentRate: real, disableSmooth: bool, numbersOnly: bool): State
  {
    var e0 := State(cpu, ram, hdd, gpus, vrams, temps, map[], disableSmooth, numbersOnly, None, 0, 0, currentRate, 1);
    var e1 := CreateMonitor(CreateMonitor(CreateMonitor(e0, Cpu), Ram), Hdd);
    UpdateAllAnimationDuration(e1, currentRate)
  }
}
