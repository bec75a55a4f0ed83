/**
 * `MonitorUI`: the object that owns the widgets' render caches, the peak map, the
 * one-slot snapshot buffer and the display-mode flags, and updates them in place.
 * Every method is proved to leave the object in the state the function of the same
 * name in module Engine gives for the old state.
 */
module MonitorUI {
  import opened Opt
  import opened JsText
  import opened Widgets
  import opened Engine
  import opened EngineFacts

  class MonitorUI {
    var cpu: Widget
    var ram: Widget
    var hdd: Widget
    var gpus: seq<Option<Widget>>
    var vrams: seq<Option<Widget>>
    var temps: seq<Option<Widget>>
    var maxVRAMUsed: map<Option<int>, int>
    var disableSmooth: bool
    var numbersOnly: bool
    var pendingData: Option<Stats>
    var rafId: nat
    /** How many animation frames have been requested; the browser hands out handles 1, 2, ... */
    var frameRequests: nat
    var currentRate: real
    var lastMonitor: int

    /** The object's state as a value. */
    function Model(): State
      reads this
    {
      State(cpu, ram, hdd, gpus, vrams, temps, maxVRAMUsed, disableSmooth, numbersOnly,
            pendingData, rafId, frameRequests, currentRate, lastMonitor)
    }

    constructor (cpu: Widget, ram: Widget, hdd: Widget,
                 gpus: seq<Option<Widget>>, vrams: seq<Option<Widget>>, temps: seq<Option<Widget>>,
                 currentRate: real, disableSmooth: bool, numbersOnly: bool)
      ensures Model() == Engine.Init(cpu, ram, hdd, gpus, vrams, temps, currentRate, disableSmooth, numbersOnly)
    {
      this.cpu, this.ram, this.hdd := cpu, ram, hdd;
      this.gpus, this.vrams, this.temps := gpus, vrams, temps;
      this.currentRate := currentRate;
      this.disableSmooth := disableSmooth;
      this.numbersOnly := numbersOnly;
      maxVRAMUsed := map[];
      pendingData := None;
      rafId, frameRequests := 0, 0;
      lastMonitor := 1;
      new;
      // createDOM
      CreateMonitor(Cpu);
      CreateMonitor(Ram);
      CreateMonitor(Hdd);
      UpdateAllAnimationDuration(this.currentRate);
    }

    /** Writes the record of slot `s` back (the in-place field writes on the settings object). */
    method Put(s: Slot, w: Widget)
      requires Present(Model(), s)
      modifies this
      ensures Model() == Set(old(Model()), s, w)
    {
      match s
      case Cpu => cpu := w;
      case Ram => ram := w;
      case Hdd => hdd := w;
      case InRow(row, i) =>
        match row
        case GpuRow => gpus := gpus[i := Some(w)];
        case VramRow => vrams := vrams[i := Some(w)];
        case TempRow => temps := temps[i := Some(w)];
    }

    /** `createMonitor(settings)`: builds fresh elements and points the record at them. */
    method CreateMonitor(s: Slot)
      requires Present(Model(), s)
      modifies this
      ensures Model() == Engine.CreateMonitor(old(Model()), s)
    {
      var w := Get(Model(), s);
      // the main element, with the record's title when it has one
      w := w.(mounted := true, tooltip := Static(""), display := DisplayUnset, order := None);
      if w.settingsTitle != "" {
        w := w.(tooltip := Static(w.settingsTitle));
      }
      // the slider
      if w.hasFinalColor {
        w := w.(bgMix := Some(0));
      } else {
        w := w.(bgMix := None);
      }
      w := w.(fillScale := None, transition := NoTransition);
      // the label
      w := w.(labelText := "0%");
      Put(s, w);
    }

    /** The settings module's store into the row array it shares with this object. */
    method StoreSettings(row: Row, index: nat, w: Widget)
      modifies this
      ensures Model() == Engine.StoreSettings(old(Model()), row, index, w)
    {
      match row
      case GpuRow => gpus := PlaceAt(gpus, index, w);
      case VramRow => vrams := PlaceAt(vrams, index, w);
      case TempRow => temps := PlaceAt(temps, index, w);
    }

    /** `createDOMGPUMonitor(monitorXSettings[index])`. */
    method CreateDOMGPUMonitor(row: Row, index: nat)
      modifies this
      ensures Model() == Engine.CreateDOMGPUMonitor(old(Model()), row, index)
    {
      if !Present(Model(), InRow(row, index)) {
        return;
      }
      CreateMonitor(InRow(row, index));
      UpdateAllAnimationDuration(currentRate);
    }

    // -------------------------------------------------------------- frame coalescing

    /** `updateDisplay(data)`. */
    method UpdateDisplay(data: Stats)
      modifies this
      ensures Model() == Engine.UpdateDisplay(old(Model()), data)
    {
      pendingData := Some(data);
      if rafId == 0 {
        // requestAnimationFrame(_flushDisplay) returns the next handle
        frameRequests := frameRequests + 1;
        rafId := frameRequests;
      }
    }

    /** `_flushDisplay`, run by the browser for a requested frame; `hidden` is `document.hidden`. */
    method FlushDisplay(hidden: bool)
      modifies this
      ensures Model() == Engine.FlushDisplay(old(Model()), hidden)
    {
      rafId := 0;
      var data := pendingData;
      if data.None? {
        return;
      }
      if hidden {
        return;
      }
      pendingData := None;
      DoUpdateDisplay(data.value);
    }

    /** `_doUpdateDisplay(data)`. */
    method DoUpdateDisplay(data: Stats)
      modifies this
      ensures Model() == Engine.DoUpdateDisplay(old(Model()), data)
    {
      UpdateMonitor(Cpu, data.cpuUtilization, None, None);
      UpdateMonitor(Ram, data.ramUsedPercent, data.ramUsed, data.ramTotal);
      UpdateMonitor(Hdd, data.hddUsedPercent, data.hddUsed, data.hddTotal);
      if data.gpus.None? || |data.gpus.value| == 0 {
        return;
      }
      var gs := data.gpus.value;
      UpdateRowMonitors(GpuRow, gs);
      UpdateRowMonitors(VramRow, gs);
      UpdateRowMonitors(TempRow, gs);
    }

    /** One of the three `forEach` loops of `_doUpdateDisplay`. */
    method UpdateRowMonitors(row: Row, gs: seq<GpuStats>)
      modifies this
      ensures Model() == Engine.UpdateRow(old(Model()), row, gs, |RowOf(old(Model()), row)|)
    {
      ghost var e0 := Model();
      var n := |RowOf(Model(), row)|;
      var i := 0;
      while i < n
        invariant i <= n == |RowOf(e0, row)|
        invariant Model() == Engine.UpdateRow(e0, row, gs, i)
      {
        assert Engine.UpdateRow(e0, row, gs, i + 1) == Engine.UpdateRowAt(Model(), row, gs, i);
        UpdateRowEntry(row, gs, i);
        i := i + 1;
      }
    }

    /** The `forEach` body of one row for index `i`: skipped for a hole or a missing GPU entry. */
    method UpdateRowEntry(row: Row, gs: seq<GpuStats>, i: nat)
      requires i < |RowOf(Model(), row)|
      modifies this
      ensures Model() == Engine.UpdateRowAt(old(Model()), row, gs, i)
    {
      if i < |gs| && RowOf(Model(), row)[i].Some? {
        var gpu := gs[i];
        match row
        case GpuRow =>
          UpdateMonitor(InRow(row, i), gpu.gpuUtilization, None, None);
        case VramRow =>
          UpdateMonitor(InRow(row, i), gpu.vramUsedPercent, gpu.vramUsed, gpu.vramTotal);
        case TempRow =>
          UpdateMonitor(InRow(row, i), gpu.gpuTemperature, None, None);
          RecolourTemperature(i, gpu.gpuTemperature);
      }
    }

    /** The gradient step of the temperature loop (after that widget's `updateMonitor`). */
    method RecolourTemperature(i: nat, temperature: real)
      requires Present(Model(), InRow(TempRow, i))
      modifies this
      ensures Model() == Engine.RecolourTemperature(old(Model()), i, temperature)
    {
      var w := temps[i].value;
      if !numbersOnly && w.hasFinalColor && w.mounted {
        var tempFloored := temperature.Floor;
        if w.lastTempColor != Some(tempFloored) {
          w := w.(lastTempColor := Some(tempFloored));
          w := w.(bgMix := Some(tempFloored));
          temps := temps[i := Some(w)];
        }
      }
    }

    /** `updateMonitor(settings, percent, used, total)`. */
    method UpdateMonitor(s: Slot, percent: real, used: Option<int>, total: Option<int>)
      requires Present(Model(), s)
      modifies this
      ensures Model() == Engine.UpdateMonitor(old(Model()), s, percent, used, total)
    {
      var w := Get(Model(), s);
      if !w.mounted {
        return;
      }
      if percent < 0.0 {
        return;
      }
      var flooredPercent: nat := percent.Floor;
      // skip all writes when nothing has changed
      if w.lastPercent == Some(flooredPercent) && w.lastUsed == used && w.lastTotal == total {
        return;
      }
      WriteMonitor(s, flooredPercent, used, total);
    }

    /** The part of `updateMonitor` after the dirty check: cache, peak and element writes. */
    method WriteMonitor(s: Slot, flooredPercent: nat, used: Option<int>, total: Option<int>)
      requires Present(Model(), s)
      modifies this
      ensures Model() == Engine.WriteMonitor(old(Model()), s, flooredPercent, used, total)
    {
      ghost var e0 := Model();
      var w := Get(Model(), s);
      if used.Some? && total.Some? {
        var key := PeakKey(w.monitorTitle);
        var peak := TrackPeak(key, used.value, total.value);
        ghost var e1 := e0.(maxVRAMUsed := ObservePeak(e0.maxVRAMUsed, key, used.value, total.value));
        assert Model() == e1;
        assert Present(e1, s) && Get(e1, s) == w by {
          if s.InRow? {
            assert RowOf(e1, s.row) == RowOf(e0, s.row);
          }
        }
        var rendered := RenderRecord(w, flooredPercent, used, total, Some(ByteReading(used.value, total.value, peak)));
        Put(s, rendered);
      } else {
        var rendered := RenderRecord(w, flooredPercent, used, total, None);
        Put(s, rendered);
      }
    }

    /** The cache, tooltip, label and fill writes of `updateMonitor` on record `w`. */
    method RenderRecord(w: Widget, flooredPercent: nat, used: Option<int>, total: Option<int>,
                        bytes: Option<ByteReading>) returns (r: Widget)
      ensures r == Render(w, numbersOnly, flooredPercent, used, total, bytes)
      ensures r.labelText == NatToString(flooredPercent) + w.symbol
    {
      r := w.(lastPercent := Some(flooredPercent), lastUsed := used, lastTotal := total);
      var prefix := if w.monitorTitle != "" then w.monitorTitle + " - " else "";
      var title := NatToString(flooredPercent) + w.symbol;
      r := r.(tooltip := Reading(prefix + title, bytes));
      r := r.(labelText := title);
      if !numbersOnly {
        r := r.(fillScale := Some(FillFraction(flooredPercent)));
      }
    }

    /** The max-VRAM block of `updateMonitor`; returns the slot's value afterwards. */
    method TrackPeak(gpuIndex: Option<int>, used: int, total: int) returns (peak: int)
      modifies this
      ensures Model() == old(Model()).(maxVRAMUsed := ObservePeak(old(maxVRAMUsed), gpuIndex, used, total))
      ensures peak == ObservePeak(old(maxVRAMUsed), gpuIndex, used, total)[gpuIndex]
    {
      ResetThenRaise(maxVRAMUsed, gpuIndex, used, total);
      if gpuIndex !in maxVRAMUsed || maxVRAMUsed[gpuIndex] == 0 || maxVRAMUsed[gpuIndex] > total {
        maxVRAMUsed := maxVRAMUsed[gpuIndex := 0];
      }
      if used > maxVRAMUsed[gpuIndex] {
        maxVRAMUsed := maxVRAMUsed[gpuIndex := used];
      }
      peak := maxVRAMUsed[gpuIndex];
    }

    // -------------------------------------------------------------- animation

    /** `updateAllAnimationDuration(value)`. */
    method UpdateAllAnimationDuration(value: real)
      modifies this
      ensures Model() == Engine.UpdateAllAnimationDuration(old(Model()), value)
    {
      currentRate := value;
      UpdatedAnimationDuration(Cpu, value);
      UpdatedAnimationDuration(Ram, value);
      UpdatedAnimationDuration(Hdd, value);
      AnimateRowWidgets(GpuRow, value);
      AnimateRowWidgets(VramRow, value);
      AnimateRowWidgets(TempRow, value);
    }

    /** `updatedAnimationDuration(settings, value)`. */
    method UpdatedAnimationDuration(s: Slot, value: real)
      requires Present(Model(), s)
      modifies this
      ensures Model() == Set(old(Model()), s, Animate(Get(old(Model()), s), disableSmooth, value))
    {
      var w := Get(Model(), s);
      if !w.mounted {
        return;
      }
      if !disableSmooth {
        w := w.(transition := TransformLinear(ToFixed1(value)));
      } else {
        w := w.(transition := NoTransition);
      }
      Put(s, w);
    }

    /** One row's `forEach` in `updateAllAnimationDuration`. */
    method AnimateRowWidgets(row: Row, value: real)
      modifies this
      ensures Model() == WithRow(old(Model()), row, AnimateRow(RowOf(old(Model()), row), disableSmooth, value))
    {
      ghost var e0 := Model();
      ghost var src := RowOf(e0, row);
      ghost var target := AnimateRow(src, disableSmooth, value);
      ghost var ws := src;
      var n := |RowOf(Model(), row)|;
      var i := 0;
      while i < n
        invariant i <= n == |src|
        invariant Model() == WithRow(e0, row, ws)
        invariant WalkedTo(src, target, ws, i)
      {
        if RowOf(Model(), row)[i].Some? {
          SetInRow(e0, row, ws, i, target[i].value);
          UpdatedAnimationDuration(InRow(row, i), value);
        }
        WalkStep(src, target, ws, i);
        ws := ws[i := target[i]];
        i := i + 1;
      }
      WalkDone(src, target, ws);
    }

    /** `setDisableSmooth(value)` (the global style rule is not modelled). */
    method SetDisableSmooth(value: bool)
      modifies this
      ensures Model() == Engine.SetDisableSmooth(old(Model()), value)
    {
      disableSmooth := value;
      UpdateAllAnimationDuration(currentRate);
    }

    // -------------------------------------------------------------- display mode

    /** `setNumbersOnly(value)` (the global style rule is not modelled). */
    method SetNumbersOnly(value: bool)
      modifies this
      ensures Model() == Engine.SetNumbersOnly(old(Model()), value)
    {
      var wasNumbersOnly := numbersOnly;
      numbersOnly := value;
      if wasNumbersOnly && !value {
        InvalidateMonitorCaches();
      }
    }

    /** `_invalidateMonitorCaches`. */
    method InvalidateMonitorCaches()
      modifies this
      ensures Model() == Engine.InvalidateMonitorCaches(old(Model()))
    {
      ClearFixedCaches();
      ClearRowCaches(GpuRow);
      ClearRowCaches(VramRow);
      ClearRowCaches(TempRow);
    }

    /** The CPU, RAM and HDD records' part of `_invalidateMonitorCaches`. */
    method ClearFixedCaches()
      modifies this
      ensures Model() == old(Model()).(cpu := ClearCaches(old(cpu)), ram := ClearCaches(old(ram)), hdd := ClearCaches(old(hdd)))
    {
      cpu := ClearCaches(cpu);
      ram := ClearCaches(ram);
      hdd := ClearCaches(hdd);
    }

    /** The part of `_invalidateMonitorCaches`' loop that walks one row. */
    method ClearRowCaches(row: Row)
      modifies this
      ensures Model() == WithRow(old(Model()), row, ClearRow(RowOf(old(Model()), row)))
    {
      ghost var e0 := Model();
      ghost var src := RowOf(e0, row);
      ghost var target := ClearRow(src);
      ghost var ws := src;
      var n := |RowOf(Model(), row)|;
      var i := 0;
      while i < n
        invariant i <= n == |src|
        invariant Model() == WithRow(e0, row, ws)
        invariant WalkedTo(src, target, ws, i)
      {
        var entry := RowOf(Model(), row)[i];
        if entry.Some? {
          SetInRow(e0, row, ws, i, target[i].value);
          Put(InRow(row, i), ClearCaches(entry.value));
        }
        WalkStep(src, target, ws, i);
        ws := ws[i := target[i]];
        i := i + 1;
      }
      WalkDone(src, target, ws);
    }

    // -------------------------------------------------------------- layout

    /** `showMonitor(settings, value)`. */
    method ShowMonitor(s: Slot, value: bool)
      requires Present(Model(), s)
      modifies this
      ensures Model() == Engine.ShowMonitor(old(Model()), s, value)
    {
      var w := Get(Model(), s);
      if w.mounted {
        Put(s, w.(display := if value then Flex else DisplayNone));
      }
    }

    /**
     * One `x.htmlMonitorRef.style.order = '' + this.lastMonitor++` statement of the
     * numbering `all`, after the slots `done` were numbered. `ok` is false when it
     * throws because the record or its element is missing, which ends the numbering.
     */
    method OrderOne(s: Slot, ghost e0: State, ghost done: seq<Slot>, ghost all: seq<Slot>) returns (ok: bool)
      requires Outcome(Model(), true) == AssignOrders(e0, done)
      requires done + [s] <= all
      modifies this
      ensures ok ==> Outcome(Model(), true) == AssignOrders(e0, done + [s])
      ensures !ok ==> Model() == AssignOrders(e0, all).state
    {
      ghost var before := Model();
      AssignOrdersAppend(e0, done, [s]);
      assert [s][1..] == [];
      if !Present(Model(), s) || !Get(Model(), s).mounted {
        AssignOrdersAppend(e0, done + [s], all[|done| + 1..]);
        assert all == done + [s] + all[|done| + 1..];
        return false;
      }
      var w := Get(Model(), s);
      Put(s, w.(order := Some(lastMonitor)));
      lastMonitor := lastMonitor + 1;
      ok := true;
    }

    /** The `forEach` callback of `orderMonitors` for GPU index `i`. */
    method OrderGpuIndex(i: nat, ghost e0: State, ghost all: seq<Slot>) returns (ok: bool)
      requires i < |e0.gpus| && SameLayout(e0.gpus, gpus) && all == OrderSlots(e0)
      requires Outcome(Model(), true) == AssignOrders(e0, [Cpu, Ram] + GpuOrderSlots(e0.gpus, i))
      modifies this
      ensures SameLayout(e0.gpus, gpus)
      ensures ok ==> Outcome(Model(), true) == AssignOrders(e0, [Cpu, Ram] + GpuOrderSlots(e0.gpus, i + 1))
      ensures !ok ==> Model() == AssignOrders(e0, all).state
    {
      ok := true;
      if gpus[i].None? {
        assert GpuOrderSlots(e0.gpus, i + 1) == GpuOrderSlots(e0.gpus, i);
        return;
      }
      ghost var done := [Cpu, Ram] + GpuOrderSlots(e0.gpus, i);
      OrderSlotsStep(e0, i);
      ok := OrderOne(InRow(GpuRow, i), e0, done, all);
      if !ok {
        return;
      }
      ok := OrderOne(InRow(VramRow, i), e0, done + [InRow(GpuRow, i)], all);
      if !ok {
        return;
      }
      ok := OrderOne(InRow(TempRow, i), e0, done + [InRow(GpuRow, i), InRow(VramRow, i)], all);
    }

    /** `orderMonitors`: the `try` block, which stops at the first throw. */
    method OrderMonitors()
      modifies this
      ensures Model() == Engine.OrderMonitors(old(Model()))
    {
      ghost var e0 := Model();
      ghost var all := OrderSlots(e0);
      OrderSlotsEnds(e0);
      var ok := OrderOne(Cpu, e0, [], all);
      if !ok {
        return;
      }
      ok := OrderOne(Ram, e0, [Cpu], all);
      if !ok {
        return;
      }
      var n := |gpus|;
      var i := 0;
      while i < n
        invariant i <= n == |e0.gpus|
        invariant SameLayout(e0.gpus, gpus)
        invariant Outcome(Model(), true) == AssignOrders(e0, [Cpu, Ram] + GpuOrderSlots(e0.gpus, i))
      {
        ok := OrderGpuIndex(i, e0, all);
        if !ok {
          return;
        }
        i := i + 1;
      }
      ok := OrderOne(Hdd, e0, [Cpu, Ram] + GpuOrderSlots(e0.gpus, n), all);
    }
  }
}
