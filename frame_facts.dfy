/**
 * Frame coalescing: `updateDisplay` keeps only the newest snapshot and asks for one
 * animation frame at a time; `_flushDisplay` renders the newest snapshot once, and a
 * hidden page keeps it without asking for a new frame.
 */
module FrameFacts {
  import opened Opt
  import opened Widgets
  import opened Engine
  import opened UpdateFacts

  // ---------------------------------------------------------------- rendering keeps the control fields

  lemma UpdateMonitorControl(e: State, s: Slot, percent: real, used: Option<int>, total: Option<int>)
    requires Present(e, s)
    ensures SameControl(e, UpdateMonitor(e, s, percent, used, total))
  {
    if !Skips(Get(e, s), percent, used, total) {
      WriteMonitorEffect(e, s, percent.Floor, used, total);
    }
  }

  lemma UpdateRowAtControl(e: State, row: Row, gs: seq<GpuStats>, i: nat)
    requires i < |RowOf(e, row)|
    ensures SameControl(e, UpdateRowAt(e, row, gs, i))
  {
    if i < |gs| && RowOf(e, row)[i].Some? {
      var g := gs[i];
      var s := InRow(row, i);
      match row
      case GpuRow => UpdateMonitorControl(e, s, g.gpuUtilization, None, None);
      case VramRow => UpdateMonitorControl(e, s, g.vramUsedPercent, g.vramUsed, g.vramTotal);
      case TempRow =>
        UpdateMonitorControl(e, s, g.gpuTemperature, None, None);
    }
  }

  lemma {:induction false} UpdateRowControl(e: State, row: Row, gs: seq<GpuStats>, n: nat)
    requires n <= |RowOf(e, row)|
    ensures SameControl(e, UpdateRow(e, row, gs, n))
    decreases n
  {
    if n > 0 {
      UpdateRowControl(e, row, gs, n - 1);
      var prev := UpdateRow(e, row, gs, n - 1);
      UpdateRowAtControl(prev, row, gs, n - 1);
    }
  }

  /** Rendering a snapshot touches neither the frame slot nor the pending snapshot nor the modes. */
  lemma DoUpdateDisplayControl(e: State, data: Stats)
    ensures SameControl(e, DoUpdateDisplay(e, data))
  {
    UpdateMonitorControl(e, Cpu, data.cpuUtilization, None, None);
    var e1 := UpdateMonitor(e, Cpu, data.cpuUtilization, None, None);
    UpdateMonitorControl(e1, Ram, data.ramUsedPercent, data.ramUsed, data.ramTotal);
    var e2 := UpdateMonitor(e1, Ram, data.ramUsedPercent, data.ramUsed, data.ramTotal);
    UpdateMonitorControl(e2, Hdd, data.hddUsedPercent, data.hddUsed, data.hddTotal);
    var e3 := UpdateMonitor(e2, Hdd, data.hddUsedPercent, data.hddUsed, data.hddTotal);
    if data.gpus.Some? && |data.gpus.value| > 0 {
      var gs := data.gpus.value;
      UpdateRowControl(e3, GpuRow, gs, |e3.gpus|);
      var e4 := UpdateRow(e3, GpuRow, gs, |e3.gpus|);
      UpdateRowControl(e4, VramRow, gs, |e4.vrams|);
      var e5 := UpdateRow(e4, VramRow, gs, |e4.vrams|);
      UpdateRowControl(e5, TempRow, gs, |e5.temps|);
    }
  }

  /**
   * A snapshot without GPU entries (the field missing or empty) updates the CPU, RAM
   * and HDD widgets only: the three GPU rows are left exactly as they were.
   */
  lemma NoGpuDataKeepsRows(e: State, data: Stats)
    requires data.gpus.None? || data.gpus.value == []
    ensures var r := DoUpdateDisplay(e, data);
            r.gpus == e.gpus && r.vrams == e.vrams && r.temps == e.temps
  {
    var e1 := UpdateMonitor(e, Cpu, data.cpuUtilization, None, None);
    var e2 := UpdateMonitor(e1, Ram, data.ramUsedPercent, data.ramUsed, data.ramTotal);
    FixedSlotKeepsRows(e, Cpu, data.cpuUtilization, None, None);
    FixedSlotKeepsRows(e1, Ram, data.ramUsedPercent, data.ramUsed, data.ramTotal);
    FixedSlotKeepsRows(e2, Hdd, data.hddUsedPercent, data.hddUsed, data.hddTotal);
  }

  lemma FixedSlotKeepsRows(e: State, s: Slot, percent: real, used: Option<int>, total: Option<int>)
    requires !s.InRow?
    ensures var r := UpdateMonitor(e, s, percent, used, total);
            r.gpus == e.gpus && r.vrams == e.vrams && r.temps == e.temps
  {
    var w := Get(e, s);
    if !Skips(w, percent, used, total) {
      var key := PeakKey(w.monitorTitle);
      var flooredPercent: nat := percent.Floor;
      if used.Some? && total.Some? {
        var peaks := ObservePeak(e.maxVRAMUsed, key, used.value, total.value);
        var bytes := ByteReading(used.value, total.value, peaks[key]);
        SetFixedKeepsRows(e.(maxVRAMUsed := peaks), s, Render(w, e.numbersOnly, flooredPercent, used, total, Some(bytes)));
      } else {
        SetFixedKeepsRows(e, s, Render(w, e.numbersOnly, flooredPercent, used, total, None));
      }
    }
  }

  lemma SetFixedKeepsRows(e: State, s: Slot, w: Widget)
    requires !s.InRow?
    ensures var r := Set(e, s, w);
            r.gpus == e.gpus && r.vrams == e.vrams && r.temps == e.temps
  {
  }

  // ---------------------------------------------------------------- coalescing

  /** `updateDisplay` called with each snapshot of `ds` in turn. */
  function UpdateDisplays(e: State, ds: seq<Stats>): State
    decreases |ds|
  {
    if ds == [] then e else UpdateDisplays(UpdateDisplay(e, ds[0]), ds[1..])
  }

  /**
   * A burst of snapshots between two frames leaves only the newest one pending and
   * asks for at most one frame: a new one when none was requested, none otherwise.
   * Nothing is rendered.
   */
  lemma {:induction false} CoalesceBurst(e: State, ds: seq<Stats>)
    requires ds != []
    ensures var r := UpdateDisplays(e, ds);
            && r.pending == Some(ds[|ds| - 1])
            && r.frameRequests == e.frameRequests + (if e.rafId == 0 then 1 else 0)
            && r.rafId == (if e.rafId == 0 then e.frameRequests + 1 else e.rafId)
            && r.(pending := e.pending, rafId := e.rafId, frameRequests := e.frameRequests) == e
    decreases |ds|
  {
    var e1 := UpdateDisplay(e, ds[0]);
    if |ds| > 1 {
      CoalesceBurst(e1, ds[1..]);
    }
  }

  /**
   * The frame after a burst renders the newest snapshot once, on a state with the
   * frame slot and the pending slot cleared; a further frame with no new snapshot
   * renders nothing.
   */
  lemma BurstRendersNewestOnce(e: State, ds: seq<Stats>)
    requires ds != []
    ensures var r := FlushDisplay(UpdateDisplays(e, ds), false);
            var requests := e.frameRequests + (if e.rafId == 0 then 1 else 0);
            && r == DoUpdateDisplay(e.(pending := None, rafId := 0, frameRequests := requests), ds[|ds| - 1])
            && r.pending.None? && r.rafId == 0
            && FlushDisplay(r, false) == r
  {
    CoalesceBurst(e, ds);
    var requests := e.frameRequests + (if e.rafId == 0 then 1 else 0);
    var b := UpdateDisplays(e, ds);
    assert b.(pending := None, rafId := 0) == e.(pending := None, rafId := 0, frameRequests := requests);
    DoUpdateDisplayControl(e.(pending := None, rafId := 0, frameRequests := requests), ds[|ds| - 1]);
  }

  /**
   * `_flushDisplay` always clears the frame slot. With nothing pending, or with the
   * page hidden, it renders nothing (a hidden page keeps the pending snapshot and no
   * new frame is requested); otherwise it clears the pending slot and renders it.
   */
  lemma FlushBranches(e: State, hidden: bool)
    ensures var r := FlushDisplay(e, hidden);
            && r.rafId == 0
            && (e.pending.None? || hidden ==> r == e.(rafId := 0))
            && (e.pending.Some? && !hidden ==>
                  r.pending.None? && r == DoUpdateDisplay(e.(rafId := 0, pending := None), e.pending.value))
  {
    if e.pending.Some? && !hidden {
      DoUpdateDisplayControl(e.(rafId := 0, pending := None), e.pending.value);
    }
  }

  /**
   * A snapshot kept by a hidden frame is never rendered once a newer one arrives:
   * the next `updateDisplay` asks for a new frame, and that frame, visible, renders
   * the newer snapshot only.
   */
  lemma HiddenThenVisible(e: State, newer: Stats)
    requires e.pending.Some?
    ensures var hiddenFrame := FlushDisplay(e, true);
            var requested := UpdateDisplay(hiddenFrame, newer);
            && hiddenFrame.pending == e.pending && hiddenFrame.rafId == 0
            && requested.rafId == e.frameRequests + 1 && requested.frameRequests == e.frameRequests + 1
            && FlushDisplay(requested, false) ==
               DoUpdateDisplay(e.(pending := None, rafId := 0, frameRequests := e.frameRequests + 1), newer)
  {
    var hiddenFrame := FlushDisplay(e, true);
    assert hiddenFrame == e.(rafId := 0);
    var requested := UpdateDisplay(hiddenFrame, newer);
    assert requested == e.(pending := Some(newer), rafId := e.frameRequests + 1, frameRequests := e.frameRequests + 1);
    assert requested.(rafId := 0).(pending := None) == e.(pending := None, rafId := 0, frameRequests := e.frameRequests + 1);
  }
}
