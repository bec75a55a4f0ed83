/**
 * What one pass of a GPU row's `forEach` leaves behind, index by index, and why
 * rendering the same statistics twice changes nothing the second time.
 */
module RenderFacts {
  import opened Opt
  import opened Widgets
  import opened Engine
  import opened UpdateFacts
  import opened FrameFacts

  /** The (percent, used, total) that the `forEach` body for `row` hands to `updateMonitor` for GPU `g`. */
  function RowReading(row: Row, g: GpuStats): (real, Option<int>, Option<int>)
  {
    match row
    case GpuRow => (g.gpuUtilization, None, None)
    case VramRow => (g.vramUsedPercent, g.vramUsed, g.vramTotal)
    case TempRow => (g.gpuTemperature, None, None)
  }

  /**
   * The record `w` at an index of `row` has nothing left to do for GPU `g`: its
   * `updateMonitor` returns early, and for a temperature widget the gradient check
   * finds the colour already set.
   */
  predicate Settled(w: Widget, row: Row, g: GpuStats, numbersOnly: bool)
  {
    var (percent, used, total) := RowReading(row, g);
    && Skips(w, percent, used, total)
    && (row == TempRow ==> !(!numbersOnly && w.hasFinalColor && w.mounted && w.lastTempColor != Some(g.gpuTemperature.Floor)))
  }

  /**
   * One iteration turned `before` into `after`: `after` is settled, still
   * (un)mounted and with the same final colour, and a record that was already
   * settled is left as it was.
   */
  predicate Took(before: Widget, after: Widget, row: Row, g: GpuStats, numbersOnly: bool)
  {
    && Settled(after, row, g, numbersOnly)
    && (after.mounted, after.hasFinalColor) == (before.mounted, before.hasFinalColor)
    && (Settled(before, row, g, numbersOnly) ==> after == before)
  }

  /** Slot `t` is one that the first `n` iterations of `row`'s `forEach` may write. */
  predicate Touched(t: Slot, row: Row, gs: seq<GpuStats>, n: nat)
  {
    t.InRow? && t.row == row && t.index < n && t.index < |gs|
  }

  /** Every present slot outside the first `n` iterations holds the record it held in `e`. */
  ghost predicate KeptOutside(e: State, r: State, row: Row, gs: seq<GpuStats>, n: nat)
  {
    forall t :: Present(e, t) && !Touched(t, row, gs, n) ==> Present(r, t) && Get(r, t) == Get(e, t)
  }

  /** Every present record at an index below `n` and below `|gs|` took its GPU's reading. */
  ghost predicate RowTaken(e: State, r: State, row: Row, gs: seq<GpuStats>, n: nat)
  {
    forall k :: 0 <= k < n && k < |gs| && Present(e, InRow(row, k)) ==>
      Present(r, InRow(row, k)) && Took(Get(e, InRow(row, k)), Get(r, InRow(row, k)), row, gs[k], r.numbersOnly)
  }

  /** Every present record at an index below `n` and below `|gs|` is settled. */
  ghost predicate RowSettled(e: State, row: Row, gs: seq<GpuStats>, n: nat)
  {
    forall k :: 0 <= k < n && k < |gs| && Present(e, InRow(row, k)) ==> Settled(Get(e, InRow(row, k)), row, gs[k], e.numbersOnly)
  }

  // ---------------------------------------------------------------- one iteration

  /** An `updateMonitor` leaves its record skipping the same reading, and touches nothing else. */
  lemma UpdateMonitorSettles(e: State, s: Slot, percent: real, used: Option<int>, total: Option<int>)
    requires Present(e, s)
    ensures var r := UpdateMonitor(e, s, percent, used, total);
            && Present(r, s)
            && Skips(Get(r, s), percent, used, total)
            && Get(r, s).mounted == Get(e, s).mounted
            && (Get(r, s).lastTempColor, Get(r, s).hasFinalColor) == (Get(e, s).lastTempColor, Get(e, s).hasFinalColor)
            && OthersKept(e, r, s)
            && SameControl(e, r)
  {
    if !Skips(Get(e, s), percent, used, total) {
      WriteMonitorEffect(e, s, percent.Floor, used, total);
    }
  }

  /**
   * The `forEach` body at index `i`: with a reading and a record there, the record
   * takes the reading; otherwise nothing changes; no other slot and no control
   * field is touched, and a settled record makes the whole body a no-op.
   */
  lemma StepEffect(e: State, row: Row, gs: seq<GpuStats>, i: nat)
    requires i < |RowOf(e, row)|
    ensures var r := UpdateRowAt(e, row, gs, i);
            var s := InRow(row, i);
            && OthersKept(e, r, s)
            && SameControl(e, r)
            && (i < |gs| && Present(e, s) ==>
                  && Present(r, s)
                  && Took(Get(e, s), Get(r, s), row, gs[i], e.numbersOnly)
                  && (Settled(Get(e, s), row, gs[i], e.numbersOnly) ==> r == e))
            && (i >= |gs| || !Present(e, s) ==> r == e)
  {
    var s := InRow(row, i);
    if i < |gs| && Present(e, s) {
      var g := gs[i];
      var (percent, used, total) := RowReading(row, g);
      var e1 := UpdateMonitor(e, s, percent, used, total);
      UpdateMonitorSettles(e, s, percent, used, total);
      if row == TempRow {
        RecolourStep(e1, i, g.gpuTemperature);
      }
    }
  }

  /** The gradient check keeps a skipping record skipping, and leaves the colour set. */
  lemma RecolourStep(e: State, i: nat, temperature: real)
    requires Present(e, InRow(TempRow, i))
    ensures var r := RecolourTemperature(e, i, temperature);
            var s := InRow(TempRow, i);
            var (w, v) := (Get(e, s), Get(r, s));
            && Present(r, s)
            && (v.lastPercent, v.lastUsed, v.lastTotal, v.mounted, v.hasFinalColor) == (w.lastPercent, w.lastUsed, w.lastTotal, w.mounted, w.hasFinalColor)
            && !RecoloursTemperature(r, v, temperature)
            && OthersKept(e, r, s)
            && SameControl(e, r)
  {
  }

  // ---------------------------------------------------------------- a whole row

  /**
   * After the first `n` iterations of `row`'s `forEach`: every present record at an
   * index below `n` that has a GPU reading took that reading (its render cache holds
   * it and, for temperatures, the colour is set); a record that already held it is
   * unchanged; holes, indices without a GPU entry, later indices, the other rows,
   * the fixed widgets and every control field are kept.
   */
  lemma {:induction false} UpdateRowEffect(e: State, row: Row, gs: seq<GpuStats>, n: nat)
    requires n <= |RowOf(e, row)|
    ensures var r := UpdateRow(e, row, gs, n);
            KeptOutside(e, r, row, gs, n) && RowTaken(e, r, row, gs, n) && SameControl(e, r)
    decreases n
  {
    if n > 0 {
      var prev := UpdateRow(e, row, gs, n - 1);
      UpdateRowEffect(e, row, gs, n - 1);
      RowLength(e, prev, row);
      RowStep(e, prev, row, gs, n);
    }
  }

  /** The inductive step of `UpdateRowEffect`: iteration `n - 1` on top of the first `n - 1`. */
  lemma RowStep(e: State, prev: State, row: Row, gs: seq<GpuStats>, n: nat)
    requires 0 < n <= |RowOf(prev, row)|
    requires KeptOutside(e, prev, row, gs, n - 1) && RowTaken(e, prev, row, gs, n - 1) && SameControl(e, prev)
    ensures var r := UpdateRowAt(prev, row, gs, n - 1);
            KeptOutside(e, r, row, gs, n) && RowTaken(e, r, row, gs, n) && SameControl(e, r)
  {
    var r := UpdateRowAt(prev, row, gs, n - 1);
    StepEffect(prev, row, gs, n - 1);
    KeptStep(e, prev, r, row, gs, n);
    TakenStep(e, prev, r, row, gs, n);
  }

  /** One more iteration keeps every slot outside the iterations done so far. */
  lemma KeptStep(e: State, prev: State, r: State, row: Row, gs: seq<GpuStats>, n: nat)
    requires n > 0
    requires KeptOutside(e, prev, row, gs, n - 1) && OthersKept(prev, r, InRow(row, n - 1))
    requires n - 1 >= |gs| ==> r == prev
    ensures KeptOutside(e, r, row, gs, n)
  {
    forall t | Present(e, t) && !Touched(t, row, gs, n)
      ensures Present(r, t) && Get(r, t) == Get(e, t)
    {
      assert !Touched(t, row, gs, n - 1);
    }
  }

  /** One more iteration adds its own index to the indices that took their readings. */
  lemma TakenStep(e: State, prev: State, r: State, row: Row, gs: seq<GpuStats>, n: nat)
    requires n > 0 && n - 1 < |RowOf(prev, row)|
    requires KeptOutside(e, prev, row, gs, n - 1) && RowTaken(e, prev, row, gs, n - 1)
    requires OthersKept(prev, r, InRow(row, n - 1)) && prev.numbersOnly == r.numbersOnly
    requires n - 1 < |gs| && Present(prev, InRow(row, n - 1)) ==>
               Present(r, InRow(row, n - 1)) && Took(Get(prev, InRow(row, n - 1)), Get(r, InRow(row, n - 1)), row, gs[n - 1], prev.numbersOnly)
    ensures RowTaken(e, r, row, gs, n)
  {
    var s := InRow(row, n - 1);
    forall k | 0 <= k < n && k < |gs| && Present(e, InRow(row, k))
      ensures Present(r, InRow(row, k)) && Took(Get(e, InRow(row, k)), Get(r, InRow(row, k)), row, gs[k], r.numbersOnly)
    {
      if k == n - 1 {
        assert !Touched(s, row, gs, n - 1);
      }
    }
  }

  /**
   * After the first `n` iterations, a mounted record at index `k` with a GPU entry
   * holds that GPU's reading in its render cache (unless the percent is negative),
   * and a temperature record with a final colour shows the floored temperature,
   * unless numbers-only mode is on.
   */
  lemma UpdateRowTakesReading(e: State, row: Row, gs: seq<GpuStats>, n: nat, k: nat)
    requires n <= |RowOf(e, row)| && k < n && k < |gs|
    requires Present(e, InRow(row, k)) && Get(e, InRow(row, k)).mounted
    ensures var r := UpdateRow(e, row, gs, n);
            var s := InRow(row, k);
            var (percent, used, total) := RowReading(row, gs[k]);
            && Present(r, s)
            && (percent >= 0.0 ==> CacheHit(Get(r, s), percent.Floor, used, total))
            && (row == TempRow && !e.numbersOnly && Get(e, s).hasFinalColor ==>
                  Get(r, s).lastTempColor == Some(gs[k].gpuTemperature.Floor))
  {
    UpdateRowEffect(e, row, gs, n);
  }

  /** Rows keep their lengths between states of the same shape. */
  lemma RowLength(e: State, r: State, row: Row)
    requires SameShape(e, r)
    ensures |RowOf(r, row)| == |RowOf(e, row)|
  {
  }

  /** Iterations over records that are all settled change nothing. */
  lemma {:induction false} SettledRowNoOp(e: State, row: Row, gs: seq<GpuStats>, n: nat)
    requires n <= |RowOf(e, row)|
    requires RowSettled(e, row, gs, n)
    ensures UpdateRow(e, row, gs, n) == e
    decreases n
  {
    if n > 0 {
      SettledRowNoOp(e, row, gs, n - 1);
      StepEffect(e, row, gs, n - 1);
    }
  }

  /** A row pass leaves every record it reached settled. */
  lemma UpdateRowSettles(e: State, row: Row, gs: seq<GpuStats>, n: nat)
    requires n <= |RowOf(e, row)|
    ensures var r := UpdateRow(e, row, gs, n);
            n <= |RowOf(r, row)| && RowSettled(r, row, gs, n)
  {
    var r := UpdateRow(e, row, gs, n);
    UpdateRowEffect(e, row, gs, n);
    RowLength(e, r, row);
    forall k | 0 <= k < n && k < |gs| && Present(r, InRow(row, k))
      ensures Settled(Get(r, InRow(row, k)), row, gs[k], r.numbersOnly)
    {
      assert Present(e, InRow(row, k));
    }
  }

  /** Running a row's `forEach` twice over the same GPU list is running it once. */
  lemma UpdateRowIdempotent(e: State, row: Row, gs: seq<GpuStats>, n: nat)
    requires n <= |RowOf(e, row)|
    ensures var r := UpdateRow(e, row, gs, n);
            n <= |RowOf(r, row)| && UpdateRow(r, row, gs, n) == r
  {
    var r := UpdateRow(e, row, gs, n);
    UpdateRowSettles(e, row, gs, n);
    SettledRowNoOp(r, row, gs, n);
  }

  /** Records of a row whose slots are all kept, under the same numbers-only flag, stay settled. */
  lemma RowSettledKept(a: State, b: State, row: Row, gs: seq<GpuStats>, n: nat, other: Row)
    requires RowSettled(a, row, gs, n) && other != row
    requires KeptOutside(a, b, other, gs, |RowOf(a, other)|) && SameShape(a, b) && SameControl(a, b)
    ensures RowSettled(b, row, gs, n)
  {
    forall k | 0 <= k < n && k < |gs| && Present(b, InRow(row, k))
      ensures Settled(Get(b, InRow(row, k)), row, gs[k], b.numbersOnly)
    {
      assert Present(a, InRow(row, k)) && !Touched(InRow(row, k), other, gs, |RowOf(a, other)|);
    }
  }

  // ---------------------------------------------------------------- a whole display

  /**
   * `_doUpdateDisplay(data)` has nothing left to do: the three fixed widgets skip
   * their readings, and with a non-empty GPU list every row is settled.
   */
  ghost predicate DisplaySettled(e: State, d: Stats)
  {
    && Skips(e.cpu, d.cpuUtilization, None, None)
    && Skips(e.ram, d.ramUsedPercent, d.ramUsed, d.ramTotal)
    && Skips(e.hdd, d.hddUsedPercent, d.hddUsed, d.hddTotal)
    && (d.gpus.Some? && |d.gpus.value| > 0 ==>
          && RowSettled(e, GpuRow, d.gpus.value, |e.gpus|)
          && RowSettled(e, VramRow, d.gpus.value, |e.vrams|)
          && RowSettled(e, TempRow, d.gpus.value, |e.temps|))
  }

  /** The three fixed widgets, updated in order, all skip their readings afterwards. */
  lemma FixedSettle(e: State, d: Stats)
    ensures var e1 := UpdateMonitor(e, Cpu, d.cpuUtilization, None, None);
            var e2 := UpdateMonitor(e1, Ram, d.ramUsedPercent, d.ramUsed, d.ramTotal);
            var e3 := UpdateMonitor(e2, Hdd, d.hddUsedPercent, d.hddUsed, d.hddTotal);
            && Skips(e3.cpu, d.cpuUtilization, None, None)
            && Skips(e3.ram, d.ramUsedPercent, d.ramUsed, d.ramTotal)
            && Skips(e3.hdd, d.hddUsedPercent, d.hddUsed, d.hddTotal)
            && SameShape(e, e3) && SameControl(e, e3)
  {
    var e1 := UpdateMonitor(e, Cpu, d.cpuUtilization, None, None);
    var e2 := UpdateMonitor(e1, Ram, d.ramUsedPercent, d.ramUsed, d.ramTotal);
    UpdateMonitorSettles(e, Cpu, d.cpuUtilization, None, None);
    UpdateMonitorSettles(e1, Ram, d.ramUsedPercent, d.ramUsed, d.ramTotal);
    UpdateMonitorSettles(e2, Hdd, d.hddUsedPercent, d.hddUsed, d.hddTotal);
  }

  /** The three row passes leave all three rows settled and the fixed widgets as they were. */
  lemma RowsSettle(e3: State, gs: seq<GpuStats>)
    ensures var e4 := UpdateRow(e3, GpuRow, gs, |e3.gpus|);
            var e5 := UpdateRow(e4, VramRow, gs, |e4.vrams|);
            var e6 := UpdateRow(e5, TempRow, gs, |e5.temps|);
            && (e6.cpu, e6.ram, e6.hdd) == (e3.cpu, e3.ram, e3.hdd)
            && RowSettled(e6, GpuRow, gs, |e6.gpus|)
            && RowSettled(e6, VramRow, gs, |e6.vrams|)
            && RowSettled(e6, TempRow, gs, |e6.temps|)
  {
    var e4 := UpdateRow(e3, GpuRow, gs, |e3.gpus|);
    UpdateRowEffect(e3, GpuRow, gs, |e3.gpus|);
    UpdateRowSettles(e3, GpuRow, gs, |e3.gpus|);
    var e5 := UpdateRow(e4, VramRow, gs, |e4.vrams|);
    UpdateRowEffect(e4, VramRow, gs, |e4.vrams|);
    UpdateRowSettles(e4, VramRow, gs, |e4.vrams|);
    var e6 := UpdateRow(e5, TempRow, gs, |e5.temps|);
    UpdateRowEffect(e5, TempRow, gs, |e5.temps|);
    UpdateRowSettles(e5, TempRow, gs, |e5.temps|);
    assert Present(e3, Cpu) && Present(e3, Ram) && Present(e3, Hdd);
    assert Present(e4, Cpu) && Present(e4, Ram) && Present(e4, Hdd);
    assert Present(e5, Cpu) && Present(e5, Ram) && Present(e5, Hdd);
    RowSettledKept(e4, e5, GpuRow, gs, |e4.gpus|, VramRow);
    RowSettledKept(e5, e6, GpuRow, gs, |e5.gpus|, TempRow);
    RowSettledKept(e5, e6, VramRow, gs, |e5.vrams|, TempRow);
  }

  /** After `_doUpdateDisplay(data)` nothing is left to do for `data`. */
  lemma DoUpdateDisplaySettles(e: State, d: Stats)
    ensures DisplaySettled(DoUpdateDisplay(e, d), d)
  {
    FixedSettle(e, d);
    if d.gpus.Some? && |d.gpus.value| > 0 {
      var e1 := UpdateMonitor(e, Cpu, d.cpuUtilization, None, None);
      var e2 := UpdateMonitor(e1, Ram, d.ramUsedPercent, d.ramUsed, d.ramTotal);
      var e3 := UpdateMonitor(e2, Hdd, d.hddUsedPercent, d.hddUsed, d.hddTotal);
      RowsSettle(e3, d.gpus.value);
    }
  }

  /** With nothing left to do for `data`, `_doUpdateDisplay(data)` changes nothing. */
  lemma SettledDisplayNoOp(e: State, d: Stats)
    requires DisplaySettled(e, d)
    ensures DoUpdateDisplay(e, d) == e
  {
    if d.gpus.Some? && |d.gpus.value| > 0 {
      var gs := d.gpus.value;
      SettledRowNoOp(e, GpuRow, gs, |e.gpus|);
      SettledRowNoOp(e, VramRow, gs, |e.vrams|);
      SettledRowNoOp(e, TempRow, gs, |e.temps|);
    }
  }

  /** Rendering the same statistics a second time writes nothing. */
  lemma DoUpdateDisplayIdempotent(e: State, d: Stats)
    ensures DoUpdateDisplay(DoUpdateDisplay(e, d), d) == DoUpdateDisplay(e, d)
  {
    DoUpdateDisplaySettles(e, d);
    SettledDisplayNoOp(DoUpdateDisplay(e, d), d);
  }

  /**
   * Two visible frames, each after an `updateDisplay` of the same statistics: the
   * second frame renders nothing, so its only trace is the one animation frame it
   * requested.
   */
  lemma SameStatsTwoFrames(e: State, d: Stats)
    ensures var a := FlushDisplay(UpdateDisplay(e, d), false);
            FlushDisplay(UpdateDisplay(a, d), false) == a.(frameRequests := a.frameRequests + 1)
  {
    var x := UpdateDisplay(e, d).(rafId := 0, pending := None);
    VisibleFlush(UpdateDisplay(e, d), d);
    DoUpdateDisplayControl(x, d);
    DoUpdateDisplaySettles(x, d);
    SettledFrame(DoUpdateDisplay(x, d), d);
  }

  /**
   * With no frame requested, nothing waiting and nothing left to do for `data`,
   * `updateDisplay(data)` and its frame only request that frame.
   */
  lemma SettledFrame(a: State, d: Stats)
    requires a.rafId == 0 && a.pending.None? && DisplaySettled(a, d)
    ensures FlushDisplay(UpdateDisplay(a, d), false) == a.(frameRequests := a.frameRequests + 1)
  {
    var b := a.(frameRequests := a.frameRequests + 1);
    VisibleFlush(UpdateDisplay(a, d), d);
    assert UpdateDisplay(a, d).(rafId := 0, pending := None) == b;
    assert (b.cpu, b.ram, b.hdd, b.gpus, b.vrams, b.temps, b.numbersOnly) == (a.cpu, a.ram, a.hdd, a.gpus, a.vrams, a.temps, a.numbersOnly);
    SettledDisplayNoOp(b, d);
  }

  /** A visible frame with `data` waiting renders it on the state with the frame and the slot cleared. */
  lemma VisibleFlush(y: State, d: Stats)
    requires y.pending == Some(d)
    ensures FlushDisplay(y, false) == DoUpdateDisplay(y.(rafId := 0, pending := None), d)
  {
  }
}
