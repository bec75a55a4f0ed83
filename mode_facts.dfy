/**
 * Display modes and animation: numbers-only mode and its cache invalidation, the
 * slider transitions, visibility, and what mounting a record does.
 */
module ModeFacts {
  import opened Opt
  import opened JsText
  import opened Widgets
  import opened Engine
  import opened UpdateFacts

  /** No present record carries a cached value. */
  ghost predicate CachesCleared(e: State)
  {
    forall t :: Present(e, t) ==> Get(e, t).lastPercent.None? && Get(e, t).lastUsed.None?
                                  && Get(e, t).lastTotal.None? && Get(e, t).lastTempColor.None?
  }

  // ---------------------------------------------------------------- numbers-only

  /** `_invalidateMonitorCaches` clears the cache of every present record and nothing else. */
  lemma InvalidateClearsEveryCache(e: State)
    ensures var r := InvalidateMonitorCaches(e);
            && SameShape(e, r)
            && (forall t :: Present(e, t) ==> Present(r, t) && Get(r, t) == ClearCaches(Get(e, t)))
            && CachesCleared(r)
            && r.maxVRAMUsed == e.maxVRAMUsed && SameControl(e, r)
  {
    var r := InvalidateMonitorCaches(e);
    forall t | Present(e, t) ensures Present(r, t) && Get(r, t) == ClearCaches(Get(e, t)) {
    }
  }

  /**
   * `setNumbersOnly` stores the flag, and the caches are cleared only when the mode
   * goes from numbers-only back to bars; in every other case the records are kept.
   */
  lemma SetNumbersOnlyEffect(e: State, value: bool)
    ensures var r := SetNumbersOnly(e, value);
            && r.numbersOnly == value
            && (e.numbersOnly && !value ==>
                  && CachesCleared(r)
                  && (forall t :: Present(e, t) ==> Present(r, t) && Get(r, t) == ClearCaches(Get(e, t))))
            && (!(e.numbersOnly && !value) ==> r == e.(numbersOnly := value))
  {
    if e.numbersOnly && !value {
      InvalidateClearsEveryCache(e.(numbersOnly := value));
      var e1 := e.(numbersOnly := value);
      forall t | Present(e, t) ensures Present(e1, t) && Get(e1, t) == Get(e, t) {
        if t.InRow? {
          assert RowOf(e1, t.row) == RowOf(e, t.row);
        }
      }
    }
  }

  /**
   * In numbers-only mode a write leaves the fill alone; after switching back to bars
   * the next reading of a mounted widget is written whatever it is, so its fill is
   * brought up to date even when the reading equals the cached one.
   */
  lemma BarsRepaintAfterNumbersOnly(e: State, s: Slot, percent: real, used: Option<int>, total: Option<int>)
    requires Present(e, s) && e.numbersOnly && Get(e, s).mounted && percent >= 0.0
    ensures var bars := SetNumbersOnly(e, false);
            var r := UpdateMonitor(bars, s, percent, used, total);
            Present(r, s) && Get(r, s).fillScale == Some(FillFraction(percent.Floor))
  {
    SetNumbersOnlyEffect(e, false);
    var bars := SetNumbersOnly(e, false);
    assert Get(bars, s).lastPercent.None?;
    UpdateMonitorWrites(bars, s, percent, used, total);
  }

  /** While numbers-only mode is on, `updateMonitor` never writes the fill. */
  lemma NumbersOnlyKeepsFill(e: State, s: Slot, percent: real, used: Option<int>, total: Option<int>)
    requires Present(e, s) && e.numbersOnly
    ensures var r := UpdateMonitor(e, s, percent, used, total);
            Present(r, s) && Get(r, s).fillScale == Get(e, s).fillScale
  {
    if !Skips(Get(e, s), percent, used, total) {
      UpdateMonitorWrites(e, s, percent, used, total);
    }
  }

  // ---------------------------------------------------------------- animation

  /**
   * `updateAllAnimationDuration` stores the rate and gives every present record the
   * transition `updatedAnimationDuration` computes for it; nothing else changes.
   */
  lemma UpdateAllAnimationEffect(e: State, value: real)
    ensures var r := UpdateAllAnimationDuration(e, value);
            && r.currentRate == value
            && (forall t :: Present(e, t) ==> Present(r, t) && Get(r, t) == Animate(Get(e, t), e.disableSmooth, value))
            && r.(currentRate := e.currentRate, cpu := e.cpu, ram := e.ram, hdd := e.hdd,
                  gpus := e.gpus, vrams := e.vrams, temps := e.temps) == e
  {
    var r := UpdateAllAnimationDuration(e, value);
    forall t | Present(e, t) ensures Present(r, t) && Get(r, t) == Animate(Get(e, t), e.disableSmooth, value) {
    }
  }

  /**
   * After `setDisableSmooth(value)` every mounted widget has no inline transition when
   * `value` is set and a linear transform over the stored rate, to one decimal,
   * otherwise; unmounted records are untouched and the rate is kept.
   */
  lemma SetDisableSmoothTransitions(e: State, value: bool)
    ensures var r := SetDisableSmooth(e, value);
            && r.disableSmooth == value && r.currentRate == e.currentRate
            && forall t :: Present(e, t) ==>
                 && Present(r, t)
                 && (Get(e, t).mounted ==>
                       Get(r, t).transition == (if value then NoTransition else TransformLinear(ToFixed1(e.currentRate))))
                 && (!Get(e, t).mounted ==> Get(r, t) == Get(e, t))
  {
    var e1 := e.(disableSmooth := value);
    UpdateAllAnimationEffect(e1, e.currentRate);
    forall t | Present(e, t) ensures Present(e1, t) && Get(e1, t) == Get(e, t) {
      if t.InRow? {
        assert RowOf(e1, t.row) == RowOf(e, t.row);
      }
    }
  }

  /** Setting the same smoothing flag twice is the same as setting it once. */
  lemma SetDisableSmoothIdempotent(e: State, value: bool)
    ensures SetDisableSmooth(SetDisableSmooth(e, value), value) == SetDisableSmooth(e, value)
  {
    var r := SetDisableSmooth(e, value);
    var e1 := e.(disableSmooth := value);
    assert forall ws: seq<Option<Widget>> ::
      AnimateRow(AnimateRow(ws, value, e.currentRate), value, e.currentRate) == AnimateRow(ws, value, e.currentRate);
  }

  /** The transition is the only thing animation writes: a cached reading still skips afterwards. */
  lemma AnimationKeepsCacheHits(e: State, value: real, s: Slot, percent: real, used: Option<int>, total: Option<int>)
    requires Present(e, s) && Skips(Get(e, s), percent, used, total)
    ensures var r := UpdateAllAnimationDuration(e, value);
            Present(r, s) && UpdateMonitor(r, s, percent, used, total) == r
  {
    UpdateAllAnimationEffect(e, value);
  }

  // ---------------------------------------------------------------- visibility

  /**
   * `showMonitor` sets the display of a mounted widget to flex or none and changes
   * nothing else; a record that was never mounted is left alone. The last call wins.
   */
  lemma ShowMonitorEffect(e: State, s: Slot, v1: bool, v2: bool)
    requires Present(e, s)
    ensures var r := ShowMonitor(e, s, v1);
            && Present(r, s)
            && (Get(e, s).mounted ==> Get(r, s) == Get(e, s).(display := if v1 then Flex else DisplayNone))
            && (!Get(e, s).mounted ==> r == e)
            && OthersKept(e, r, s)
            && ShowMonitor(r, s, v2) == ShowMonitor(e, s, v2)
  {
    var r := ShowMonitor(e, s, v1);
    if Get(e, s).mounted {
      var w := Get(e, s).(display := if v2 then Flex else DisplayNone);
      assert Get(r, s).(display := if v2 then Flex else DisplayNone) == w;
      SetTwice(e, s, Get(r, s), w);
    }
  }

  /** Writing a slot twice keeps the second record only. */
  lemma SetTwice(e: State, s: Slot, w1: Widget, w2: Widget)
    requires Present(e, s)
    ensures var r := Set(e, s, w1);
            Present(r, s) && Set(r, s, w2) == Set(e, s, w2)
  {
    if s.InRow? {
      var ws := RowOf(e, s.row);
      assert ws[s.index := Some(w1)][s.index := Some(w2)] == ws[s.index := Some(w2)];
    }
  }

  // ---------------------------------------------------------------- mounting

  /**
   * `createMonitor` gives a record fresh elements but keeps its cache: a reading equal
   * to the cached one is then skipped, so the fresh label keeps its "0%".
   */
  lemma RemountKeepsStaleCache(e: State, s: Slot, percent: real, used: Option<int>, total: Option<int>)
    requires Present(e, s) && percent >= 0.0 && CacheHit(Get(e, s), percent.Floor, used, total)
    ensures var m := CreateMonitor(e, s);
            && Present(m, s) && Get(m, s).mounted && Get(m, s).labelText == "0%"
            && UpdateMonitor(m, s, percent, used, total) == m
  {
  }

  /**
   * A GPU record the settings module has stored is mounted by `createDOMGPUMonitor`,
   * with the label "0%" and the transition for the current rate; with no record at
   * that index nothing happens.
   */
  lemma CreateDOMGPUMonitorEffect(e: State, row: Row, i: nat)
    ensures var r := CreateDOMGPUMonitor(e, row, i);
            var s := InRow(row, i);
            && (Present(e, s) ==>
                  && Present(r, s) && Get(r, s).mounted && Get(r, s).labelText == "0%"
                  && Get(r, s).transition == (if e.disableSmooth then NoTransition else TransformLinear(ToFixed1(e.currentRate))))
            && (!Present(e, s) ==> r == e)
  {
    var s := InRow(row, i);
    if Present(e, s) {
      var m := CreateMonitor(e, s);
      UpdateAllAnimationEffect(m, e.currentRate);
    }
  }

  /** A record stored at index `i` of a row is found there, whatever the row's length was. */
  lemma StoreSettingsThenPresent(e: State, row: Row, i: nat, w: Widget)
    ensures var r := StoreSettings(e, row, i, w);
            Present(r, InRow(row, i)) && Get(r, InRow(row, i)) == w
            && forall k :: 0 <= k < |RowOf(e, row)| && k != i ==> RowOf(r, row)[k] == RowOf(e, row)[k]
  {
  }

  /**
   * The constructor mounts the CPU, RAM and HDD widgets with the transition for the
   * initial rate; nothing is pending, no frame is requested and numbering starts at 1.
   */
  lemma InitEffect(cpu: Widget, ram: Widget, hdd: Widget,
                   gpus: seq<Option<Widget>>, vrams: seq<Option<Widget>>, temps: seq<Option<Widget>>,
                   currentRate: real, disableSmooth: bool, numbersOnly: bool)
    ensures var e := Init(cpu, ram, hdd, gpus, vrams, temps, currentRate, disableSmooth, numbersOnly);
            var t := if disableSmooth then NoTransition else TransformLinear(ToFixed1(currentRate));
            && e.cpu.mounted && e.ram.mounted && e.hdd.mounted
            && e.cpu.transition == t && e.ram.transition == t && e.hdd.transition == t
            && e.cpu.labelText == "0%" && e.ram.labelText == "0%" && e.hdd.labelText == "0%"
            && e.pending.None? && e.rafId == 0 && e.lastMonitor == 1 && e.maxVRAMUsed == map[]
            && e.numbersOnly == numbersOnly && e.disableSmooth == disableSmooth
  {
  }
}
