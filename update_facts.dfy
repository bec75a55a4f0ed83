/**
 * What one `updateMonitor` call does to the record it is given, to the peak map and
 * to nothing else; the peak regimes; and the temperature colour check.
 */
module UpdateFacts {
  import opened Opt
  import opened JsText
  import opened Widgets
  import opened Engine

  /** The fields that no render step touches. */
  predicate SameControl(e: State, r: State)
  {
    Control(r) == Control(e)
  }

  function Control(e: State): (bool, bool, Option<Stats>, nat, nat, real, int)
  {
    (e.disableSmooth, e.numbersOnly, e.pending, e.rafId, e.frameRequests, e.currentRate, e.lastMonitor)
  }

  /** Every slot other than `s` holds the record it held before. */
  ghost predicate OthersKept(e: State, r: State, s: Slot)
  {
    forall t :: Present(e, t) && t != s ==> Present(r, t) && Get(r, t) == Get(e, t)
  }

  // ---------------------------------------------------------------- the write

  /**
   * A write renders the record in slot `s` from its old value, with the peak read
   * back from the updated map; the peak map changes only when both byte counts are
   * given; every other slot and every control field is kept.
   */
  lemma WriteMonitorEffect(e: State, s: Slot, flooredPercent: nat, used: Option<int>, total: Option<int>)
    requires Present(e, s)
    ensures var r := WriteMonitor(e, s, flooredPercent, used, total);
            var w := Get(e, s);
            var key := PeakKey(w.monitorTitle);
            && r.maxVRAMUsed == (if used.Some? && total.Some? then ObservePeak(e.maxVRAMUsed, key, used.value, total.value)
                                 else e.maxVRAMUsed)
            && (used.Some? && total.Some? ==> key in r.maxVRAMUsed)
            && Present(r, s)
            && Get(r, s) == Render(w, e.numbersOnly, flooredPercent, used, total,
                                   if used.Some? && total.Some? then Some(ByteReading(used.value, total.value, r.maxVRAMUsed[key]))
                                   else None)
            && OthersKept(e, r, s)
            && SameControl(e, r)
  {
    var w := Get(e, s);
    var key := PeakKey(w.monitorTitle);
    var r := WriteMonitor(e, s, flooredPercent, used, total);
    if used.Some? && total.Some? {
      var peaks := ObservePeak(e.maxVRAMUsed, key, used.value, total.value);
      var e1 := e.(maxVRAMUsed := peaks);
      PeaksAside(e, peaks);
      var bytes := Some(ByteReading(used.value, total.value, peaks[key]));
      assert r == Set(e1, s, Render(w, e.numbersOnly, flooredPercent, used, total, bytes));
    } else {
      assert r == Set(e, s, Render(w, e.numbersOnly, flooredPercent, used, total, None));
    }
  }

  /** The peak map is no part of any slot. */
  lemma PeaksAside(e: State, peaks: map<Option<int>, int>)
    ensures forall t :: Present(e, t) ==> Present(e.(maxVRAMUsed := peaks), t) && Get(e.(maxVRAMUsed := peaks), t) == Get(e, t)
  {
    var e1 := e.(maxVRAMUsed := peaks);
    forall t | Present(e, t) ensures Present(e1, t) && Get(e1, t) == Get(e, t) {
      if t.InRow? {
        assert RowOf(e1, t.row) == RowOf(e, t.row);
      }
    }
  }

  /** `updateMonitor` changes the state exactly when none of its three early returns is taken. */
  lemma UpdateMonitorNoOpIffSkips(e: State, s: Slot, percent: real, used: Option<int>, total: Option<int>)
    requires Present(e, s)
    ensures UpdateMonitor(e, s, percent, used, total) == e <==> Skips(Get(e, s), percent, used, total)
  {
    if !Skips(Get(e, s), percent, used, total) {
      WriteMonitorEffect(e, s, percent.Floor, used, total);
      var r := UpdateMonitor(e, s, percent, used, total);
      assert CacheHit(Get(r, s), percent.Floor, used, total);
      assert Get(r, s) != Get(e, s);
    }
  }

  /** A second `updateMonitor` with the same arguments writes nothing. */
  lemma UpdateMonitorIdempotent(e: State, s: Slot, percent: real, used: Option<int>, total: Option<int>)
    requires Present(e, s)
    ensures var r := UpdateMonitor(e, s, percent, used, total);
            Present(r, s) && UpdateMonitor(r, s, percent, used, total) == r
  {
    var r := UpdateMonitor(e, s, percent, used, total);
    if !Skips(Get(e, s), percent, used, total) {
      WriteMonitorEffect(e, s, percent.Floor, used, total);
      assert Skips(Get(r, s), percent, used, total);
    }
  }

  /**
   * A write fills the render cache with (floored percent, used, total), labels the
   * widget with the floored percent and its symbol, not clamped, puts the optional
   * title prefix before that label in the tooltip, and sets the fill to the clamped
   * fraction unless numbers-only mode is on, in which case the fill is left alone.
   */
  lemma UpdateMonitorWrites(e: State, s: Slot, percent: real, used: Option<int>, total: Option<int>)
    requires Present(e, s) && !Skips(Get(e, s), percent, used, total)
    ensures var r := UpdateMonitor(e, s, percent, used, total);
            var w := Get(e, s);
            var fp: nat := percent.Floor;
            && Present(r, s)
            && CacheHit(Get(r, s), fp, used, total)
            && Get(r, s).labelText == NatToString(fp) + w.symbol
            && Get(r, s).tooltip.text == TitlePrefix(w.monitorTitle) + Get(r, s).labelText
            && (!e.numbersOnly ==> Get(r, s).fillScale == Some(FillFraction(fp)))
            && (e.numbersOnly ==> Get(r, s).fillScale == w.fillScale)
            && (used.Some? && total.Some? <==> Get(r, s).tooltip.bytes.Some?)
            && OthersKept(e, r, s)
            && SameControl(e, r)
  {
    WriteMonitorEffect(e, s, percent.Floor, used, total);
  }

  /**
   * The label reads back as the floored percent itself, however large: a reading of
   * 150.7% is labelled 150 while the fill stops at 1.
   */
  lemma LabelNotClamped(e: State, s: Slot, percent: real)
    requires Present(e, s) && !Skips(Get(e, s), percent, None, None) && !e.numbersOnly
    requires Get(e, s).symbol == "%"
    requires percent >= 100.0
    ensures var r := UpdateMonitor(e, s, percent, None, None);
            && ParseInt(Get(r, s).labelText) == Some(percent.Floor)
            && Get(r, s).fillScale == Some(1.0)
  {
    UpdateMonitorWrites(e, s, percent, None, None);
    ParseIntOfNatToString(percent.Floor, "%");
  }

  // ---------------------------------------------------------------- peak tracking

  /**
   * After a write with both byte counts the widget's peak slot holds at least `used`
   * and never falls while the slot is not reset; the other peak slots are kept. A
   * write without byte counts leaves the peak map alone.
   */
  lemma UpdateMonitorPeak(e: State, s: Slot, percent: real, used: Option<int>, total: Option<int>)
    requires Present(e, s) && !Skips(Get(e, s), percent, used, total)
    ensures var r := UpdateMonitor(e, s, percent, used, total);
            var key := PeakKey(Get(e, s).monitorTitle);
            && (used.None? || total.None? ==> r.maxVRAMUsed == e.maxVRAMUsed)
            && (used.Some? && total.Some? ==>
                  && key in r.maxVRAMUsed
                  && r.maxVRAMUsed[key] >= used.value
                  && (!PeakResets(e.maxVRAMUsed, key, total.value) ==> r.maxVRAMUsed[key] >= e.maxVRAMUsed[key])
                  && Get(r, s).tooltip.bytes == Some(ByteReading(used.value, total.value, r.maxVRAMUsed[key]))
                  && forall k :: k in e.maxVRAMUsed && k != key ==> k in r.maxVRAMUsed && r.maxVRAMUsed[k] == e.maxVRAMUsed[k])
  {
    WriteMonitorEffect(e, s, percent.Floor, used, total);
  }

  /** Readings `useds` against one `total`, observed in turn on one peak slot. */
  function ObserveAll(peaks: map<Option<int>, int>, key: Option<int>, useds: seq<int>, total: int): (r: map<Option<int>, int>)
    ensures useds != [] ==> key in r
    decreases |useds|
  {
    if useds == [] then peaks else ObserveAll(ObservePeak(peaks, key, useds[0], total), key, useds[1..], total)
  }

  function Max(a: int, b: int): int
  {
    if a >= b then a else b
  }

  function MaxOf(xs: seq<int>): (m: int)
    requires xs != []
    ensures forall i :: 0 <= i < |xs| ==> xs[i] <= m
    ensures exists i :: 0 <= i < |xs| && xs[i] == m
  {
    if |xs| == 1 then xs[0] else Max(xs[0], MaxOf(xs[1..]))
  }

  /**
   * Within one regime (the same total, readings between 0 and it) the slot ends at
   * the largest reading, or at the peak it already had when that is larger.
   */
  lemma {:induction false} PeakIsRunningMax(peaks: map<Option<int>, int>, key: Option<int>, useds: seq<int>, total: int)
    requires useds != []
    requires forall i :: 0 <= i < |useds| ==> 0 <= useds[i] <= total
    requires key in peaks ==> 0 <= peaks[key] <= total
    ensures ObserveAll(peaks, key, useds, total)[key] == Max(if key in peaks then peaks[key] else 0, MaxOf(useds))
    decreases |useds|
  {
    var p1 := ObservePeak(peaks, key, useds[0], total);
    assert p1[key] == Max(if key in peaks then peaks[key] else 0, useds[0]);
    if |useds| > 1 {
      PeakIsRunningMax(p1, key, useds[1..], total);
      assert MaxOf(useds) == Max(useds[0], MaxOf(useds[1..]));
    }
  }

  /** 4 GiB used of 8 GiB, then 1 GiB of 2 GiB: the smaller total starts the peak again at 1 GiB. */
  lemma PeakResetsOnSmallerTotal(key: Option<int>)
    ensures var gib := 1073741824;
            var p1 := ObservePeak(map[], key, 4 * gib, 8 * gib);
            && p1[key] == 4 * gib
            && ObservePeak(p1, key, gib, 2 * gib)[key] == gib
            && ObservePeak(p1, key, gib, 8 * gib)[key] == 4 * gib
  {
  }

  /** A title `"{n}: {name}"` gives slot `n`; a record with no title gives slot 0. */
  lemma PeakKeyOfIndexedTitle(n: nat, name: string)
    ensures PeakKey(NatToString(n) + ": " + name) == Some(n)
    ensures PeakKey("") == Some(0)
  {
    var ds := NatToString(n);
    HeadOfIndexedTitle(ds, name);
    ParseIntOfText(n);
    PeakKeyOfUntitled();
  }

  lemma HeadOfIndexedTitle(ds: string, name: string)
    requires forall k :: 0 <= k < |ds| ==> IsDigit(ds[k])
    ensures BeforeColon(ds + ": " + name) == ds
  {
    assert ds + ": " + name == ds + (": " + name);
    BeforeColonOfDigits(ds, ": " + name);
  }

  lemma ParseIntOfText(n: nat)
    ensures ParseInt(NatToString(n)) == Some(n)
  {
    ParseIntOfNatToString(n, []);
    assert NatToString(n) + [] == NatToString(n);
  }

  lemma PeakKeyOfUntitled()
    ensures PeakKey("") == Some(0)
  {
    assert BeforeColon("") == "";
    ParseIntOfText(0);
    assert NatToString(0) == "0";
  }

  lemma {:induction false} BeforeColonOfDigits(ds: string, rest: string)
    requires forall k :: 0 <= k < |ds| ==> IsDigit(ds[k])
    requires rest != [] && rest[0] == ':'
    ensures BeforeColon(ds + rest) == ds
  {
    if ds == [] {
      assert ds + rest == rest;
    } else {
      assert (ds + rest)[1..] == ds[1..] + rest;
      BeforeColonOfDigits(ds[1..], rest);
    }
  }

  /**
   * RAM and HDD records have no title and every GPU record is titled `"0: {name}"`
   * whatever its index, so all byte-reporting widgets share peak slot 0.
   */
  lemma SharedPeakSlot(gpuName: string)
    ensures PeakKey("") == PeakKey("0: " + gpuName) == Some(0)
  {
    assert NatToString(0) + ": " + gpuName == "0: " + gpuName by {
      assert NatToString(0) == "0";
    }
    PeakKeyOfIndexedTitle(0, gpuName);
  }

  /**
   * On that shared slot a RAM peak of 16 GiB of 32 is lost after a VRAM reading of
   * 4 GiB of 8: the next RAM reading of 10 GiB is shown with a maximum of 10 GiB.
   */
  lemma RamPeakLostToVram()
    ensures var gib := 1073741824;
            var afterRam := ObservePeak(map[], Some(0), 16 * gib, 32 * gib);
            var afterVram := ObservePeak(afterRam, Some(0), 4 * gib, 8 * gib);
            var again := ObservePeak(afterVram, Some(0), 10 * gib, 32 * gib);
            afterRam[Some(0)] == 16 * gib && afterVram[Some(0)] == 4 * gib && again[Some(0)] == 10 * gib
  {
  }

  // ---------------------------------------------------------------- temperature colour

  /**
   * The gradient is rewritten exactly when the check passes (bars shown, a final
   * colour, mounted, and a floored temperature other than the cached one); then both
   * the cache and the mix take the floored temperature.
   */
  lemma RecolourTemperatureEffect(e: State, i: nat, temperature: real)
    requires Present(e, InRow(TempRow, i))
    ensures var r := RecolourTemperature(e, i, temperature);
            var s := InRow(TempRow, i);
            && Present(r, s)
            && (r == e <==> !RecoloursTemperature(e, Get(e, s), temperature))
            && (RecoloursTemperature(e, Get(e, s), temperature) ==>
                  Get(r, s).bgMix == Some(temperature.Floor) && Get(r, s).lastTempColor == Some(temperature.Floor))
  {
  }

  /** Two temperatures with the same floor recolour at most once. */
  lemma RecolourOncePerFloor(e: State, i: nat, t1: real, t2: real)
    requires Present(e, InRow(TempRow, i))
    requires t1.Floor == t2.Floor
    ensures var r := RecolourTemperature(e, i, t1);
            Present(r, InRow(TempRow, i)) && RecolourTemperature(r, i, t2) == r
  {
  }

  /** 55.2, 55.8 and 56.1 degrees in a row rewrite the gradient twice: at 55 and at 56. */
  lemma RecolourSequence(e: State, i: nat)
    requires Present(e, InRow(TempRow, i))
    requires var w := Get(e, InRow(TempRow, i));
             !e.numbersOnly && w.hasFinalColor && w.mounted && w.lastTempColor.None?
    ensures var e1 := RecolourTemperature(e, i, 55.2);
            var e2 := RecolourTemperature(e1, i, 55.8);
            var e3 := RecolourTemperature(e2, i, 56.1);
            && e1 != e && e2 == e1 && e3 != e2
            && Get(e3, InRow(TempRow, i)).bgMix == Some(56)
  {
    RecolourTemperatureEffect(e, i, 55.2);
    var e1 := RecolourTemperature(e, i, 55.2);
    RecolourOncePerFloor(e, i, 55.2, 55.8);
    RecolourTemperatureEffect(e1, i, 56.1);
  }

  /**
   * The colour check runs after `updateMonitor` whatever that did: a negative
   * temperature leaves the label and the cache alone but still sets the mix.
   */
  lemma NegativeTemperatureStillRecolours(e: State, gs: seq<GpuStats>, i: nat)
    requires i < |e.temps| && e.temps[i].Some? && i < |gs|
    requires gs[i].gpuTemperature < 0.0
    requires RecoloursTemperature(e, e.temps[i].value, gs[i].gpuTemperature)
    ensures var r := UpdateRowAt(e, TempRow, gs, i);
            var s := InRow(TempRow, i);
            && Present(r, s)
            && Get(r, s).labelText == Get(e, s).labelText
            && Get(r, s).lastPercent == Get(e, s).lastPercent
            && Get(r, s).bgMix == Some(gs[i].gpuTemperature.Floor)
  {
    RecolourTemperatureEffect(e, i, gs[i].gpuTemperature);
  }
}
