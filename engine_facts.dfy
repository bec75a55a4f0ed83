/** Properties of the render-update engine, proved about the state machine in engine.dfy. */
module EngineFacts {
  import opened Opt
  import opened JsText
  import opened Widgets
  import opened Engine

  // ---------------------------------------------------------------- row writes

  /** Writing one present entry of a row that replaced `row` of `e0` replaces that entry. */
  lemma SetInRow(e0: State, row: Row, ws: seq<Option<Widget>>, i: nat, w: Widget)
    requires i < |ws| && ws[i].Some?
    ensures Present(WithRow(e0, row, ws), InRow(row, i))
    ensures Get(WithRow(e0, row, ws), InRow(row, i)) == ws[i].value
    ensures Set(WithRow(e0, row, ws), InRow(row, i), w) == WithRow(e0, row, ws[i := Some(w)])
  {
  }

  /** A row walked up to index `i`: entries before `i` are those of `target`, the rest those of `src`. */
  predicate WalkedTo(src: seq<Option<Widget>>, target: seq<Option<Widget>>, ws: seq<Option<Widget>>, i: nat)
  {
    && |ws| == |src| == |target| && i <= |ws|
    && (forall k :: 0 <= k < i ==> ws[k] == target[k])
    && (forall k :: i <= k < |ws| ==> ws[k] == src[k])
  }

  lemma WalkStep(src: seq<Option<Widget>>, target: seq<Option<Widget>>, ws: seq<Option<Widget>>, i: nat)
    requires WalkedTo(src, target, ws, i) && i < |ws|
    ensures WalkedTo(src, target, ws[i := target[i]], i + 1)
  {
  }

  lemma WalkDone(src: seq<Option<Widget>>, target: seq<Option<Widget>>, ws: seq<Option<Widget>>)
    requires WalkedTo(src, target, ws, |ws|)
    ensures ws == target
  {
  }

  // ---------------------------------------------------------------- peak tracking

  /**
   * The source's two statements (reset the slot to 0, then raise it to `used`) give
   * the peak that ObservePeak describes.
   */
  lemma ResetThenRaise(peaks: map<Option<int>, int>, key: Option<int>, used: int, total: int)
    ensures var p1 := if PeakResets(peaks, key, total) then peaks[key := 0] else peaks;
            key in p1 &&
            ObservePeak(peaks, key, used, total) == if used > p1[key] then p1[key := used] else p1
  {
    var p1 := if PeakResets(peaks, key, total) then peaks[key := 0] else peaks;
    var r := ObservePeak(peaks, key, used, total);
    var q := if used > p1[key] then p1[key := used] else p1;
    assert r.Keys == q.Keys;
    forall k | k in r ensures r[k] == q[k] {
    }
  }

  // ---------------------------------------------------------------- orderMonitors

  lemma {:induction false} AssignOrdersAppend(e: State, a: seq<Slot>, b: seq<Slot>)
    ensures AssignOrders(e, a + b) ==
            (var o := AssignOrders(e, a); if o.completed then AssignOrders(o.state, b) else o)
    decreases |a|
  {
    if a != [] {
      assert (a + b)[0] == a[0];
      assert (a + b)[1..] == a[1..] + b;
      var s := a[0];
      if Present(e, s) && Get(e, s).mounted {
        AssignOrdersAppend(NumberOne(e, s), a[1..], b);
      }
    } else {
      assert a + b == b;
    }
  }

  lemma {:induction false} GpuOrderSlotsPrefix(gpus: seq<Option<Widget>>, m: nat, n: nat)
    requires m <= n <= |gpus|
    ensures GpuOrderSlots(gpus, m) <= GpuOrderSlots(gpus, n)
    decreases n
  {
    if m < n {
      GpuOrderSlotsPrefix(gpus, m, n - 1);
    }
  }

  /** GPU index `i`'s three widgets come next in the numbering after those before `i`. */
  lemma OrderSlotsStep(e: State, i: nat)
    requires i < |e.gpus| && e.gpus[i].Some?
    ensures var done := [Cpu, Ram] + GpuOrderSlots(e.gpus, i);
            var g, v, t := InRow(GpuRow, i), InRow(VramRow, i), InRow(TempRow, i);
            && done + [g] <= OrderSlots(e)
            && (done + [g]) + [v] <= OrderSlots(e)
            && (done + [g, v]) + [t] <= OrderSlots(e)
            && (done + [g, v]) + [t] == [Cpu, Ram] + GpuOrderSlots(e.gpus, i + 1)
            && done + [g] + [v] == done + [g, v]
  {
    GpuOrderSlotsPrefix(e.gpus, i + 1, |e.gpus|);
    var done := [Cpu, Ram] + GpuOrderSlots(e.gpus, i);
    var g, v, t := InRow(GpuRow, i), InRow(VramRow, i), InRow(TempRow, i);
    var whole := [Cpu, Ram] + GpuOrderSlots(e.gpus, i + 1);
    assert whole == done + [g, v, t];
    assert whole <= OrderSlots(e);
  }

  /** The CPU and RAM widgets open the numbering and the HDD widget closes it. */
  lemma OrderSlotsEnds(e: State)
    ensures [] + [Cpu] <= OrderSlots(e)
    ensures [Cpu] + [Ram] <= OrderSlots(e)
    ensures [Cpu] + [Ram] == [Cpu, Ram] + GpuOrderSlots(e.gpus, 0)
    ensures ([Cpu, Ram] + GpuOrderSlots(e.gpus, |e.gpus|)) + [Hdd] == OrderSlots(e)
  {
  }
}
