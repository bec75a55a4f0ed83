/**
 * `orderMonitors`: widgets are numbered consecutively from `lastMonitor` in the order
 * CPU, RAM, each GPU's usage, VRAM and temperature widgets, HDD; the first widget that
 * is a hole or not mounted throws, and the numbering stops there.
 */
module OrderFacts {
  import opened Opt
  import opened Widgets
  import opened Engine
  import opened EngineFacts

  /** The widget in slot `s` has an element whose order can be set. */
  predicate Numberable(e: State, s: Slot)
  {
    Present(e, s) && Get(e, s).mounted
  }

  predicate Distinct(slots: seq<Slot>)
  {
    forall i, j :: 0 <= i < j < |slots| ==> slots[i] != slots[j]
  }

  /** Numbering one widget changes only that widget's order and the counter. */
  lemma NumberOneEffect(e: State, s: Slot)
    requires Present(e, s)
    ensures var r := NumberOne(e, s);
            && r.lastMonitor == e.lastMonitor + 1
            && Present(r, s) && Get(r, s) == Get(e, s).(order := Some(e.lastMonitor))
            && (forall t :: Present(e, t) && t != s ==> Present(r, t) && Get(r, t) == Get(e, t))
  {
    var e1 := Set(e, s, Get(e, s).(order := Some(e.lastMonitor)));
    var r := NumberOne(e, s);
    forall t | Present(e1, t) ensures Present(r, t) && Get(r, t) == Get(e1, t) {
      if t.InRow? {
        assert RowOf(r, t.row) == RowOf(e1, t.row);
      }
    }
  }

  /** Numbering one widget mounts or unmounts nothing. */
  lemma NumberOneKeepsNumberable(e: State, s: Slot)
    requires Present(e, s)
    ensures forall t :: Numberable(e, t) <==> Numberable(NumberOne(e, s), t)
  {
    var e1 := Set(e, s, Get(e, s).(order := Some(e.lastMonitor)));
    var r := NumberOne(e, s);
    NumberOneEffect(e, s);
    forall t ensures Present(e, t) <==> Present(r, t) {
      if t.InRow? {
        assert RowOf(r, t.row) == RowOf(e1, t.row);
        assert SameLayout(RowOf(e, t.row), RowOf(e1, t.row));
      }
    }
  }

  /** Numbering mounts or unmounts nothing. */
  lemma {:induction false} AssignOrdersKeepsNumberable(e: State, slots: seq<Slot>)
    ensures forall t :: Numberable(e, t) <==> Numberable(AssignOrders(e, slots).state, t)
    decreases |slots|
  {
    if slots != [] && Numberable(e, slots[0]) {
      NumberOneKeepsNumberable(e, slots[0]);
      AssignOrdersKeepsNumberable(NumberOne(e, slots[0]), slots[1..]);
    }
  }

  /**
   * The counter advances by the number of slots numbered, which is all of them
   * exactly when the run completed.
   */
  lemma {:induction false} AssignOrdersCount(e: State, slots: seq<Slot>)
    ensures var o := AssignOrders(e, slots);
            var k := o.state.lastMonitor - e.lastMonitor;
            0 <= k <= |slots| && (o.completed <==> k == |slots|)
    decreases |slots|
  {
    if slots != [] && Numberable(e, slots[0]) {
      var e1 := NumberOne(e, slots[0]);
      NumberOneEffect(e, slots[0]);
      AssignOrdersCount(e1, slots[1..]);
    }
  }

  /**
   * Numbering `slots` numbers a prefix of them: every widget of the prefix could be
   * numbered, and when the run did not complete the next slot is the one that threw.
   */
  lemma {:induction false} AssignOrdersPrefix(e: State, slots: seq<Slot>)
    ensures var o := AssignOrders(e, slots);
            var k := o.state.lastMonitor - e.lastMonitor;
            && 0 <= k <= |slots|
            && (o.completed <==> k == |slots|)
            && (forall j :: 0 <= j < k ==> Numberable(e, slots[j]))
            && (!o.completed ==> !Numberable(e, slots[k]))
    decreases |slots|
  {
    AssignOrdersCount(e, slots);
    if slots != [] && Numberable(e, slots[0]) {
      var e1 := NumberOne(e, slots[0]);
      NumberOneEffect(e, slots[0]);
      NumberOneKeepsNumberable(e, slots[0]);
      AssignOrdersPrefix(e1, slots[1..]);
      var o := AssignOrders(e, slots);
      assert o == AssignOrders(e1, slots[1..]);
      var k := o.state.lastMonitor - e.lastMonitor;
      forall j | 0 <= j < k ensures Numberable(e, slots[j]) {
        if j > 0 {
          assert slots[j] == slots[1..][j - 1];
        }
      }
      if !o.completed {
        assert slots[k] == slots[1..][k - 1];
      }
    }
  }

  /** The run completes exactly when every slot it is given can be numbered. */
  lemma AssignOrdersCompletes(e: State, slots: seq<Slot>)
    ensures AssignOrders(e, slots).completed <==> forall j :: 0 <= j < |slots| ==> Numberable(e, slots[j])
    ensures AssignOrders(e, slots).completed ==> AssignOrders(e, slots).state.lastMonitor == e.lastMonitor + |slots|
  {
    AssignOrdersPrefix(e, slots);
  }

  /** A widget that is not among the numbered prefix is left as it was. */
  lemma {:induction false} AssignOrdersUntouched(e: State, slots: seq<Slot>, t: Slot)
    requires Present(e, t)
    ensures var o := AssignOrders(e, slots);
            var k := o.state.lastMonitor - e.lastMonitor;
            (forall j :: 0 <= j < k && j < |slots| ==> slots[j] != t) ==> Present(o.state, t) && Get(o.state, t) == Get(e, t)
    decreases |slots|
  {
    if slots != [] && Numberable(e, slots[0]) {
      var e1 := NumberOne(e, slots[0]);
      NumberOneEffect(e, slots[0]);
      AssignOrdersCount(e1, slots[1..]);
      var o := AssignOrders(e, slots);
      assert o == AssignOrders(e1, slots[1..]);
      var k := o.state.lastMonitor - e.lastMonitor;
      if forall j :: 0 <= j < k && j < |slots| ==> slots[j] != t {
        assert k >= 1;
        assert slots[0] != t;
        AssignOrdersUntouched(e1, slots[1..], t);
        forall j | 0 <= j < k - 1 && j < |slots[1..]| ensures slots[1..][j] != t {
          assert slots[1..][j] == slots[j + 1];
        }
      }
    }
  }

  /** The first slot, when it can be numbered, keeps the first number to the end. */
  lemma FirstSlotNumbered(e: State, slots: seq<Slot>)
    requires Distinct(slots) && slots != [] && Numberable(e, slots[0])
    ensures var o := AssignOrders(e, slots);
            Present(o.state, slots[0]) && Get(o.state, slots[0]).order == Some(e.lastMonitor)
  {
    var s := slots[0];
    var e1 := NumberOne(e, s);
    var rest := slots[1..];
    assert AssignOrders(e, slots) == AssignOrders(e1, rest);
    NumberOneEffect(e, s);
    AssignOrdersUntouched(e1, rest, s);
    forall i | 0 <= i < |rest| ensures rest[i] != s {
      assert rest[i] == slots[i + 1];
    }
  }

  /** With distinct slots, the `j`-th numbered widget gets order `lastMonitor + j`. */
  lemma {:induction false} AssignOrdersNumbers(e: State, slots: seq<Slot>)
    requires Distinct(slots)
    ensures var o := AssignOrders(e, slots);
            var k := o.state.lastMonitor - e.lastMonitor;
            forall j :: 0 <= j < k && j < |slots| ==>
              Present(o.state, slots[j]) && Get(o.state, slots[j]).order == Some(e.lastMonitor + j)
    decreases |slots|
  {
    if slots != [] && Numberable(e, slots[0]) {
      var e1 := NumberOne(e, slots[0]);
      var rest := slots[1..];
      var o := AssignOrders(e, slots);
      assert o == AssignOrders(e1, rest);
      assert e1.lastMonitor == e.lastMonitor + 1;
      var k := o.state.lastMonitor - e.lastMonitor;
      AssignOrdersNumbers(e1, rest);
      FirstSlotNumbered(e, slots);
      forall j | 1 <= j < k && j < |slots| ensures Present(o.state, slots[j]) && Get(o.state, slots[j]).order == Some(e.lastMonitor + j) {
        assert slots[j] == rest[j - 1];
      }
    }
  }

  lemma {:induction false} GpuOrderSlotsDistinct(gpus: seq<Option<Widget>>, n: nat)
    requires n <= |gpus|
    ensures Distinct(GpuOrderSlots(gpus, n))
    ensures forall j :: 0 <= j < |GpuOrderSlots(gpus, n)| ==>
              GpuOrderSlots(gpus, n)[j].InRow? && GpuOrderSlots(gpus, n)[j].index < n
    decreases n
  {
    if n > 0 {
      GpuOrderSlotsDistinct(gpus, n - 1);
    }
  }

  lemma OrderSlotsDistinct(e: State)
    ensures Distinct(OrderSlots(e))
    ensures OrderSlots(e)[0] == Cpu && OrderSlots(e)[1] == Ram && OrderSlots(e)[|OrderSlots(e)| - 1] == Hdd
  {
    GpuOrderSlotsDistinct(e.gpus, |e.gpus|);
  }

  /**
   * `orderMonitors` numbers CPU, RAM, the GPU widgets and HDD with consecutive
   * orders from `lastMonitor`, and leaves the counter past them, when every one of
   * them is mounted; when one throws, the HDD widget keeps its old order.
   */
  lemma OrderMonitorsEffect(e: State)
    ensures var o := AssignOrders(e, OrderSlots(e));
            var n := |OrderSlots(e)|;
            && (o.completed <==> forall j :: 0 <= j < n ==> Numberable(e, OrderSlots(e)[j]))
            && (o.completed ==>
                  && o.state.lastMonitor == e.lastMonitor + n
                  && Get(o.state, Cpu).order == Some(e.lastMonitor)
                  && Get(o.state, Ram).order == Some(e.lastMonitor + 1)
                  && Get(o.state, Hdd).order == Some(e.lastMonitor + n - 1)
                  && (forall j :: 0 <= j < n ==>
                        Present(o.state, OrderSlots(e)[j]) && Get(o.state, OrderSlots(e)[j]).order == Some(e.lastMonitor + j)))
            && (!o.completed ==> Get(o.state, Hdd) == Get(e, Hdd))
  {
    var slots := OrderSlots(e);
    OrderSlotsDistinct(e);
    AssignOrdersCompletes(e, slots);
    AssignOrdersPrefix(e, slots);
    AssignOrdersNumbers(e, slots);
    AssignOrdersUntouched(e, slots, Hdd);
  }

  /**
   * A GPU index whose usage widget is stored but whose VRAM widget is missing makes
   * `orderMonitors` throw before the HDD widget.
   */
  lemma MissingVramStopsNumbering(e: State, i: nat)
    requires i < |e.gpus| && e.gpus[i].Some?
    requires !Present(e, InRow(VramRow, i))
    ensures !AssignOrders(e, OrderSlots(e)).completed
  {
    OrderSlotsStep(e, i);
    var done := [Cpu, Ram] + GpuOrderSlots(e.gpus, i);
    var slots := OrderSlots(e);
    assert (done + [InRow(GpuRow, i)]) + [InRow(VramRow, i)] <= slots;
    assert slots[|done| + 1] == InRow(VramRow, i);
    AssignOrdersCompletes(e, slots);
  }
}
