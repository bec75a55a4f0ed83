/**
 * One bar widget (a `TMonitorSettings` record together with the elements
 * `createMonitor` hangs on it) and one stats snapshot (`TStatsData`).
 */
module Widgets {
  import opened Opt
  import opened JsText

  /** A byte reading shown in a tooltip: used, total and the recorded peak. */
  datatype ByteReading = ByteReading(used: int, total: int, max: int)

  /**
   * The `title` attribute of the widget's main element. `Static` is what
   * `createMonitor` puts there; `Reading` is what `updateMonitor` writes: its
   * text (optional title prefix and the label) and, for widgets that report
   * bytes, the reading the text ` - {used} / {total} Max: {max}` is formatted from.
   */
  datatype Tooltip = Static(text: string) | Reading(text: string, bytes: Option<ByteReading>)

  /** The slider's inline `transition`: none, or `transform {tenths/10}s linear`. */
  datatype Transition = NoTransition | TransformLinear(tenths: int)

  /** The main element's inline `display`. */
  datatype Display = DisplayUnset | Flex | DisplayNone

  datatype Widget = Widget(
    // the settings record, written by the settings module and only read here
    symbol: string,
    monitorTitle: string,     // "" when the record has no monitorTitle
    settingsTitle: string,    // the record's `title`, "" when absent
    hasFinalColor: bool,      // the record has a `cssColorFinal`
    // the rendering surface; `mounted` stands for the three element references
    mounted: bool,
    tooltip: Tooltip,
    labelText: string,
    fillScale: Option<real>,  // argument of the slider's scaleX, None before the first write
    transition: Transition,
    bgMix: Option<int>,       // Some(p): slider background is color-mix(final p%, start); None: plain colour
    display: Display,
    order: Option<int>,       // the main element's style.order
    // the render cache
    lastPercent: Option<int>,
    lastUsed: Option<int>,
    lastTotal: Option<int>,
    lastTempColor: Option<int>)

  /**
   * `createMonitor`: fresh elements replace whatever was there. The tooltip is the
   * record's title, the label reads "0%", the slider has no transform and no inline
   * transition, and its background is the plain colour or a 0% colour mix. The render
   * cache is left as it was.
   */
  function Mount(w: Widget): (r: Widget)
    ensures r.mounted && r.labelText == "0%" && r.fillScale.None? && r.transition.NoTransition?
    ensures r.bgMix == (if w.hasFinalColor then Some(0) else None)
    ensures r.tooltip == Static(w.settingsTitle) && r.display == DisplayUnset && r.order.None?
    ensures (r.symbol, r.monitorTitle, r.settingsTitle, r.hasFinalColor) == (w.symbol, w.monitorTitle, w.settingsTitle, w.hasFinalColor)
    ensures (r.lastPercent, r.lastUsed, r.lastTotal, r.lastTempColor) == (w.lastPercent, w.lastUsed, w.lastTotal, w.lastTempColor)
  {
    w.(mounted := true, tooltip := Static(w.settingsTitle), labelText := "0%", fillScale := None,
       transition := NoTransition, bgMix := if w.hasFinalColor then Some(0) else None,
       display := DisplayUnset, order := None)
  }

  /** `_invalidateMonitorCaches` on one record. */
  function ClearCaches(w: Widget): (r: Widget)
    ensures r.lastPercent.None? && r.lastUsed.None? && r.lastTotal.None? && r.lastTempColor.None?
    ensures r.(lastPercent := w.lastPercent, lastUsed := w.lastUsed, lastTotal := w.lastTotal, lastTempColor := w.lastTempColor) == w
  {
    w.(lastPercent := None, lastUsed := None, lastTotal := None, lastTempColor := None)
  }

  /** `Math.min(flooredPercent / 100, 1)`, the slider's scale. */
  function FillFraction(flooredPercent: nat): (f: real)
    ensures 0.0 <= f <= 1.0
    ensures flooredPercent <= 100 ==> f * 100.0 == flooredPercent as real
    ensures flooredPercent >= 100 ==> f == 1.0
  {
    var f := flooredPercent as real / 100.0;
    if f < 1.0 then f else 1.0
  }

  /** `monitorTitle ? monitorTitle + ' - ' : ''`. */
  function TitlePrefix(monitorTitle: string): string
  {
    if monitorTitle != "" then monitorTitle + " - " else ""
  }

  /**
   * The key of the peak map: `parseInt(monitorTitle?.split(':')[0] || '0')`.
   * `None` is the key `NaN` that a title without a leading number produces.
   */
  function PeakKey(monitorTitle: string): Option<int>
  {
    var head := BeforeColon(monitorTitle);
    ParseInt(if head == "" then "0" else head)
  }

  datatype GpuStats = GpuStats(
    gpuUtilization: real,
    gpuTemperature: real,
    vramUsedPercent: real,
    vramUsed: Option<int>,
    vramTotal: Option<int>)

  /** One snapshot pushed by the backend. `gpus` is None when the field is missing. */
  datatype Stats = Stats(
    cpuUtilization: real,
    ramUsedPercent: real,
    ramUsed: Option<int>,
    ramTotal: Option<int>,
    hddUsedPercent: real,
    hddUsed: Option<int>,
    hddTotal: Option<int>,
    gpus: Option<seq<GpuStats>>)
}
