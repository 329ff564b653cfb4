/**
 * The doughnut chart, for the part that is decided by its inputs: the
 * segments in display order with their colour and focus flag, the click
 * index of a segment, whether the centre clears the focus, the colour of
 * the gain figures, the sizes per breakpoint and whether the floating
 * tooltip is shown.
 */
module PortfolioChart {
  import opened Wrappers
  import opened PortfolioTypes
  import opened AssetUtils
  import opened Formatters
  import opened GainStatusStyles
  import Breakpoint
  import AssetList
  import ChartTooltip

  /** Radii and centre size of the chart for one breakpoint, in pixels. */
  datatype ChartSize = ChartSize(innerRadius: int, outerRadius: int, centerSize: int)

  const CHART_SIZES: map<Breakpoint.Breakpoint, ChartSize> := map[
    Breakpoint.Mobile := ChartSize(90, 130, 180),
    Breakpoint.Tablet := ChartSize(110, 160, 220),
    Breakpoint.Desktop := ChartSize(130, 190, 260)
  ]

  /** Every breakpoint has a size; the centre exactly covers the hole, and wider screens get a larger chart. */
  lemma ChartSizesWellFormed()
    ensures forall bp :: bp in CHART_SIZES
    ensures forall bp :: bp in CHART_SIZES ==>
      0 < CHART_SIZES[bp].innerRadius < CHART_SIZES[bp].outerRadius
      && CHART_SIZES[bp].centerSize == 2 * CHART_SIZES[bp].innerRadius
    ensures forall a, b :: a in CHART_SIZES && b in CHART_SIZES && Breakpoint.Rank(a) < Breakpoint.Rank(b) ==>
      CHART_SIZES[a].outerRadius < CHART_SIZES[b].outerRadius
  {
    forall bp: Breakpoint.Breakpoint ensures bp in CHART_SIZES {
      assert bp == Breakpoint.Mobile || bp == Breakpoint.Tablet || bp == Breakpoint.Desktop;
    }
  }

  /** One pie segment. `fill` is None when the palette is empty (`chartColors[NaN]`). */
  datatype ChartSegment = ChartSegment(
    name: string,
    value: int,
    holding: HoldingAsset,
    fill: Option<string>,
    focused: bool,
    onClick: Option<nat>
  )

  /** A segment is drawn at full opacity when nothing is focused or it is the focused one. */
  predicate IsSegmentFocused(focusedIndex: Option<nat>, index: nat)
  {
    focusedIndex.None? || focusedIndex == Some(index)
  }

  /** The centre clears the focus only while something is focused and a clear handler is supplied. */
  predicate IsCenterClickable(focusedIndex: Option<nat>, hasClearHandler: bool)
  {
    focusedIndex.Some? && hasClearHandler
  }

  /** The palette colour of segment index: the palette repeats. */
  function SegmentFill(palette: seq<string>, index: nat): (fill: Option<string>)
    ensures palette == [] <==> fill.None?
    ensures palette != [] ==> fill == Some(palette[index % |palette|])
  {
    if palette == [] then None else Some(palette[index % |palette|])
  }

  function SegmentAt(sorted: seq<HoldingAsset>, focusedIndex: Option<nat>, palette: seq<string>,
                     hasSegmentHandler: bool, index: nat): ChartSegment
    requires index < |sorted|
  {
    ChartSegment(
      sorted[index].asset.tickerSymbol,
      sorted[index].holdingRatio,
      sorted[index],
      SegmentFill(palette, index),
      IsSegmentFocused(focusedIndex, index),
      if hasSegmentHandler then Some(index) else None)
  }

  /** `chartData` with its cells: one segment per holding, in display order. */
  function ChartData(holdings: seq<HoldingAsset>, focusedIndex: Option<nat>, palette: seq<string>,
                     hasSegmentHandler: bool): (segments: seq<ChartSegment>)
    ensures |segments| == |holdings|
    ensures forall i :: 0 <= i < |segments| ==>
      segments[i] == SegmentAt(SortAssetsByHoldingRatio(holdings), focusedIndex, palette, hasSegmentHandler, i)
  {
    var sorted := SortAssetsByHoldingRatio(holdings);
    seq(|sorted|, i requires 0 <= i < |sorted| => SegmentAt(sorted, focusedIndex, palette, hasSegmentHandler, i))
  }

  /**
   * Segment i shows the same holding as card i of the list, reports the
   * same index when clicked, and is at full opacity exactly when card i is
   * not dimmed.
   */
  lemma SegmentsMatchCards(holdings: seq<HoldingAsset>, focusedIndex: Option<nat>, palette: seq<string>,
                           hasHandler: bool, i: nat)
    requires i < |holdings|
    ensures var segment := ChartData(holdings, focusedIndex, palette, hasHandler)[i];
      var card := AssetList.AssetListCards(holdings, focusedIndex, hasHandler)[i];
      && segment.holding == card.asset
      && segment.onClick == card.onClick
      && (segment.focused <==> !card.isDimmed)
      && segment.value == segment.holding.holdingRatio
      && segment.name == segment.holding.asset.tickerSymbol
  {
  }

  /**
   * Without a focus every segment is at full opacity; with a focus, exactly
   * the focused segment is.
   */
  lemma FocusedSegments(holdings: seq<HoldingAsset>, focusedIndex: Option<nat>, palette: seq<string>,
                        hasHandler: bool, j: nat)
    requires j < |holdings|
    ensures var segments := ChartData(holdings, focusedIndex, palette, hasHandler);
      && (focusedIndex.None? ==> segments[j].focused)
      && (focusedIndex.Some? ==> (segments[j].focused <==> j == focusedIndex.value))
  {
  }

  /** With a non-empty palette every segment has a colour, taken from the palette at its position modulo the palette length. */
  lemma PaletteInBounds(holdings: seq<HoldingAsset>, focusedIndex: Option<nat>, palette: seq<string>,
                        hasHandler: bool, i: nat)
    requires palette != [] && i < |holdings|
    ensures var segments := ChartData(holdings, focusedIndex, palette, hasHandler);
      && segments[i].fill.Some?
      && segments[i].fill.value in palette
      && (i < |palette| ==> segments[i].fill == Some(palette[i]))
  {
    var segments := ChartData(holdings, focusedIndex, palette, hasHandler);
    var sorted := SortAssetsByHoldingRatio(holdings);
    assert segments[i] == SegmentAt(sorted, focusedIndex, palette, hasHandler, i);
    var k := i % |palette|;
    assert segments[i].fill == Some(palette[k]);
    assert palette[k] in palette;
    if i < |palette| {
      assert k == i;
    }
  }

  /** The colour class of the gain figures in the centre. */
  function GainInfoColorClass(totalGainAmount: Num): (c: string)
    ensures c == GetGainStatusColor(GetGainStatus(totalGainAmount).status)
  {
    GainStatusTablesAgree(totalGainAmount);
    GetGainStatus(totalGainAmount).colorClass
  }

  /** The floating tooltip is rendered exactly while a holding is hovered and a document exists. */
  function FloatingTooltip(hoveredAsset: Option<HoldingAsset>, hasDocument: bool, mousePosition: ChartTooltip.MousePosition):
    (tooltip: Option<(HoldingAsset, ChartTooltip.MousePosition)>)
    ensures tooltip.Some? <==> hoveredAsset.Some? && hasDocument
    ensures tooltip.Some? ==> tooltip.value.0 == hoveredAsset.value && tooltip.value.1 == mousePosition
  {
    if hoveredAsset.Some? && hasDocument then Some((hoveredAsset.value, mousePosition)) else None
  }
}
