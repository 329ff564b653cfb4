/**
 * `useChartTooltip`: the floating tooltip's position and the holding under
 * the cursor. The window width is an explicit argument of the move
 * handler.
 */
module ChartTooltip {
  import opened Wrappers
  import opened PortfolioTypes

  /** The tooltip's assumed width, in pixels. */
  const TOOLTIP_WIDTH: int := 200
  /** Distance of the tooltip from the cursor, in pixels. */
  const CURSOR_OFFSET: int := 15

  datatype MousePosition = MousePosition(x: int, y: int)

  /**
   * Where the tooltip is placed for a cursor at (clientX, clientY): below
   * and to the right, or to the left when it would run past the right edge.
   */
  function TooltipAnchor(clientX: int, clientY: int, innerWidth: int): (p: MousePosition)
    ensures p.y == clientY + CURSOR_OFFSET
    ensures clientX + CURSOR_OFFSET + TOOLTIP_WIDTH <= innerWidth ==> p.x == clientX + CURSOR_OFFSET
    ensures clientX + CURSOR_OFFSET + TOOLTIP_WIDTH > innerWidth ==> p.x + TOOLTIP_WIDTH + CURSOR_OFFSET == clientX
  {
    var x := clientX + CURSOR_OFFSET;
    if x + TOOLTIP_WIDTH > innerWidth then
      MousePosition(clientX - TOOLTIP_WIDTH - CURSOR_OFFSET, clientY + CURSOR_OFFSET)
    else
      MousePosition(x, clientY + CURSOR_OFFSET)
  }

  /** Unflipped, the tooltip fits inside the window; flipped, it ends left of the cursor. */
  lemma AnchorFits(clientX: int, clientY: int, innerWidth: int)
    ensures var p := TooltipAnchor(clientX, clientY, innerWidth);
      (p.x > clientX ==> p.x + TOOLTIP_WIDTH <= innerWidth)
      && (p.x < clientX ==> p.x + TOOLTIP_WIDTH < clientX)
      && p.x != clientX
  {
  }

  /** The flip is strict: a tooltip that would end exactly on the edge stays on the right. */
  lemma AnchorAtEdge(clientY: int, innerWidth: int)
    ensures TooltipAnchor(innerWidth - 215, clientY, innerWidth).x == innerWidth - 200
    ensures TooltipAnchor(innerWidth - 214, clientY, innerWidth).x == innerWidth - 429
  {
  }

  /** Nothing clamps the flipped position: near the left edge of a narrow window it is negative. */
  lemma AnchorMayBeNegative()
    ensures TooltipAnchor(200, 100, 300) == MousePosition(-15, 115)
  {
  }

  class TooltipState {
    var mousePosition: MousePosition
    var hoveredAsset: Option<HoldingAsset>

    /** At first the position is the origin and nothing is hovered. */
    constructor()
      ensures mousePosition == MousePosition(0, 0) && hoveredAsset.None?
    {
      mousePosition := MousePosition(0, 0);
      hoveredAsset := None;
    }

    /** `handlePieMouseEnter`: a field-by-field copy of the holding becomes the hovered one. */
    method HandlePieMouseEnter(data: HoldingAsset)
      modifies this
      ensures hoveredAsset == Some(data)
      ensures mousePosition == old(mousePosition)
    {
      var copy := HoldingAsset(data.asset, data.assetAmount, data.gainAmount, data.gainRatio, data.holdingRatio);
      hoveredAsset := Some(copy);
    }

    /** `handleChartMouseMove`: the tooltip follows the cursor; the hovered holding stays. */
    method HandleChartMouseMove(clientX: int, clientY: int, innerWidth: int)
      modifies this
      ensures mousePosition == TooltipAnchor(clientX, clientY, innerWidth)
      ensures hoveredAsset == old(hoveredAsset)
    {
      var x := clientX + CURSOR_OFFSET;
      var y := clientY + CURSOR_OFFSET;
      if x + TOOLTIP_WIDTH > innerWidth {
        x := clientX - TOOLTIP_WIDTH - CURSOR_OFFSET;
      }
      mousePosition := MousePosition(x, y);
    }

    /** `handleChartMouseLeave`: nothing is hovered; the position is kept. */
    method HandleChartMouseLeave()
      modifies this
      ensures hoveredAsset.None?
      ensures mousePosition == old(mousePosition)
    {
      hoveredAsset := None;
    }
  }
}
