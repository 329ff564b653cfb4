/**
 * The focus coordinator of the portfolio page: which holding (by its
 * position in the sorted display order) is focused, how clicks on the
 * cards, the chart and the rest of the document change that, and the
 * document-level click listener that exists only while something is
 * focused.
 */
module PortfolioInteractive {
  import opened Wrappers
  import PortfolioChart

  /** `handleAssetClick`: the same index again clears, any other index focuses. */
  function ToggleFocus(prev: Option<nat>, index: nat): (next: Option<nat>)
    ensures prev == Some(index) ==> next.None?
    ensures prev != Some(index) ==> next == Some(index)
    ensures next.Some? ==> next.value == index
  {
    if prev == Some(index) then None else Some(index)
  }

  /** Clicking the same index twice returns to the state before. */
  lemma ToggleInvolution(prev: Option<nat>, index: nat)
    requires prev.None? || prev == Some(index)
    ensures ToggleFocus(ToggleFocus(prev, index), index) == prev
  {
  }

  /** From another focused index a click switches straight over, never via None. */
  lemma ToggleSwitches(i: nat, j: nat)
    requires i != j
    ensures ToggleFocus(Some(i), j) == Some(j)
    ensures ToggleFocus(ToggleFocus(Some(i), j), i) == Some(i)
  {
  }

  /** Where a click lands. */
  datatype ClickTarget =
    | Card(index: nat)      // an asset card, inside the list wrapper
    | ListWrapper           // the list heading or the wrapper around the cards
    | Segment(index: nat)   // a chart segment
    | CenterHole            // the centre of the doughnut
    | ChartArea             // any other part of the chart card
    | Outside               // anywhere else on the document

  /**
   * Whether the click bubbles up to the document. The list wrapper and
   * the chart's outer element both stop propagation, so only a click
   * outside both of them does.
   */
  predicate ReachesDocument(target: ClickTarget)
  {
    target.Outside?
  }

  /** The document listener is registered exactly while a holding is focused. */
  predicate ListenerRegistered(focus: Option<nat>)
  {
    focus.Some?
  }

  /**
   * The focus after one click: the component's own handler runs first,
   * then, if the click reaches the document and the listener is
   * registered for the focus before the click, the listener clears it.
   */
  function Next(focus: Option<nat>, target: ClickTarget): (next: Option<nat>)
    ensures target.Card? || target.Segment? ==> next == ToggleFocus(focus, target.index)
    ensures target.ListWrapper? || target.ChartArea? ==> next == focus
    ensures target.CenterHole? || target.Outside? ==> next.None?
  {
    var afterHandler := match target
      case Card(i) => ToggleFocus(focus, i)
      case Segment(i) => ToggleFocus(focus, i)
      case CenterHole => if PortfolioChart.IsCenterClickable(focus, true) then None else focus
      case _ => focus;
    if ReachesDocument(target) && ListenerRegistered(focus) then None else afterHandler
  }

  /** The focus after a sequence of clicks. */
  function Run(focus: Option<nat>, clicks: seq<ClickTarget>): Option<nat>
    decreases |clicks|
  {
    if clicks == [] then focus else Run(Next(focus, clicks[0]), clicks[1..])
  }

  /** A click on a card or a segment reports its position. */
  predicate ClicksIndex(target: ClickTarget, index: nat)
  {
    (target.Card? || target.Segment?) && target.index == index
  }

  /**
   * A focused index after any sequence of clicks is the one focused at the
   * start or one that some click in the sequence selected: the state is
   * None or Some of a single clicked position.
   */
  lemma {:induction false} RunFocusWasClicked(focus: Option<nat>, clicks: seq<ClickTarget>, index: nat)
    requires Run(focus, clicks) == Some(index)
    ensures focus == Some(index) || exists k :: 0 <= k < |clicks| && ClicksIndex(clicks[k], index)
    decreases |clicks|
  {
    if clicks != [] {
      var next := Next(focus, clicks[0]);
      RunFocusWasClicked(next, clicks[1..], index);
      if next == Some(index) && focus != Some(index) {
        assert ClicksIndex(clicks[0], index);
      } else if next != Some(index) {
        var k :| 0 <= k < |clicks[1..]| && ClicksIndex(clicks[1..][k], index);
        assert ClicksIndex(clicks[k + 1], index);
      }
    }
  }

  /** Every index a sequence of clicks selects is below n. */
  predicate ClicksBelow(clicks: seq<ClickTarget>, n: nat)
  {
    forall k :: 0 <= k < |clicks| && (clicks[k].Card? || clicks[k].Segment?) ==> clicks[k].index < n
  }

  /** When every clicked position is a real one, the focus stays in range. */
  lemma {:induction false} RunStaysInRange(focus: Option<nat>, clicks: seq<ClickTarget>, n: nat)
    requires focus.Some? ==> focus.value < n
    requires ClicksBelow(clicks, n)
    ensures Run(focus, clicks).Some? ==> Run(focus, clicks).value < n
    decreases |clicks|
  {
    if clicks != [] {
      assert ClicksBelow(clicks[1..], n) by {
        forall k | 0 <= k < |clicks[1..]| && (clicks[1..][k].Card? || clicks[1..][k].Segment?)
          ensures clicks[1..][k].index < n
        {
          assert clicks[1..][k] == clicks[k + 1];
        }
      }
      RunStaysInRange(Next(focus, clicks[0]), clicks[1..], n);
    }
  }

  /** A click that ends outside both the chart and the list always clears. */
  lemma OutsideClears(focus: Option<nat>, clicks: seq<ClickTarget>)
    requires clicks != [] && clicks[|clicks| - 1].Outside?
    ensures Run(focus, clicks).None?
  {
    RunLast(focus, clicks);
  }

  /** Running a sequence is running all but its last click, then the last one. */
  lemma {:induction false} RunLast(focus: Option<nat>, clicks: seq<ClickTarget>)
    requires clicks != []
    ensures Run(focus, clicks) == Next(Run(focus, clicks[..|clicks| - 1]), clicks[|clicks| - 1])
    decreases |clicks|
  {
    if |clicks| > 1 {
      RunLast(Next(focus, clicks[0]), clicks[1..]);
      assert clicks[1..][..|clicks[1..]| - 1] == clicks[..|clicks| - 1][1..];
    } else {
      assert clicks[..0] == [];
    }
  }

  /**
   * What a click would do if the card did not stop propagation: the
   * listener, registered for the old focus, would clear the focus the
   * handler just set.
   */
  function NextWithoutStopPropagation(focus: Option<nat>, target: ClickTarget): Option<nat>
  {
    if ListenerRegistered(focus) then None
    else match target
      case Card(i) => ToggleFocus(focus, i)
      case Segment(i) => ToggleFocus(focus, i)
      case CenterHole => None
      case _ => focus
  }

  /**
   * Stopping propagation is what makes a switch from one card to another
   * possible: with it the click lands on the new card, without it the
   * focus is lost.
   */
  lemma StopPropagationKeepsSwitch(i: nat, j: nat)
    requires i != j
    ensures Next(Some(i), Card(j)) == Some(j)
    ensures NextWithoutStopPropagation(Some(i), Card(j)).None?
  {
  }

  /** The page's focus state together with the document listener. */
  class FocusCoordinator {
    var focusedIndex: Option<nat>
    var documentListener: bool

    ghost predicate Valid()
      reads this
    {
      documentListener == ListenerRegistered(focusedIndex)
    }

    /** No holding is focused and no listener is registered at first. */
    constructor()
      ensures Valid()
      ensures focusedIndex.None? && !documentListener
    {
      focusedIndex := None;
      documentListener := false;
    }

    /** The effect that runs after each change of focus: drop the old listener, add one if focused. */
    method SyncListener()
      modifies this
      ensures focusedIndex == old(focusedIndex)
      ensures Valid()
    {
      documentListener := false;
      if focusedIndex.Some? {
        documentListener := true;
      }
    }

    /** `handleAssetClick(index)`, followed by the listener effect. */
    method HandleAssetClick(index: nat)
      modifies this
      ensures focusedIndex == ToggleFocus(old(focusedIndex), index)
      ensures Valid()
    {
      focusedIndex := ToggleFocus(focusedIndex, index);
      SyncListener();
    }

    /** `handleClearFocus`, followed by the listener effect. */
    method HandleClearFocus()
      modifies this
      ensures focusedIndex.None? && !documentListener
    {
      focusedIndex := None;
      SyncListener();
    }

    /** A click anywhere on the page, routed as the page routes it. */
    method Click(target: ClickTarget)
      requires Valid()
      modifies this
      ensures focusedIndex == Next(old(focusedIndex), target)
      ensures Valid()
    {
      var listening := documentListener;
      match target {
        case Card(i) => HandleAssetClick(i);
        case Segment(i) => HandleAssetClick(i);
        case CenterHole =>
          if PortfolioChart.IsCenterClickable(focusedIndex, true) {
            HandleClearFocus();
          }
        case ListWrapper =>
        case ChartArea =>
        case Outside =>
      }
      if ReachesDocument(target) && listening {
        // the document listener
        focusedIndex := None;
        SyncListener();
      }
    }
  }
}
