/**
 * The holding list: the holdings in display order, one card each, with the
 * flags every card derives from the focused position.
 */
module AssetList {
  import opened Wrappers
  import opened PortfolioTypes
  import opened AssetUtils

  /** What one card is given. `onClick` is the index the card reports, if it reports any. */
  datatype CardProps = CardProps(
    asset: HoldingAsset,
    colorIndex: nat,
    isFocused: bool,
    isDimmed: bool,
    onClick: Option<nat>
  )

  /** The card for the holding at sorted position index. */
  function CardAt(sorted: seq<HoldingAsset>, focusedIndex: Option<nat>, hasHandler: bool, index: nat): CardProps
    requires index < |sorted|
  {
    CardProps(
      sorted[index],
      index,
      focusedIndex == Some(index),
      focusedIndex.Some? && focusedIndex.value != index,
      if hasHandler then Some(index) else None)
  }

  /** The cards of the list, in display order; hasHandler says whether `onAssetClick` is supplied. */
  function AssetListCards(holdings: seq<HoldingAsset>, focusedIndex: Option<nat>, hasHandler: bool): (cards: seq<CardProps>)
    ensures |cards| == |holdings|
    ensures forall i :: 0 <= i < |cards| ==> cards[i] == CardAt(SortAssetsByHoldingRatio(holdings), focusedIndex, hasHandler, i)
  {
    var sorted := SortAssetsByHoldingRatio(holdings);
    seq(|sorted|, i requires 0 <= i < |sorted| => CardAt(sorted, focusedIndex, hasHandler, i))
  }

  /**
   * Cards come in stably sorted order, largest holding ratio first, hold
   * exactly the input holdings, and each card's colour index is its
   * position; a click reports that position.
   */
  lemma CardsInDisplayOrder(holdings: seq<HoldingAsset>, focusedIndex: Option<nat>, hasHandler: bool)
    ensures var cards := AssetListCards(holdings, focusedIndex, hasHandler);
      && (forall i, j :: 0 <= i < j < |cards| ==> cards[i].asset.holdingRatio >= cards[j].asset.holdingRatio)
      && multiset(seq(|cards|, i requires 0 <= i < |cards| => cards[i].asset)) == multiset(holdings)
      && (forall i :: 0 <= i < |cards| ==> cards[i].colorIndex == i)
      && (forall i :: 0 <= i < |cards| ==> cards[i].onClick == if hasHandler then Some(i) else None)
  {
    var cards := AssetListCards(holdings, focusedIndex, hasHandler);
    var sorted := SortAssetsByHoldingRatio(holdings);
    SortPermutes(holdings);
    SortIsSorted(holdings);
    var shown := seq(|cards|, i requires 0 <= i < |cards| => cards[i].asset);
    assert shown == sorted;
    forall i, j | 0 <= i < j < |cards|
      ensures cards[i].asset.holdingRatio >= cards[j].asset.holdingRatio
    {
      assert Compare(sorted[i], sorted[j]) <= 0;
    }
  }

  /** Card i is focused iff the focus is i, and dimmed iff the focus is some other position. */
  lemma CardFlags(holdings: seq<HoldingAsset>, focusedIndex: Option<nat>, hasHandler: bool, i: nat)
    requires i < |holdings|
    ensures var card := AssetListCards(holdings, focusedIndex, hasHandler)[i];
      && (card.isFocused <==> focusedIndex == Some(i))
      && (card.isDimmed <==> exists j :: focusedIndex == Some(j) && j != i)
      && !(card.isFocused && card.isDimmed)
      && (focusedIndex.None? ==> !card.isFocused && !card.isDimmed)
  {
    var card := AssetListCards(holdings, focusedIndex, hasHandler)[i];
    if focusedIndex.Some? && focusedIndex.value != i {
      assert focusedIndex == Some(focusedIndex.value);
    }
  }

  /** At most one card is focused. */
  lemma AtMostOneFocused(holdings: seq<HoldingAsset>, focusedIndex: Option<nat>, hasHandler: bool, i: nat, j: nat)
    requires i < |holdings| && j < |holdings|
    requires AssetListCards(holdings, focusedIndex, hasHandler)[i].isFocused
    requires AssetListCards(holdings, focusedIndex, hasHandler)[j].isFocused
    ensures i == j
  {
    CardFlags(holdings, focusedIndex, hasHandler, i);
    CardFlags(holdings, focusedIndex, hasHandler, j);
  }

  /** With the focus on a real position, exactly that card is focused and every other one is dimmed. */
  lemma FocusInRange(holdings: seq<HoldingAsset>, k: nat, hasHandler: bool)
    requires k < |holdings|
    ensures var cards := AssetListCards(holdings, Some(k), hasHandler);
      && cards[k].isFocused && !cards[k].isDimmed
      && (forall i :: 0 <= i < |cards| && i != k ==> !cards[i].isFocused && cards[i].isDimmed)
  {
  }

  /** With the focus past the end, no card is focused and every card is dimmed. */
  lemma FocusOutOfRange(holdings: seq<HoldingAsset>, k: nat, hasHandler: bool)
    requires k >= |holdings|
    ensures var cards := AssetListCards(holdings, Some(k), hasHandler);
      forall i :: 0 <= i < |cards| ==> !cards[i].isFocused && cards[i].isDimmed
  {
  }
}
