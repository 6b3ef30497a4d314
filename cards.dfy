/**
 * The mobile card layout: each card of the page is collapsed or expanded,
 * and on a narrow screen at most one of them is expanded at a time. Whether
 * the screen is narrow (`isMobile()`) is the parameter `mobile` of each
 * event, since it is read from the window's width.
 */
module Cards {

  /** No two cards are expanded at once. */
  predicate AtMostOneExpanded(expanded: seq<bool>) {
    forall i, j :: 0 <= i < |expanded| && 0 <= j < |expanded| && expanded[i] && expanded[j] ==> i == j
  }

  function AllCollapsed(n: nat): (r: seq<bool>)
    ensures |r| == n && forall i :: 0 <= i < n ==> !r[i]
  {
    seq(n, _ => false)
  }

  /** `toggleCard(card k)`. */
  function AfterToggle(expanded: seq<bool>, k: nat, mobile: bool): (r: seq<bool>)
    requires k < |expanded|
    ensures |r| == |expanded|
    ensures mobile ==> r[k] == !expanded[k]
    ensures !mobile ==> r == expanded
  {
    if !mobile then expanded
    else if expanded[k] then expanded[k := false]
    else seq(|expanded|, i => i == k)
  }

  /**
   * A click on card `k`: on a narrow screen it toggles the card, except when
   * the click lands on a control of a card that is already expanded.
   */
  function AfterCardClick(expanded: seq<bool>, k: nat, mobile: bool, onControl: bool): (r: seq<bool>)
    requires k < |expanded|
    ensures |r| == |expanded|
    ensures !mobile || (onControl && expanded[k]) ==> r == expanded
  {
    if !mobile then expanded
    else if onControl && expanded[k] then expanded
    else AfterToggle(expanded, k, mobile)
  }

  /** A click anywhere in the document: on a narrow screen, one outside every card collapses them all. */
  function AfterDocumentClick(expanded: seq<bool>, mobile: bool, insideCard: bool): (r: seq<bool>)
    ensures |r| == |expanded|
    ensures mobile && !insideCard ==> forall i :: 0 <= i < |r| ==> !r[i]
    ensures !mobile || insideCard ==> r == expanded
  {
    if mobile && !insideCard then AllCollapsed(|expanded|) else expanded
  }

  /** A resize: a window that is no longer narrow collapses every card. */
  function AfterResize(expanded: seq<bool>, mobile: bool): (r: seq<bool>)
    ensures |r| == |expanded|
    ensures !mobile ==> forall i :: 0 <= i < |r| ==> !r[i]
    ensures mobile ==> r == expanded
  {
    if !mobile then AllCollapsed(|expanded|) else expanded
  }

  /**
   * On a narrow screen `toggleCard` flips card `k` and leaves at most one card
   * expanded; on a wide screen it changes nothing.
   */
  lemma ToggleLeavesAtMostOne(expanded: seq<bool>, k: nat, mobile: bool)
    requires k < |expanded| && AtMostOneExpanded(expanded)
    ensures AtMostOneExpanded(AfterToggle(expanded, k, mobile))
    ensures mobile ==> AfterToggle(expanded, k, mobile)[k] == !expanded[k]
    ensures mobile && !expanded[k] ==>
      forall i :: 0 <= i < |expanded| ==> (AfterToggle(expanded, k, mobile)[i] <==> i == k)
    ensures !mobile ==> AfterToggle(expanded, k, mobile) == expanded
  {
  }

  /**
   * Collapsing an expanded card that was the only one leaves none expanded, so
   * on a narrow screen a second toggle of a card the first one expanded
   * undoes it exactly when nothing else had been expanded.
   */
  lemma ToggleTwice(expanded: seq<bool>, k: nat)
    requires k < |expanded| && AtMostOneExpanded(expanded)
    ensures AfterToggle(AfterToggle(expanded, k, true), k, true) == expanded
      <==> (forall i :: 0 <= i < |expanded| ==> !expanded[i]) || expanded[k]
  {
    var once := AfterToggle(expanded, k, true);
    var twice := AfterToggle(once, k, true);
    if expanded[k] {
      assert twice == seq(|expanded|, i => i == k);
      assert twice == expanded;
    } else if forall i :: 0 <= i < |expanded| ==> !expanded[i] {
      assert twice == expanded;
    } else {
      var j :| 0 <= j < |expanded| && expanded[j];
      assert twice[j] != expanded[j];
    }
  }

  /** Every card event keeps at most one card expanded. */
  lemma EventsKeepAtMostOne(expanded: seq<bool>, k: nat, mobile: bool, onControl: bool, insideCard: bool)
    requires k < |expanded| && AtMostOneExpanded(expanded)
    ensures AtMostOneExpanded(AfterCardClick(expanded, k, mobile, onControl))
    ensures AtMostOneExpanded(AfterDocumentClick(expanded, mobile, insideCard))
    ensures AtMostOneExpanded(AfterResize(expanded, mobile))
  {
    ToggleLeavesAtMostOne(expanded, k, mobile);
  }

  class CardDeck {
    /** Whether each card has the `expanded` class, in document order. */
    const expanded: array<bool>

    ghost predicate Valid()
      reads this, expanded
    {
      AtMostOneExpanded(expanded[..])
    }

    /** The page's cards, in whatever layout they start, as long as at most one is expanded. */
    constructor (initial: seq<bool>)
      requires AtMostOneExpanded(initial)
      ensures Valid() && fresh(expanded)
      ensures expanded[..] == initial
    {
      expanded := new bool[|initial|](i requires 0 <= i < |initial| => initial[i]);
      new;
      assert expanded[..] == initial;
    }

    /** `closeAllCards()`. */
    method CloseAll()
      modifies expanded
      ensures Valid()
      ensures expanded[..] == AllCollapsed(expanded.Length)
    {
      var i := 0;
      while i < expanded.Length
        invariant 0 <= i <= expanded.Length
        invariant forall j :: 0 <= j < i ==> !expanded[j]
      {
        expanded[i] := false;
        i := i + 1;
      }
      assert expanded[..] == AllCollapsed(expanded.Length);
    }

    /** `toggleCard(card k)`. */
    method ToggleCard(k: nat, mobile: bool)
      requires Valid() && k < expanded.Length
      modifies expanded
      ensures Valid()
      ensures expanded[..] == AfterToggle(old(expanded[..]), k, mobile)
    {
      if !mobile {
        return;
      }
      ghost var before := expanded[..];
      var isExpanded := expanded[k];
      if isExpanded {
        expanded[k] := false;
        assert expanded[..] == before[k := false];
      } else {
        CloseAll();
        expanded[k] := true;
        assert expanded[..] == seq(|before|, i => i == k);
      }
      ToggleLeavesAtMostOne(before, k, mobile);
    }

    /** The click handler of card `k`; `onControl` says the click hit a button or input on it. */
    method CardClicked(k: nat, mobile: bool, onControl: bool)
      requires Valid() && k < expanded.Length
      modifies expanded
      ensures Valid()
      ensures expanded[..] == AfterCardClick(old(expanded[..]), k, mobile, onControl)
    {
      if !mobile {
        return;
      }
      if onControl && expanded[k] {
        return;
      }
      ToggleCard(k, mobile);
    }

    /** The document's click handler; `insideCard` says the click hit some card. */
    method DocumentClicked(mobile: bool, insideCard: bool)
      requires Valid()
      modifies expanded
      ensures Valid()
      ensures expanded[..] == AfterDocumentClick(old(expanded[..]), mobile, insideCard)
    {
      if !mobile {
        return;
      }
      if !insideCard {
        CloseAll();
      }
    }

    /** The window's resize handler. */
    method Resized(mobile: bool)
      requires Valid()
      modifies expanded
      ensures Valid()
      ensures expanded[..] == AfterResize(old(expanded[..]), mobile)
    {
      if !mobile {
        CloseAll();
      }
    }
  }
}
