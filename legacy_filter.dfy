/** The older team filter of js/scripts.js: it shows or hides the team cards
    already on the page by their `data-group` attribute, and lets each card's
    expand button open and close its details panel. */
module LegacyTeamsFilter {

  import opened Wrappers
  import ButtonGroup

  /** Whether a click on a filter button with value `filter` displays a card
      whose `data-group` attribute is `group` (`None` when the card has none). */
  predicate CardShown(filter: string, group: Option<string>)
    ensures CardShown(filter, group) && filter != "all" ==> group.Some?
  {
    filter == "all" || group == Some(filter)
  }

  /** `CardShown` spelled out for the cards `renderTeams` produces: they
      carry `data-region` but no `data-group`, so this filter keeps them only
      under "all", and any region filter hides every one of them. */
  lemma RenderedCardsOnlyShownForAll(filter: string)
    ensures CardShown(filter, None) <==> filter == "all"
    ensures forall region :: region != "all" ==> !CardShown(region, None)
  {
  }

  /** `CardShown` spelled out for a card that has a `data-group`: exactly two
      filter values show it, "all" and its own group. */
  lemma GroupedCardShownByTwoFilters(group: string, filter: string)
    ensures CardShown(filter, Some(group)) <==> filter == "all" || filter == group
  {
  }

  class CardFilter {
    /** The `data-filter` value of each filter button, in page order. */
    const filters: seq<string>
    const buttonActive: array<bool>
    /** The `data-group` attribute of each team card, in page order. */
    const groups: seq<Option<string>>
    /** Whether each card's `style.display` is `block` (true) or `none`. */
    const displayed: array<bool>

    ghost predicate Valid()
      reads this
    {
      buttonActive.Length == |filters| && displayed.Length == |groups| &&
      buttonActive != displayed
    }

    constructor (filters: seq<string>, groups: seq<Option<string>>)
      ensures Valid() && fresh(buttonActive) && fresh(displayed)
      ensures this.filters == filters && this.groups == groups
      ensures forall i :: 0 <= i < |filters| ==> !buttonActive[i]
      ensures forall j :: 0 <= j < |groups| ==> displayed[j]
    {
      this.filters, this.groups := filters, groups;
      buttonActive := new bool[|filters|](_ => false);
      displayed := new bool[|groups|](_ => true);
    }

    /** A click on filter button `k`. The handlers are only installed when the
        page has team cards; when it does, the clicked button alone becomes
        active and a card is displayed exactly when the filter shows it. */
    method Click(k: nat)
      requires Valid() && k < |filters|
      modifies buttonActive, displayed
      ensures Valid()
      ensures groups == [] ==> buttonActive[..] == old(buttonActive[..])
      ensures groups != [] ==> forall i :: 0 <= i < |filters| ==> (buttonActive[i] <==> i == k)
      ensures groups != [] ==> ButtonGroup.ExactlyOneActive(buttonActive[..])
      ensures groups != [] ==> forall j :: 0 <= j < |groups| ==> (displayed[j] <==> CardShown(filters[k], groups[j]))
      ensures groups == [] ==> displayed[..] == old(displayed[..])
    {
      if groups == [] {
        return;
      }
      ButtonGroup.ActivateOnly(buttonActive, k);
      var j := 0;
      while j < displayed.Length
        invariant 0 <= j <= displayed.Length
        invariant forall m :: 0 <= m < j ==> (displayed[m] <==> CardShown(filters[k], groups[m]))
        invariant forall i :: 0 <= i < buttonActive.Length ==> (buttonActive[i] <==> i == k)
      {
        displayed[j] := CardShown(filters[k], groups[j]);
        j := j + 1;
      }
      assert buttonActive[..][k];
    }
  }

  /** The expand button of one team card and the details panel it controls.
      The expand handlers are installed by the same initialisation as the
      filter, so only on a page with filter buttons and team cards. */
  class DetailsToggle {
    /** Whether the page had filter buttons and team cards, so that the
        button's click handler was installed. */
    const wired: bool
    /** The panel's `style.maxHeight` in pixels; `None` while it is unset. */
    var maxHeight: Option<nat>
    /** Whether the panel's `style.overflow` is `visible`. */
    var overflowVisible: bool
    /** The button text and its `aria-expanded` attribute. */
    var buttonText: string
    var ariaExpanded: bool

    /** The panel counts as open when its maximum height is set and not 0px. */
    predicate IsOpen()
      reads this
    {
      maxHeight.Some? && maxHeight.value != 0
    }

    constructor (wired: bool)
      ensures this.wired == wired && maxHeight == None && !IsOpen()
      ensures buttonText == "View Details" && !ariaExpanded
    {
      this.wired := wired;
      maxHeight, overflowVisible := None, false;
      buttonText, ariaExpanded := "View Details", false;
    }

    /** A click, which does nothing without the handler. Otherwise an open
        panel collapses to 0px, and anything else (unset or 0px) grows to the
        panel's content height. The button text and `aria-expanded` follow the
        direction of the click, so `aria-expanded` is "true" exactly when the
        text reads "Hide Details"; the panel is then open unless its content
        has no height. */
    method Click(scrollHeight: nat)
      modifies this
      ensures !wired ==> maxHeight == old(maxHeight) && overflowVisible == old(overflowVisible) &&
                         buttonText == old(buttonText) && ariaExpanded == old(ariaExpanded)
      ensures wired ==> ariaExpanded == !old(IsOpen())
      ensures wired ==> (ariaExpanded <==> buttonText == "Hide Details")
      ensures wired ==> (!ariaExpanded <==> buttonText == "View Details")
      ensures wired ==> (IsOpen() <==> ariaExpanded && scrollHeight > 0)
      ensures wired ==> overflowVisible == ariaExpanded
      ensures wired ==> maxHeight == Some(if old(IsOpen()) then 0 else scrollHeight)
    {
      if !wired {
        return;
      }
      if maxHeight.Some? && maxHeight.value != 0 {
        maxHeight := Some(0);
        overflowVisible := false;
        buttonText := "View Details";
        ariaExpanded := false;
      } else {
        maxHeight := Some(scrollHeight);
        overflowVisible := true;
        buttonText := "Hide Details";
        ariaExpanded := true;
      }
    }
  }
}
