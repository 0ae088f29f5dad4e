/** The team directory page: the grid of summary cards, the region filter
    buttons above it and the detail modal. Both script files carry this code,
    with two differences, each a flag of the class: scripts.js installs a
    focus trap on the modal each time it opens (`trapsFocus`), and
    js/scripts.js installs the filter and modal handlers only when the grid
    is on the page at load (`handlersNeedGrid`). */
module TeamDirectory {

  import opened Wrappers
  import opened Teams
  import ButtonGroup

  /** What a rendered summary card carries that the page reads back: its
      `data-team-id` and `data-region`. */
  datatype Card = Card(teamId: int, region: string)

  /** The detail modal as a state machine. */
  datatype ModalState = Closed | Open(id: int)

  /** The cards `renderTeams` produces for a list of records. */
  function CardsOf(teams: seq<Team>): (cards: seq<Card>)
    ensures |cards| == |teams|
  {
    seq(|teams|, i requires 0 <= i < |teams| => Card(teams[i].id, teams[i].region))
  }

  /** Every card a filter click renders opens its own team: its id resolves
      to the record it was rendered from, and (for a region filter) it carries
      that region. */
  lemma RenderedCardsResolve(table: seq<Team>, filter: string)
    requires UniqueIds(table)
    ensures forall i :: 0 <= i < |CardsOf(SelectTeams(table, filter))| ==>
              Find(table, CardsOf(SelectTeams(table, filter))[i].teamId) == Some(SelectTeams(table, filter)[i])
    ensures filter != AllFilter ==>
              forall c :: c in CardsOf(SelectTeams(table, filter)) ==> c.region == filter
  {
    var teams := SelectTeams(table, filter);
    FilterRegionMembers(table, filter);
    forall i | 0 <= i < |teams|
      ensures Find(table, CardsOf(teams)[i].teamId) == Some(teams[i])
    {
      assert teams[i] in teams;
      FindMember(table, teams[i]);
    }
  }

  class Directory {
    /** Which optional anchors the page has: `#teamsGrid`, `#teamModal`,
        `#modal-title` and `#modalBody`. */
    const gridPresent: bool
    const modalPresent: bool
    const titlePresent: bool
    const bodyPresent: bool
    /** Whether opening the modal also installs a focus trap on it. */
    const trapsFocus: bool
    /** Whether the filter and modal handlers are only installed on a page
        with the grid. */
    const handlersNeedGrid: bool
    /** The team table the page was built with. */
    const table: seq<Team>
    /** The `data-filter` value of each filter button, in page order. */
    const filters: seq<string>
    /** Which filter buttons carry the `active` class. */
    const filterActive: array<bool>

    /** The cards currently in the grid, in grid order. */
    var cards: seq<Card>
    /** The modal's `active` class and `aria-hidden` attribute. */
    var modalActive: bool
    var ariaHidden: bool
    /** The text of `#modal-title`, and the record whose details `#modalBody`
        holds (the markup itself is not modelled). */
    var title: string
    var shown: Option<Team>
    /** How many focus-trap keydown listeners the modal has accumulated. */
    var trapListeners: nat

    ghost predicate Valid()
      reads this
    {
      filterActive.Length == |filters| && UniqueIds(table) &&
      (modalActive <==> !ariaHidden) &&
      (modalActive ==> shown.Some?) &&
      (shown.Some? ==> Find(table, shown.value.id) == shown && title == shown.value.name)
    }

    /** Whether the filter buttons and the Escape key have handlers. */
    predicate Wired()
      reads this
    {
      !handlersNeedGrid || gridPresent
    }

    /** The modal's state as the user sees it. */
    ghost function State(): ModalState
      reads this
    {
      if modalActive && shown.Some? then Open(shown.value.id) else Closed
    }

    /** Page load: the grid, when present, is rendered from the whole table;
        the modal starts hidden and no filter button is active yet. */
    constructor (gridPresent: bool, modalPresent: bool, titlePresent: bool, bodyPresent: bool,
                 trapsFocus: bool, handlersNeedGrid: bool, filters: seq<string>)
      ensures Valid() && fresh(filterActive) && table == TeamsData
      ensures this.gridPresent == gridPresent && this.modalPresent == modalPresent
      ensures this.titlePresent == titlePresent && this.bodyPresent == bodyPresent
      ensures this.trapsFocus == trapsFocus && this.handlersNeedGrid == handlersNeedGrid
      ensures this.filters == filters
      ensures cards == (if gridPresent then CardsOf(table) else [])
      ensures State() == Closed && ariaHidden && trapListeners == 0
      ensures forall i :: 0 <= i < filterActive.Length ==> !filterActive[i]
    {
      this.gridPresent, this.modalPresent := gridPresent, modalPresent;
      this.titlePresent, this.bodyPresent := titlePresent, bodyPresent;
      this.trapsFocus, this.handlersNeedGrid := trapsFocus, handlersNeedGrid;
      this.filters := filters;
      table := TeamsData;
      filterActive := new bool[|filters|](_ => false);
      TableIdsUnique();
      cards := if gridPresent then CardsOf(TeamsData) else [];
      modalActive, ariaHidden := false, true;
      title, shown := "", None;
      trapListeners := 0;
    }

    /** `renderTeams(teams)`: one card per record, in input order, each with
        that record's id and region; nothing happens without a grid. */
    method RenderTeams(teams: seq<Team>)
      modifies this`cards
      ensures gridPresent ==> |cards| == |teams|
      ensures gridPresent ==> forall i :: 0 <= i < |teams| ==>
                cards[i].teamId == teams[i].id && cards[i].region == teams[i].region
      ensures !gridPresent ==> cards == old(cards)
    {
      if !gridPresent {
        return;
      }
      cards := CardsOf(teams);
    }

    /** `showTeamModal(id)`: an id missing from the table, or a page without
        the modal, its title or its body, changes nothing. Otherwise the
        modal shows that record, whatever it showed before, with no closed
        state in between. */
    method ShowTeamModal(id: int)
      requires Valid()
      modifies this
      ensures Valid()
      ensures cards == old(cards)
      ensures Find(table, id).None? || !(modalPresent && titlePresent && bodyPresent) ==> unchanged(this)
      ensures Find(table, id).Some? && modalPresent && titlePresent && bodyPresent ==>
                State() == Open(id) && !ariaHidden &&
                shown == Find(table, id) && title == shown.value.name &&
                trapListeners == old(trapListeners) + (if trapsFocus then 1 else 0)
    {
      var team := Find(table, id);
      if team.None? {
        return;
      }
      if !modalPresent || !titlePresent || !bodyPresent {
        return;
      }
      title := team.value.name;
      shown := team;
      modalActive := true;
      ariaHidden := false;
      if trapsFocus {
        trapListeners := trapListeners + 1;
      }
    }

    /** `closeTeamModal()`: hides the modal from view and from assistive
        technology. Closing a closed modal is a no-op. */
    method CloseTeamModal()
      requires Valid()
      modifies this`modalActive, this`ariaHidden
      ensures Valid()
      ensures modalPresent ==> State() == Closed && ariaHidden
      ensures !modalPresent ==> modalActive == old(modalActive) && ariaHidden == old(ariaHidden)
      ensures old(State()) == Closed ==> modalActive == old(modalActive) && ariaHidden == old(ariaHidden)
    {
      if modalPresent {
        modalActive := false;
        ariaHidden := true;
      }
    }

    /** The Escape key closes the modal when it is open; without the handler
        nothing happens. */
    method EscapeKey(key: string)
      requires Valid()
      modifies this`modalActive, this`ariaHidden
      ensures Valid()
      ensures Wired() && key == "Escape" && modalPresent ==> State() == Closed
      ensures !Wired() || key != "Escape" ==> modalActive == old(modalActive) && ariaHidden == old(ariaHidden)
      ensures !modalPresent ==> modalActive == old(modalActive) && ariaHidden == old(ariaHidden)
    {
      if Wired() && key == "Escape" && modalPresent && modalActive {
        CloseTeamModal();
      }
    }

    /** A click (or Enter / Space) on the card at grid position `i`: the
        modal is shown for the id the card carries, with every effect and
        every no-op case of `ShowTeamModal`. */
    method ActivateCard(i: nat)
      requires Valid() && i < |cards|
      modifies this
      ensures Valid() && cards == old(cards)
      ensures var id := old(cards)[i].teamId;
              Find(table, id).None? || !(modalPresent && titlePresent && bodyPresent) ==> unchanged(this)
      ensures var id := old(cards)[i].teamId;
              Find(table, id).Some? && modalPresent && titlePresent && bodyPresent ==>
                State() == Open(id) && !ariaHidden &&
                shown == Find(table, id) && title == shown.value.name &&
                trapListeners == old(trapListeners) + (if trapsFocus then 1 else 0)
    {
      ShowTeamModal(cards[i].teamId);
    }

    /** A click on filter button `k`, which does nothing without the handler.
        Otherwise it alone becomes active, and the grid shows the whole table
        for `"all"`, otherwise that region's records in table order. */
    method ClickFilter(k: nat)
      requires Valid() && k < |filters|
      modifies this`cards, filterActive
      ensures Valid()
      ensures !Wired() ==> filterActive[..] == old(filterActive[..]) && cards == old(cards)
      ensures Wired() ==> forall i :: 0 <= i < filterActive.Length ==> (filterActive[i] <==> i == k)
      ensures Wired() ==> ButtonGroup.ExactlyOneActive(filterActive[..])
      ensures Wired() && gridPresent ==> cards == CardsOf(SelectTeams(table, filters[k]))
      ensures !gridPresent ==> cards == old(cards)
    {
      if !Wired() {
        return;
      }
      ButtonGroup.ActivateOnly(filterActive, k);
      assert filterActive[..][k];
      RenderTeams(SelectTeams(table, filters[k]));
    }
  }
}
