# Goalball tournament site: a verified model of its page logic

The European goalball tournament website runs two script files,
`js/scripts.js` and `scripts.js`. Beneath their DOM calls is a small amount
of synchronous logic, and this project models that logic in Dafny and proves
what it promises. The document is abstracted to a handful of fields: the
set of classes on `document.body`, the `active` flags of button groups, the
modal's `active`/`aria-hidden` pair, the list of rendered team cards and
the error state of the form fields.

Modules, one per part of the site:

- `Wrappers`: `Option`, the model of `undefined`/`null`.
- `Teams`: the eight-record team table both files compile in. Also the
  region filter (`teams.filter`) and the lookup by id (`teams.find`).
- `ButtonGroup`: the "clear every button, then activate one" step. The
  filter buttons, the results tabs and the font and theme buttons all
  share it.
- `TeamDirectory`: the teams page. It has the card grid, the filter
  buttons and the detail modal. Both files carry this code, with two
  differences, and the class takes a flag for each:
  - `trapsFocus`: `scripts.js` installs a focus trap each time the modal
    opens, and `js/scripts.js` does not;
  - `handlersNeedGrid`: `js/scripts.js` installs the filter and modal
    handlers only when the grid is on the page at load
    (js/scripts.js:647-651), and `scripts.js` installs them regardless.
- `LegacyTeamsFilter`: the older card filter of `js/scripts.js`. It shows
  and hides existing cards by `data-group`. Also the per-card
  "View Details" toggle.
- `ResultsTabs`: the results-page tabs of `js/scripts.js`, with mouse and
  keyboard handling.
- `Text`: JavaScript's whitespace class and `String.prototype.trim`.
- `EmailPattern`: the pattern `^[^\s@]+@[^\s@]+\.[^\s@]+$` as a string
  predicate, proved equal to a shape description.
- `Forms`: the contact form's submit and blur checks, and the newsletter
  form.
- `Preferences`: the font-size, theme and image-hiding controls, and the
  button highlighting.
- `MobileMenu`: the navigation toggle and its ARIA mirror.
- `FocusTrap`: the Tab / Shift+Tab wrap rule of `trapFocus`.

Points where the two files differ, or where the code is not what one
might expect:

- **Region table.** The model follows the table as coded:
  - western holds ids 1, 3 and 7;
  - southern holds ids 2, 4 and 8;
  - eastern holds id 5;
  - northern holds id 6.

  `Teams.RegionListings` proves these listings.
- **Older card filter.** `initializeTeamsFilter` compares a card's
  `data-group` (js/scripts.js:163). Cards built by `renderTeams` carry only
  `data-region` (js/scripts.js:658). So on rendered cards that filter
  keeps a card only under "all"
  (`LegacyTeamsFilter.RenderedCardsOnlyShownForAll`). On the teams page
  both handlers sit on the same `.filter-btn` buttons. The re-rendering
  handler is registered while the script loads (js/scripts.js:647-651) and
  the `data-group` handler on `DOMContentLoaded` (js/scripts.js:4-7), so a
  click re-renders the grid first. The `data-group` handler then acts on
  the cards it collected at start-up, which the re-render has already
  detached, so it has no visible effect on the grid.
- **Character counts.** The name and message minimums count UTF-16 code
  units, as JavaScript's `length` does (`Text.Utf16Length`). A character
  outside the Basic Multilingual Plane counts twice, so a one-emoji name
  passes the two-character minimum (`Forms.AstralNameAccepted`).
- **E-mail checks.** The contact form tests the address untrimmed on
  submit (scripts.js:366). The blur check and the newsletter trim it first
  (scripts.js:389, 290). An address with a leading space passes the blur
  check and fails the submit check
  (`EmailPattern.LeadingSpaceRejectedUntrimmed`). The other direction
  always holds (`Forms.SubmitEmailPassesBlur`).
- **Increase from small.** From the small size, the increase button jumps
  to large and never passes through normal
  (`Preferences.IncreaseFromSmallSkipsNormal`).
- **Focus trap.** `scripts.js` calls `trapFocus` on every opening of the
  modal, so listeners pile up (`Directory.trapListeners`). Any positive
  number of them behaves like one (`FocusTrap.ListenersActLikeOne`).

## Model

| member | source | states |
|---|---|---|
| Teams.FilterRegion | js/scripts.js:788 | the region filter never returns more records than it was given; which records and in what order is stated by the two lemmas below |
| Teams.FilterRegionMembers | js/scripts.js:788 | a record is in the filtered list exactly when it is in the table and has the filter's region |
| Teams.FilterRegionIsOrderedSubsequence | scripts.js:735 | the filtered list has as many records as match, and each matching record sits at the position given by the number of matches before it, so the list is the matching records in table order |
| Teams.SelectTeams | js/scripts.js:785-790 | "all" hands the whole table to the renderer; any other filter hands over a list no longer than the table (scripts.js:732-737 selects the same way) |
| Teams.RegionListings | scripts.js:465-562 | over the concrete table, "all" gives all 8 records in order; western gives records 1, 3, 7; southern 2, 4, 8; eastern 5; northern 6 |
| Teams.Find | js/scripts.js:710 | the lookup returns a record carrying the id, the first such one, and nothing exactly when no record carries it |
| Teams.FindUnique | scripts.js:629 | with unique ids, looking up the id of record i returns record i |
| Teams.FindMember | scripts.js:629 | with unique ids, any record of the table is what its own id looks up |
| Teams.TableIdsUnique | js/scripts.js:547-644 | the table's ids are pairwise distinct |
| Teams.TableLookup | js/scripts.js:547-644 | exactly the ids 1..8 resolve, and id k resolves to the k-th record |
| ButtonGroup.ActivateOnly | js/scripts.js:781-782 | after the clear-then-set step, a button is active exactly when it is the target; a target not on the page leaves none active |
| TeamDirectory.CardsOf | js/scripts.js:657-668 | one card per record |
| TeamDirectory.RenderedCardsResolve | js/scripts.js:673-683 | every card a filter click renders opens, through its data-team-id, the very record it was rendered from, and under a region filter carries that region |
| TeamDirectory.Directory.constructor | js/scripts.js:646-651 | on load the grid, when present, shows the whole table and the modal is closed and hidden |
| TeamDirectory.Directory.RenderTeams | js/scripts.js:653-668 | without a grid nothing changes; otherwise one card per record, in input order, with that record's id and region |
| TeamDirectory.Directory.ShowTeamModal | scripts.js:628-685 | an unknown id, or a missing modal, title or body, changes nothing; otherwise the modal is open on that id, not aria-hidden, titled with the team name and showing that record, even if it was open on another id; each opening adds one focus-trap listener in this file, none in js/scripts.js:709-763 |
| TeamDirectory.Directory.CloseTeamModal | js/scripts.js:765-771 | with a modal on the page, it ends closed and aria-hidden; closing a closed modal changes nothing |
| TeamDirectory.Directory.EscapeKey | scripts.js:621-625 | where the handlers are installed, Escape closes an open modal; any other key, a page without the modal, or a js/scripts.js page loaded without the grid leaves the modal as it is |
| TeamDirectory.Directory.ActivateCard | scripts.js:590-603 | clicking or pressing Enter/Space on a card has exactly the effect of opening the modal on that card's team: nothing changes for an unknown id or a missing modal, title or body; otherwise the modal is open and not aria-hidden on that id, titled and filled from that record, and in this file one more focus-trap listener is installed |
| TeamDirectory.Directory.ClickFilter | js/scripts.js:773-793 | on a js/scripts.js page loaded without the grid no handler exists and nothing changes; otherwise the clicked filter button alone is active and the grid, when present, shows the cards of the selected records (scripts.js:720-739 behaves the same and is always wired) |
| LegacyTeamsFilter.CardShown | js/scripts.js:163 | a region filter other than "all" displays only cards that carry a data-group |
| LegacyTeamsFilter.RenderedCardsOnlyShownForAll | js/scripts.js:161-163 | a card without data-group is shown only under "all"; every region filter hides it |
| LegacyTeamsFilter.GroupedCardShownByTwoFilters | js/scripts.js:161-163 | a card with a group is shown exactly under "all" and under its own group |
| LegacyTeamsFilter.CardFilter.Click | js/scripts.js:145-168 | with no cards nothing is wired and nothing changes; otherwise the clicked button alone is active and a card is displayed exactly when the filter is "all" or equals its data-group |
| LegacyTeamsFilter.DetailsToggle.Click | js/scripts.js:149-194 | without filter buttons and cards on the page no handler exists and nothing changes; otherwise the click opens a closed panel to its content height and closes an open one to 0px, the button text and aria-expanded agree with the direction of the click, and overflow is visible exactly when expanded |
| ResultsTabs.KeyTarget | js/scripts.js:231-257 | exactly the four navigation keys move the focus; the target is always a valid index; left and right step with wrap-around, Home goes to 0, End to n-1 |
| ResultsTabs.WrapStep | js/scripts.js:238 | the conditional wrap-around steps equal steps modulo n |
| ResultsTabs.ArrowsAreInverse | js/scripts.js:235-245 | ArrowLeft undoes ArrowRight and vice versa |
| ResultsTabs.Tabs.ClickTab | js/scripts.js:204-223 | the clicked tab alone is active, and a section is active and displayed exactly when its id is the tab value followed by "-tab" |
| ResultsTabs.Tabs.KeyDown | js/scripts.js:204-258 | without tabs or sections nothing is wired and nothing changes; otherwise a navigation key focuses its target tab, makes it alone active, and activates and shows exactly the section named after it; any other key changes nothing |
| Text.IsWhitespace | scripts.js:389 | every character the whitespace class contains lies in the Basic Multilingual Plane, so trimming never cuts half of a surrogate pair |
| Text.Utf16Length | scripts.js:360 | the length JavaScript reports is between the number of characters and twice that, and equals the number of characters exactly when none lies outside the Basic Multilingual Plane |
| Text.Trim | scripts.js:389 | the trimmed string is a contiguous slice of the input, everything cut off is whitespace, and it neither starts nor ends with whitespace |
| Text.TrimIdempotent | scripts.js:290 | trimming twice equals trimming once |
| EmailPattern.MatchesEmail | scripts.js:291 | a string the pattern accepts is at least five characters long and neither starts nor ends with '@' |
| EmailPattern.MatchesEmailIffShape | scripts.js:291 | the pattern accepts exactly the strings with no whitespace, one '@' not in first place, and a domain part holding a '.' that is neither its first nor its last character |
| EmailPattern.LeadingSpaceRejectedUntrimmed | scripts.js:366 | " a@b.co" trims to an accepted address but is rejected as typed |
| Forms.FieldValid | scripts.js:356-385 | the name passes exactly when present and its trimmed UTF-16 length is at least 2, the message exactly when present and at least 10 |
| Forms.BlurValid | scripts.js:387-415 | a value the blur check accepts is never empty |
| Forms.SubmitErrors | scripts.js:356-385 | a field shows an error afterwards exactly when it showed one before or it fails with its anchors present, and every failing field with anchors gets its submit message, whether or not an earlier field failed |
| Forms.SubmitErrorsKeepsOthers | scripts.js:356-385 | a field that passes, or has no anchors, keeps the error it showed before the submit |
| Forms.AstralNameAccepted | scripts.js:360 | a name of one emoji is one character but two UTF-16 units, so it meets the two-character minimum |
| Forms.ValidIffNoErrors | scripts.js:356-385 | with all anchors present and no prior error, the form is valid exactly when the submit shows no error |
| Forms.SubmitEmailPassesBlur | scripts.js:399-405 | an address the submit check accepts is unchanged by trimming, so the blur check accepts it as well |
| Forms.BlurAgreesWithSubmit | scripts.js:392-412 | for name and message the blur check and the submit check agree |
| Forms.ContactForm.ShowFieldError | scripts.js:417-427 | the field is marked with the message when its error element and group exist, and nothing changes otherwise |
| Forms.ContactForm.ClearFieldError | scripts.js:429-440 | the field's error is removed when its anchors exist |
| Forms.ContactForm.ValidateForm | scripts.js:356-385 | the result is true exactly when all four checks pass, and the error state is the submit errors |
| Forms.ContactForm.Submit | scripts.js:341-354 | the submit is accepted exactly when all four checks pass; an accepted one clears every error and shows the success message when the page has one (scripts.js:452-462); a rejected one leaves the submit errors and the success message as they were |
| Forms.ContactForm.ValidateField | scripts.js:387-415 | on blur the trimmed value of name, email or message sets or clears that field's error; other elements are untouched |
| Forms.NewsletterAccepts | scripts.js:289-300 | the newsletter's check accepts exactly the values whose trimmed form the pattern accepts; the emptiness test adds nothing |
| Forms.NewsletterAcceptsShape | scripts.js:289-300 | the newsletter accepts a value exactly when its trimmed form has the address shape, which is then at least five characters long |
| Forms.NewsletterForm.ValidateNewsletterEmail | scripts.js:289-300 | the result is true exactly when the trimmed value is non-empty and matches, and the error shows exactly on rejection |
| Forms.NewsletterForm.ShowNewsletterError | scripts.js:302-310 | with anchors present, the message and the error class are set |
| Forms.NewsletterForm.ClearNewsletterError | scripts.js:312-320 | with anchors present, the message and the error class are cleared |
| Forms.NewsletterForm.Submit | scripts.js:275-287 | the submit is accepted exactly when the newsletter check passes; an accepted one appends one success notice when the signup card exists (scripts.js:322-339); with the error anchors present the error class is set exactly on rejection and the text is the error message or empty; without them the error state is untouched |
| Preferences.Decrease | scripts.js:40-44 | the body ends at the small size in a well-formed size state, with every non-size class untouched |
| Preferences.Normal | scripts.js:48-51 | no size class remains, and nothing else changes |
| Preferences.Increase | scripts.js:55-64 | small is dropped and large is always present; extra-large is present exactly when large or extra-large was before, and reported exactly when large was there; nothing else changes |
| Preferences.IncreaseSaturates | scripts.js:57-59 | two increases reach extra-large and further increases change nothing |
| Preferences.IncreaseFromSmallSkipsNormal | scripts.js:55-63 | from the small size one increase lands on large |
| Preferences.FontButton | scripts.js:108-121 | small highlights the decrease button, normal the normal button, large and extra-large the increase button, and exactly the other sizes highlight none |
| Preferences.FontHighlightMatchesClasses | scripts.js:39-65 | from any body classes, each font button highlights the button matching the classes it leaves |
| Preferences.DefaultTheme | scripts.js:69-72 | no theme class remains, and nothing else changes |
| Preferences.HighContrastTheme | scripts.js:76-80 | high-contrast is set and dark-theme is not, so the two never coexist |
| Preferences.DarkThemeOn | scripts.js:84-88 | dark-theme is set and high-contrast is not |
| Preferences.ThemeButton | scripts.js:124-139 | default, high-contrast and dark each highlight their own button, and exactly the other names highlight none |
| Preferences.ThemeHighlightMatchesClasses | scripts.js:68-89 | each theme button highlights the theme the body then shows |
| Preferences.ToggleImages | scripts.js:94 | hide-images flips and nothing else changes |
| Preferences.ToggleImagesTwice | scripts.js:94 | toggling twice restores the body classes |
| Preferences.AccessibilityControls.UpdateFontButtons | scripts.js:104-122 | at most one font button is active, and exactly the one for the size when it is on the page |
| Preferences.AccessibilityControls.UpdateThemeButtons | scripts.js:124-139 | the same for the theme buttons |
| Preferences.AccessibilityControls.ClickFont | scripts.js:39-65 | the body takes the new size classes and the clicked button alone is highlighted, matching the size the body shows |
| Preferences.AccessibilityControls.ClickTheme | scripts.js:68-89 | never both themes, and the clicked button alone is highlighted, matching the theme the body shows |
| Preferences.AccessibilityControls.ClickToggleImages | scripts.js:92-100 | hide-images flips, and aria-pressed and the label report the new state |
| MobileMenu.Menu.Toggle | scripts.js:188-196 | both active classes flip, aria-expanded equals the menu's new state and aria-hidden its negation, and a synchronised menu stays synchronised |
| MobileMenu.Menu.Close | scripts.js:198-203 | the menu ends closed and synchronised, so closing twice equals closing once |
| MobileMenu.Menu.ToggleKey | scripts.js:166-171 | Enter and Space prevent the default and toggle: both active classes flip, aria-expanded takes the menu's new state and aria-hidden its negation; other keys change nothing |
| MobileMenu.Menu.DocumentClick | scripts.js:180-184 | a click outside the toggle and the menu closes the menu |
| FocusTrap.TrapStep | scripts.js:702-715 | Shift+Tab on the first focusable and Tab on the last are prevented and wrap to the other end; every other key or position passes through untouched |
| FocusTrap.WrapRoundTrip | scripts.js:704-713 | Shift+Tab from the first element reaches the last, and Tab from the last reaches the first |
| FocusTrap.TrapStepSettles | scripts.js:702-715 | a second trap listener acting after the first changes nothing more |
| FocusTrap.ListenersActLikeOne | scripts.js:684 | any positive number of accumulated trap listeners behaves exactly like one |

## Left out

- Markup: the HTML templates, inline styles and `innerHTML` text. Cards are
  modelled by their id and region, and the modal by the record it shows,
  which includes the achievements in table order.
- Timers: `setTimeout` hiding of success messages and notices,
  `announceToScreenReader`, `debounce`, fade-in animations,
  `IntersectionObserver` and the scroll-to-top button. These are timers
  and layout events.
- Focus movement itself (`.focus()`) and `scrollIntoView`. Only the
  focused index is modelled.
- The mailto form submissions, bug report form, downloads and
  `localStorage` theme of `js/scripts.js`, and its `checkValidity`-based
  `validateField`. These are browser library calls and navigation or
  storage I/O.
- The navigation of `js/scripts.js` (`initializeNavigation`). It is not
  part of this model; the mobile menu of `scripts.js` is.
- The global Escape handler of `js/scripts.js` (js/scripts.js:850-856),
  which strips `active` from any open `.modal`.
- The service worker, the `window` error logger and the match-filter
  buttons, which only log to the console.
- Flags: the table keeps the emoji flags of `scripts.js`. In
  `js/scripts.js` they are stored as mis-decoded byte sequences, which the
  model does not reproduce.
- Null entries: a filter button without `data-filter` is not modelled, and
  neither is a newsletter form without an `email` entry, where
  `FormData.get` gives `null` and `trim` throws.
- Missing field elements: `showFieldError` and `clearFieldError` crash
  when the field element itself is missing. The model only tracks whether
  the error element and group exist.
- Focus trap over different element lists: each trap listener captures
  the modal's focusable elements when it is installed. The model assumes
  every listener sees the same list, which holds as long as the modal body
  adds no focusable element. The page markup is not part of this model.
- Forms.ContactForm.Submit: `clearAllErrors` (scripts.js:442-450) clears
  every error message and `.form-group.error` on the page, so an accepted
  contact submit also clears a newsletter error shown on the same page. The
  two forms are separate objects here, and that page-wide effect is not
  modelled.
- Initial highlighting: the markup may mark one filter, font or theme
  button `active` before any script runs. `TeamDirectory.Directory` and
  `Preferences.AccessibilityControls` start with every button inactive,
  and the page markup is not part of this model.
- Resetting the contact and newsletter forms: the field values belong to
  the page, so submits take the entries as parameters.
- Missing anchors: when the toggle or the menu of the mobile navigation is
  absent, no handler is installed. `MobileMenu.Menu` models a page that
  has both.
