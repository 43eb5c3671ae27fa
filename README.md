# Portfolio page script: a verified model

This project models the behaviour of `app.js`, the script behind a
single-page portfolio site. The browser's document is replaced by a small
abstract page record. The model covers:

- the contact-form validator, with its four rules and the email regular
  expression written out as a predicate;
- the scroll listener, which picks the section 100 px below the top of the
  viewport and highlights the matching navigation link;
- the mobile-menu flags (hamburger toggle, nav-link click, click outside,
  Escape);
- the single form banner above the contact form, with the success banner's
  5000 ms removal timer;
- the single toast, with its 100 ms slide-in, its 5000 ms slide-out and
  the 300 ms removal that follows;
- the simulated submission: "Sending..." and disabled, then after 1500 ms
  the original label, enabled, a success banner and empty fields;
- the skill-bar observer, which unobserves the section after its first
  batch with an intersecting entry (every intersecting entry of that batch
  schedules the bars), and the reveal observer's `visible` marks.

Files and modules:

- `validation.dfy` (module `Validation`) holds the validator.
- `navigation.dfy` (module `Navigation`) holds the active-section scan and
  the link highlight rule.
- `menu.dfy` (module `Menu`) holds the two menu flags and how clicks and
  keys change them.
- `page.dfy` (module `Ui`) holds class `Page`: the page state and one method
  per event handler and timer callback.
- `scenarios.dfy` (module `Scenarios`) holds client runs of `Page`: a valid
  submission, a too-short message, a replaced toast, a toast's full life,
  a submit made while a toast is on screen, the skill bars in separate
  batches and in one batch, and a round of menu events.

Timers are explicit. Each `setTimeout` call appends a `Timer(due, action)`
to `pending`, where `due` is on a logical millisecond clock. `Page.Fire`
runs the timer the browser would run next: the earliest due, and among
equal dues the one scheduled first. The clock moves to its due time.
`Page.Wait` lets time pass between events, up to the next due time, so an
event can happen at any moment and the timers it sets fall due when they
would in the browser.
Banner and toast nodes carry ids that are never reused. A timer that acts on
a node carries that node's id. The script's `parentNode` guard becomes
"a node with that id is still in the document". `AfterTimer` gives each
callback's effect as a function of the page state, and `Fire` is proved
against it.

Inputs the browser supplies become parameters:

- the sections' ids, offsets and heights, and `pageYOffset`;
- the click target and the key pressed;
- the observers' intersection entries;
- the form fields, set by `Page.EditForm`;
- the time at which an event happens, reached with `Page.Wait`.

The initial page comes from the markup, not from the script. The model
starts with no link highlighted, the menu closed, no element revealed, no bar
grown, no banner and no toast.

## Model

| member | source | states |
|---|---|---|
| Validation.EmailPatternCharacterized | app.js:184-185 | the email test accepts exactly the strings with no whitespace, exactly one '@' with at least one character before it, and after the '@' a '.' with at least one character on each side; both directions |
| Validation.PatternImpliesWellFormed | app.js:184-185 | a split that matches the regex leaves no whitespace in the string and no '@' other than the split one |
| Validation.WellFormedImpliesPattern | app.js:184-185 | the converse: in a whitespace-free string with a single '@' and a later '.', splitting at those two gives three parts that match `[^\s@]+` |
| Validation.ErrorsFollowRules | app.js:176-197 | each message is in the list exactly when its rule fails (name shorter than 2, email not matching, subject shorter than 3, message shorter than 10), and no other message is |
| Validation.ErrorsInRuleOrder | app.js:176-197 | the messages appear in the checking order name, email, subject, message, each at most once |
| Validation.NoErrorsIffAllRulesPass | app.js:199-205 | the list is empty, so validateForm returns true, exactly when all four rules pass |
| Validation.ValidExample | app.js:175-206 | a valid quadruple ("Jo", "a@b.co", "Hi there", a 29-character message) yields no message |
| Validation.ShortMessageExample | app.js:194-197 | a two-character message with valid other fields yields only the message-length error |
| Navigation.LastMatchIsLastCovering | app.js:43-53 | when section k's band [top, top+height) holds the position and no later section's does, section k's id is current |
| Navigation.LastMatchNone | app.js:43-53 | when no band holds the position, the current section is "" |
| Navigation.LastMatchCovers | app.js:43-53 | a non-empty current id belongs to a section whose band holds the position |
| Navigation.CurrentSection | app.js:43-53 | the forward scan that overwrites `currentSection` ends with the id of the last section whose band holds the position, or "" when none does |
| Navigation.AtMostOneActive | app.js:55-60 | with distinct hrefs, the highlight rule leaves at most one link active |
| Navigation.ActiveIffTargeted | app.js:55-60 | some link is active exactly when some href is '#' plus the current id |
| Navigation.TwoSectionExample | app.js:46-53 | with bands [0,100) and [100,300), position 150 selects the second section and 50 the first |
| Menu.ClickKeepsSync | app.js:36-37 | every click (hamburger, nav link, inside the panel, outside) keeps the two `active` flags equal |
| Menu.KeyKeepsSync | app.js:417-423 | every key keeps the two flags equal |
| Menu.ClosingEventsClose | app.js:85-90 | a nav-link click, a click outside the hamburger and panel, and Escape all leave both flags false |
| Menu.HamburgerToggles | app.js:79-82 | the hamburger flips the open state; a click elsewhere inside the panel changes nothing |
| Menu.EscapeReadsPanelOnly | app.js:420-423 | Escape tests only the panel flag: with the hamburger flag set and the panel flag clear it changes nothing |
| Ui.NextDue | app.js:217-227 | the browser's timer queue for the setTimeout calls: the timer run next has the earliest due time, and no timer scheduled before it has the same due time |
| Ui.DropBanner | app.js:233-235 | `remove()` on a banner: exactly the other banners stay, and a missing node leaves the list unchanged |
| Ui.DropToast | app.js:394-396 | `remove()` on a toast: exactly the other toasts stay, and a missing node leaves the list unchanged |
| Ui.MoveToast | app.js:385-392 | setting a toast's transform changes only that toast's on-screen flag; ids, texts and the set of toasts stay the same |
| Ui.AfterTimer | app.js:263-269 | a timer whose node has left the document changes nothing; no timer touches the clock, the menu, the link highlights, the observed flag or the reveal marks; the slots still hold at most one node each |
| Ui.Page.constructor | app.js:3-11 | after load, starting from the markup's initial state, nothing is active, shown, grown, revealed or pending, the button is enabled with its label, and the skills section is observed if it exists |
| Ui.Page.ShowFormMessage | app.js:230-270 | the previous banner is gone and the slot holds only a new banner with a fresh id; the style is error for kind "error" and success otherwise; only a "success" banner gets a removal timer 5000 ms on |
| Ui.Page.PlaceBanner | app.js:232-260 | remove the banner in the slot, then insert the new one with a fresh id |
| Ui.Page.ScheduleExpiry | app.js:263-269 | a removal timer for that banner is appended, due 5000 ms on |
| Ui.Page.ShowNotification | app.js:319-399 | the previous toast is gone and the slot holds only a new off-screen toast with a fresh id; a slide-in at +100 ms and a slide-out at +5000 ms are scheduled for it |
| Ui.Page.ValidateForm | app.js:175-206 | returns true exactly when no rule fails, and then changes nothing; otherwise one error banner shows the messages joined by `<br>` |
| Ui.Page.SimulateSubmission | app.js:208-216 | the button shows "Sending..." and is disabled; a timer due 1500 ms on holds the label it had before |
| Ui.Page.Submit | app.js:154-171 | invalid fields: only the error banner appears, and no submission starts; valid fields: the banner slot is left as it was (an earlier error banner stays until the success banner replaces it), and the submission starts |
| Ui.Page.EditForm | app.js:158-162 | the fields the submit handler will read are replaced; nothing else changes |
| Ui.Page.Click | app.js:19-38 | the clicked element's handler runs (hamburger toggles, nav link closes, a toast's close button removes that toast), then the document handler closes the menu for a click outside it |
| Ui.Page.ToggleMenu | app.js:79-82 | both flags flip |
| Ui.Page.CloseMenu | app.js:85-90 | both flags are cleared |
| Ui.Page.CloseToast | app.js:332 | the close button removes its own toast at once |
| Ui.Page.KeyDown | app.js:415-431 | Escape clears the menu when the panel flag is set and always empties the toast slot; other keys change nothing |
| Ui.Page.OnScroll | app.js:42-60 | afterwards each link is active exactly when its href is '#' plus the last section holding `pageYOffset + 100`; no link keeps its earlier mark, and nothing else changes |
| Ui.Intersecting | app.js:129-130 | the number of intersecting entries in a batch is at most its length, and is zero exactly when no entry intersects |
| Ui.Repeat | app.js:131-137 | `n` rounds of the bar timers hold `n` times as many timers, each one of the round's timers |
| Ui.Page.SkillsBatch | app.js:128-146 | a batch delivered while the section is observed schedules the full set of 200 ms bar timers once per intersecting entry, in order, and unobserves the section if any entry intersects; a batch with one intersecting entry schedules the bars exactly once, and once unobserved nothing further is scheduled |
| Ui.Page.SkillEntry | app.js:130-139 | an intersecting entry schedules every bar and unobserves the section; a non-intersecting one changes nothing |
| Ui.Page.ScheduleBars | app.js:131-137 | one 200 ms width timer per bar, carrying its `data-width`, in document order; nothing else changes |
| Ui.Page.Reveal | app.js:100-106 | an element is marked visible if it was before or an intersecting entry names it; no mark is removed |
| Ui.Page.Wait | app.js:217 | the browser's clock for the setTimeout calls: the clock moves to the given time, never past the next due timer; nothing else changes |
| Ui.Page.Fire | app.js:217-227 | the browser's timer queue for the setTimeout calls: the next timer leaves `pending`, the clock reaches its due time, and the page becomes `AfterTimer` of that timer |
| Ui.Page.TakeNextTimer | app.js:217-227 | the browser's timer queue for the setTimeout calls: the timer picked is the `NextDue` one; it is removed from `pending` and the clock advances to it |
| Ui.Page.RunTimer | app.js:264-268 | a callback's effect is exactly `AfterTimer` of its action |
| Ui.Page.ExpireBannerTimer | app.js:264-268 | the guarded removal of a success banner: the banner goes if it is still in the document |
| Ui.Page.SlideInTimer | app.js:385-387 | the toast with that id moves on screen; a detached toast leaves the document unchanged |
| Ui.Page.SlideOutTimer | app.js:390-399 | an attached toast moves off screen and its removal is scheduled 300 ms on; a detached one changes nothing |
| Ui.Page.RemoveToastTimer | app.js:393-397 | the toast goes if it is still in the document |
| Ui.Page.FinishSubmitTimer | app.js:217-227 | the button gets back its saved label and is enabled, the success banner replaces any banner with its 5000 ms removal timer, and the fields are emptied |
| Ui.Page.GrowBarTimer | app.js:134-136 | that bar's width becomes the target it had when the section intersected |

## Left out

- Inline styles, design tokens, hover effects, `innerHTML` rendering, and the navbar background and shadow that the scroll listener sets (app.js:62-70) are presentation. A banner is modelled as (id, style, text) and a toast as (id, text, on-screen).
- Smooth scrolling and the -70 px scroll target of the nav-link click are browser behaviour with no state the model keeps.
- The back-to-top button, the empty debounced scroll hook, the unused lazy-loading setup, the no-op additional-features setup, the resume-download and project-button notifications and the global error logger are outside the modelled core.
- IntersectionObserver geometry (thresholds, root margin) and the reveal stagger delays are not modelled. Intersection arrives as an input entry.
- A batch for the skills section is taken to arrive only while the section is observed. After `unobserve` the browser queues no more entries for it.
- Timer delays are exact on the logical clock. Browser clamping and the lateness of a busy event loop are not modelled.
- A fractional `pageYOffset` is taken floored to whole pixels. Section offsets and heights are integers, so the selected section is the same.
- `.trim()` is not modelled. `.length` is the length of a sequence of characters, not a count of UTF-16 code units. The fields are taken as already trimmed.
- `form.reset()` is modelled as emptying the four fields. Values preset in the page's markup are not modelled.
- A section without an id attribute is not modelled. Its `getAttribute('id')` would be null and would compare as "null".
- The toast's `type` argument is accepted and ignored, as the script ignores it.
- Ui.Page.Submit: the model accepts a submit event even while the button is disabled. Blocking implicit submission through a disabled button is browser behaviour, not the script's.
- Concurrency does not arise. Handlers and timer callbacks run one at a time, as on the browser's event loop.
