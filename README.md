# Portfolio front-end logic, in Dafny

This project models the logic of `script.js`, the one script of a static
personal-portfolio page, apart from the DOM it drives:

- the contact form's three field validators (name, e-mail, message) and
  `validateForm`, which runs all three;
- the e-mail pattern `^[^\s@]+@[^\s@]+\.[^\s@]+$`, written two ways. One is
  a list of checks: no whitespace, exactly one `@`, a non-empty local part,
  and a domain with an inner dot. The other is the structure of the regular
  expression itself. A lemma proves the two agree;
- ECMAScript's `trim` and whitespace class `\s`;
- the light/dark theme switch: toggle, load with its `dark` default, and
  the icon;
- project filtering: which cards are shown, and which filter button is
  active after a click;
- the rotating tagline's index.

Modules:

| module | file | models |
|---|---|---|
| `Text` | text.dfy | the JavaScript whitespace set, `trim` |
| `Email` | email.dfy | the e-mail regular expression |
| `Validation` | validation.dfy | `validateName`, `validateEmail`, `validateMessage`, the result of `validateForm` |
| `ContactForm` | contact_form.dfy | the three error elements, and the validators as methods that rewrite them |
| `Theme` | theme.dfy | `toggleTheme`, `loadTheme`, `updateThemeIcon` |
| `Projects` | projects.dfy | `filterProjects`, the click handler of `setupFilters` |
| `Tagline` | tagline.dfy | the index update of `changeTagline` |
| `Options` | options.dfy | an optional value, for absent attributes and storage entries |

Each validator is a pure function from the raw input value to a
`FieldCheck(valid, message)`. The message is the text the source writes
into the field's error element. The class `ContactForm.ErrorSlots` holds
the three error elements. Its methods overwrite them the way the source's
validators do.

The theme rules are pure functions on a `ThemeState` value. It holds the
`data-theme` attribute, the saved `theme` entry and the icon class.

Cards and filter buttons are arrays held by `Projects.Gallery`. Its
methods update them in place, as the `forEach` loops of the source do.

The tagline index lives in `Tagline.Rotator`. A ghost tick counter lets
its invariant say where the rotation stands.

Whitespace is modelled exactly: `Text.IsWhitespace` is ECMAScript's
WhiteSpace and LineTerminator set. That set is what both `trim` and `\s`
use. Lengths are lengths of sequences of Unicode scalar values.

A failing validator writes a message string and returns `false`; there
are no error kinds.

## Model

| member | source | states |
|---|---|---|
| Text.Trim | script.js:92 | the trimmed value is empty exactly when the input is all whitespace; otherwise it neither starts nor ends with whitespace |
| Text.IsWhitespace | script.js:92-121 | the set `trim` removes (lines 92, 106, 121) and `\s` excludes (line 107); neither `@` nor `.` is in it |
| Text.TrimIsMiddle | script.js:92 | the trimmed value is a middle slice of the input, and what is cut off on each side is whitespace |
| Text.TrimStart | script.js:92 | the result is the suffix of the input after a maximal whitespace prefix |
| Text.TrimEnd | script.js:92 | the result is the prefix of the input before a maximal whitespace suffix |
| Text.TrimPadded | script.js:92 | surrounding a value with whitespace does not change its trimmed form |
| Text.TrimIdempotent | script.js:92 | trimming a trimmed value changes nothing |
| Text.TrimOfUnpadded | script.js:92 | a value whose first and last characters are not whitespace is its own trimmed form |
| Email.Count | script.js:107 | the count of a character is zero exactly when it occurs nowhere |
| Email.IndexOf | script.js:107 | the result is the first position of the character, or the length when it does not occur |
| Email.IsEmail | script.js:107 | the hand-written checks: no whitespace, exactly one `@` with something before it, and a dot with something on each side after it; an accepted address has at least five characters |
| Email.MatchesEmailPattern | script.js:107 | the structure of the anchored regular expression: three non-empty runs of `[^\s@]` separated by `@` and `.`; a match has at least five characters and does not start with `@` |
| Email.EmailImpliesPattern | script.js:107 | every string that passes the hand-written checks is matched by the regular expression |
| Email.PatternImpliesEmail | script.js:107 | every string the regular expression matches passes the checks, and its `@` is at the split point |
| Email.EmailMatchesPattern | script.js:107 | the checks and the regular expression accept exactly the same strings |
| Validation.ValidateName | script.js:91-103 | all whitespace gives false with "Name is required"; length 1 once trimmed gives false with "Name must be at least 2 characters"; length 2 or more gives true with an empty message; valid exactly when the message is empty |
| Validation.ValidateEmail | script.js:105-118 | all whitespace gives false with "Email is required"; otherwise valid exactly when the trimmed value matches the pattern, with "Please enter a valid email" when it does not; valid exactly when the message is empty |
| Validation.ValidateMessage | script.js:120-132 | all whitespace gives false with "Message is required"; 1 to 9 characters once trimmed gives false with "Message must be at least 10 characters"; 10 or more gives true with an empty message; valid exactly when the message is empty |
| Validation.FormAccepts | script.js:134-139 | the form is accepted exactly when the trimmed name has at least 2 characters, the trimmed e-mail matches the pattern, and the trimmed message has at least 10 characters |
| Validation.PaddingIsIgnored | script.js:91-132 | leading and trailing whitespace never changes any validator's result or message |
| Validation.UnpaddedValue | script.js:91-132 | for a value with no whitespace at either end, each validator reduces to its second rule: length, or pattern |
| Validation.NameExamples | script.js:91-103 | "A" fails as too short; "Al" passes |
| Validation.MessageExamples | script.js:120-132 | "short" fails as too short; the ten characters "1234567890" pass |
| Validation.AcceptedEmailExamples | script.js:105-118 | "a@b.com" and "a@b.c.d" pass; the domain class admits a second dot |
| Validation.BadDomainExamples | script.js:107-113 | "a@b", "a@.com" and "a@b." fail with "Please enter a valid email" |
| Validation.AtCountExamples | script.js:107-113 | "a@@b.com" and "noatsign.com" fail with "Please enter a valid email" |
| ContactForm.ErrorSlots.constructor | script.js:11-13 | the three error elements start with the page's initial texts |
| ContactForm.ErrorSlots.ValidateName | script.js:91-103 | returns the name result, writes its message into the name slot, and leaves the other slots alone |
| ContactForm.ErrorSlots.ValidateEmail | script.js:105-118 | returns the e-mail result, writes its message into the e-mail slot, and leaves the other slots alone |
| ContactForm.ErrorSlots.ValidateMessage | script.js:120-132 | returns the message result, writes its message into the message slot, and leaves the other slots alone |
| ContactForm.ErrorSlots.ValidateForm | script.js:134-139 | returns the AND of the three results; rewrites all three slots from the current inputs, even after an earlier failure; accepts exactly when all three slots end up empty |
| Theme.NextTheme | script.js:28 | the next theme is always light or dark, and is dark exactly when the current theme is light |
| Theme.IconFor | script.js:34-37 | the icon is the sun exactly in light mode, and the moon otherwise |
| Theme.SavedOrDefault | script.js:40 | a missing or empty saved value gives dark; any other saved value is used unchanged; the result is never empty |
| Theme.ToggleTheme | script.js:26-32 | sets the next theme, saves that same theme, and shows the icon that matches it |
| Theme.LoadTheme | script.js:39-43 | shows the saved theme or the default, leaves storage unchanged, and shows the matching icon |
| Theme.ToggleTwice | script.js:26-32 | two toggles give light from light and dark from anything else, so they restore both light and dark |
| Theme.ToggleSurvivesReload | script.js:26-43 | after a toggle, loading the page again gives back exactly the toggled state |
| Theme.FirstVisitIsDark | script.js:39-43 | with nothing saved, the page loads dark with the moon icon |
| Projects.Shown | script.js:69 | with the filter `all` every card is shown; otherwise a card is shown exactly when its category equals the filter |
| Projects.Filtered | script.js:66-77 | a filtered card keeps its category; it is displayed and faded in exactly when the rule shows it |
| Projects.OnlyOneActive | script.js:82-83 | when only the clicked button is active, exactly one button is active |
| Projects.Gallery.constructor | script.js:5-6 | the cards and buttons start as the page lists them |
| Projects.Gallery.FilterProjects | script.js:66-77 | every card ends up filtered by the rule for the given category |
| Projects.Gallery.Click | script.js:79-88 | exactly the clicked button is active, the others are otherwise unchanged, exactly one button is active, and every card is filtered by the clicked button's filter |
| Tagline.NextIndex | script.js:56 | the next index is below the number of taglines, and moves one forward, wrapping from the last line to the first |
| Tagline.IndexAfter | script.js:54-56 | the index after n ticks, starting from 0, always stays below the number of taglines |
| Tagline.IndexAfterTicks | script.js:53-63 | after n ticks from the start, the index is n modulo 3 |
| Tagline.Rotator.constructor | script.js:53-54 | the rotation starts at index 0 and keeps the page's initial text |
| Tagline.Rotator.Tick | script.js:55-61 | the index advances by one modulo 3, equals the tick count modulo 3, and the line at that index is on show |

## Left out

- DOM lookups, event-listener registration and `classList`/`style` writes
  as browser effects. The model keeps only their logical content.
- `localStorage` I/O. The saved theme is an optional string in `ThemeState`.
- Timers: the 4000 ms interval, the 300 ms fade before a tagline changes,
  and the 10 ms and 300 ms delays in `filterProjects`. The model gives the
  state once they have run. So it does not capture a hide that an earlier
  click scheduled and that fires after a later click showed the card again.
- Tagline.Rotator.Tick: sets the new text in the same step as the index.
  The source sets it 300 ms later, inside a timeout.
- Opacity changes and fade animation, `toggleMenu`, smooth scrolling,
  the `IntersectionObserver` scroll reveal and the social-link `alert`.
  They are UI effects with no rule beyond a class toggle or a browser call.
- The submit handler's success message and `contactForm.reset()`. These are
  UI effects that follow a successful `validateForm`.
- JavaScript string length counts UTF-16 code units. The model counts
  Unicode scalar values, so a name or message that contains characters
  outside the Basic Multilingual Plane can have a different length there.
  The regular expression without the `u` flag likewise works on code units.
- The JavaScript regular-expression engine. The pattern is the explicit
  predicate `Email.MatchesEmailPattern`, proved equal to the hand-written
  checks `Email.IsEmail`.
