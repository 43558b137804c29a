# QuizMaster landing front-end: verified model of its page logic

The repository is a marketing site for a quiz platform. It has a hero section, a feature showcase, a testimonial carousel, a login page and a registration page. Almost all of it is markup. This project models the three pieces that carry logic and proves what they promise:

- **Registration page** (`register.dfy`, module `Register`).
  - The password-strength scorer and the four-item requirement checklist.
  - The ordered form validator.
  - The one-field form update.
  - The submit step, which clears the error, validates, then enters loading.
  - The delayed completion, which navigates to `/login`.
- **Login page** (`login.dfy`, module `Login`).
  - The submit step, which clears the error, rejects an empty field, then enters loading.
  - The delayed completion. It takes the "admin" branch when the email contains `admin`, but both branches navigate to `/`.
- **Testimonials section** (`testimonials.dfy`, module `Testimonials`).
  - The carousel index over the three testimonials. A tick advances it and a dot button overwrites it.
  - The one-shot reveal flag. It is set by the first intersecting observer entry, which also disconnects the observer.
  - Each card's placement (shown, left or right) relative to the active card.

Each page's state cells become a class: `RegisterPage`, `LoginPage` and `Section`. Each handler becomes a method with a `modifies` clause. Timers and observer callbacks are modelled as explicit event methods: `CompleteRegistration`, `Complete`, `Tick` and `OnEntry`. The router is a recorded list of destinations (`navigated`). The pure parts are functions with lemmas:

- the checklist, the reference rating `Rated` and the validator `Validate`;
- substring containment `Includes`;
- the tick iteration `Ticks`, the reveal step `Deliver` / `DeliverAll` and the placement `Place` / `Layout`.

The scorer `GetPasswordStrength` keeps the source's imperative shape: a mutable score is incremented rule by rule. It is proved equal to `Rated`. `Rated` takes the same two early returns as the page. For length 8 or more it is defined separately, as the number of checklist items that hold. The lemmas about `Rated` therefore describe what the page shows.

Two details of the code that the model keeps:

- **Reveal trigger.** The reveal fires on any intersecting entry received while the observer is connected (Testimonials.tsx:39-44). That includes the observer's first callback after `observe`; no earlier non-intersecting entry is needed. `Deliver` models exactly this.
- **Short passwords.** The "Weak" label for short passwords comes from an early return, not from the label table. `LabelMatchesTable` shows that the two still agree: `Labels[1] == "Weak"`.

## Model

| member | source | states |
|---|---|---|
| `Register.CountValid` | src/pages/Register.tsx:86-91 | the number of satisfied checklist items is at most the item count; it equals the count iff every item holds, and is 0 iff none holds |
| `Register.Checklist` | src/pages/Register.tsx:86-91 | four items, and the number marked valid is one per rule that holds: length ≥ 8, `[A-Z]`, `[0-9]`, `[^A-Za-z0-9]` |
| `Register.Rated` | src/pages/Register.tsx:67-81 | no contract of its own: the reference rating, whose properties `LongPasswordScore`, `ShortPasswordIsWeak`, `LabelMatchesTable`, `StrongExactly`, `WeakExactly` and `ChecklistAgreement` state |
| `Register.GetPasswordStrength` | src/pages/Register.tsx:67-82 | the step-by-step scorer returns the reference rating; the score always indexes the label table and the label is that entry |
| `Register.LongPasswordScore` | src/pages/Register.tsx:73-77 | for length ≥ 8 the score is 1 + [has A–Z] + [has 0–9] + [has a symbol], so 1 ≤ score ≤ 4 |
| `Register.ShortPasswordIsWeak` | src/pages/Register.tsx:71 | a non-empty password shorter than 8 scores 1, "Weak", and every such password is rated the same whatever characters it contains |
| `Register.LabelMatchesTable` | src/pages/Register.tsx:79-81 | in every branch the label is `['', 'Weak', 'Fair', 'Good', 'Strong'][score]` with the index in bounds; the label is empty iff the password is empty |
| `Register.StrongExactly` | src/pages/Register.tsx:73-81 | the label is "Strong" iff length ≥ 8 and all three character classes occur |
| `Register.WeakExactly` | src/pages/Register.tsx:69-81 | the label is "Weak" iff the password is short and non-empty, or long with none of the three classes: the two branches meeting at score 1 |
| `Register.ChecklistAgreement` | src/pages/Register.tsx:71-90 | the score equals the number of checklist items marked valid iff the password is empty, has length ≥ 8, or has exactly one of the three classes; a 7-character password with every class scores 1 against 3 items |
| `Register.LengthBoundary` | src/pages/Register.tsx:69-81 | "" gives (0, ""); "abcdefg" and "abcdefgh" both give (1, "Weak"), the latter with only the length item satisfied; "Abcdefg1!" gives (4, "Strong") |
| `Register.WithField` | src/pages/Register.tsx:21-27 | the updated record has the new value in the named field and every other field unchanged |
| `Register.Message` | src/pages/Register.tsx:31-41 | no contract of its own: the three error texts, which `RegisterPage.ValidateForm` writes to the error cell |
| `Register.Validate` | src/pages/Register.tsx:29-46 | no contract of its own: the ordered checks, whose meaning `ValidationOrder`, `ValidationSuccess` and `ValidationIgnoresOptional` state |
| `Register.ValidationOrder` | src/pages/Register.tsx:29-44 | missing-field error iff a required field is empty; mismatch error iff they are all filled and the passwords differ; length error iff filled, equal and shorter than 8 |
| `Register.ValidationSuccess` | src/pages/Register.tsx:29-46 | validation passes iff the four required fields are filled, the passwords match and the length is ≥ 8; then the password is rated 1 to 4 in the additive branch |
| `Register.ValidationIgnoresOptional` | src/pages/Register.tsx:30-45 | qualification and date of birth never affect the outcome |
| `Register.OptionalEditsKeepValidation` | src/pages/Register.tsx:21-45 | typing into an optional field leaves the validation outcome as it was |
| `Register.RegisterPage.constructor` | src/pages/Register.tsx:7-17 | the form starts with every field empty, no error, not loading, nothing scheduled, nothing navigated |
| `Register.RegisterPage.HandleChange` | src/pages/Register.tsx:21-27 | only `formData` changes, to the record with the named field replaced |
| `Register.RegisterPage.ValidateForm` | src/pages/Register.tsx:29-46 | returns true iff `Validate` finds nothing; on failure the error cell holds the first failing check's message, on success it is untouched |
| `Register.RegisterPage.HandleSubmit` | src/pages/Register.tsx:48-57 | on failure the error is the message and loading and the schedule are unchanged; on success the error is cleared, loading is on and one completion is scheduled |
| `Register.RegisterPage.CompleteRegistration` | src/pages/Register.tsx:59-64 | the completion navigates to `/login`, turns loading off and consumes one scheduled completion |
| `Login.Includes` | src/pages/Login.tsx:29 | no contract of its own: `includes` searched offset by offset; `IncludesAtOffset` states what it means |
| `Login.IsAdmin` | src/pages/Login.tsx:29 | no contract of its own: containment of "admin"; `AdminAnywhere` and `NoLowerANoAdmin` state what it accepts and rejects |
| `Login.IncludesAtOffset` | src/pages/Login.tsx:29 | `Includes(s, t)` holds iff t occurs in s at some offset |
| `Login.AdminAnywhere` | src/pages/Login.tsx:29 | any email with "admin" somewhere in it is an admin's |
| `Login.NoLowerANoAdmin` | src/pages/Login.tsx:29 | an email with no lower-case 'a' is never an admin's: the test is case-sensitive containment |
| `Login.Route` | src/pages/Login.tsx:32-36 | no contract of its own: the destination of each branch; `RouteIgnoresAdmin` states that both are "/" |
| `Login.RouteIgnoresAdmin` | src/pages/Login.tsx:29-37 | both branches route to "/"; the destination does not depend on the admin test |
| `Login.LoginPage.constructor` | src/pages/Login.tsx:7-11 | both fields empty, no error, not loading, nothing scheduled, nothing navigated |
| `Login.LoginPage.SetEmail` | src/pages/Login.tsx:80 | the email cell takes the typed value |
| `Login.LoginPage.SetPassword` | src/pages/Login.tsx:101 | the password cell takes the typed value |
| `Login.LoginPage.HandleSubmit` | src/pages/Login.tsx:15-27 | with a field empty the error is "Please fill in all fields" and loading and the schedule are unchanged; otherwise the error is cleared, loading is on and a completion capturing the email is queued |
| `Login.LoginPage.Complete` | src/pages/Login.tsx:27-39 | the oldest completion takes the admin branch iff its captured email contains "admin", navigates to "/" either way and turns loading off |
| `Testimonials.Next` | src/components/Testimonials.tsx:65 | the tick result is in [0, 3): the next index, or 0 after the last |
| `Testimonials.Ticks` | src/components/Testimonials.tsx:65 | no contract of its own: k interval updates in a row; `TicksWrap` states their closed form |
| `Testimonials.TicksWrap` | src/components/Testimonials.tsx:63-66 | k ticks from an index i in range give (i + k) mod 3 |
| `Testimonials.TicksFromStart` | src/components/Testimonials.tsx:35 | from the initial index 0, k ticks give k mod 3 |
| `Testimonials.SelectThenTick` | src/components/Testimonials.tsx:146 | after selecting i, one tick gives (i + 1) mod 3 and three ticks come back to i |
| `Testimonials.Deliver` | src/components/Testimonials.tsx:39-44 | no contract of its own: one observer callback; `Section.OnEntry` follows it, and `RevealIsPermanent`, `DisconnectedIgnoresEntries` and `RevealedIffSomeEntryIntersected` state its effect over runs |
| `Testimonials.DeliverAll` | src/components/Testimonials.tsx:39-44 | no contract of its own: a run of callbacks, the subject of the three reveal lemmas |
| `Testimonials.RevealIsPermanent` | src/components/Testimonials.tsx:39-44 | once visible, no sequence of later entries makes the section hidden |
| `Testimonials.DisconnectedIgnoresEntries` | src/components/Testimonials.tsx:41-42 | after disconnection every further entry leaves the state unchanged |
| `Testimonials.RevealedIffSomeEntryIntersected` | src/components/Testimonials.tsx:37-50 | from mount, the section is visible iff some entry intersected, and visible iff the observer is disconnected |
| `Testimonials.Place` | src/components/Testimonials.tsx:111-117 | no contract of its own: one card's placement; `Layout` states the classification |
| `Testimonials.Layout` | src/components/Testimonials.tsx:108-117 | one placement per testimonial: card k is shown iff k is the active index, left iff below it, right iff above it; with the index in range exactly one card is shown |
| `Testimonials.Section.constructor` | src/components/Testimonials.tsx:34-35 | the index starts at 0, the section hidden and the observer connected |
| `Testimonials.Section.Tick` | src/components/Testimonials.tsx:63-66 | the index becomes `Next` of the old one; the invariant keeps it equal to (anchor + ticks since it) mod 3 and in [0, 3) |
| `Testimonials.Section.Select` | src/components/Testimonials.tsx:146 | the index becomes i and the tick count restarts from it; the timer itself is not touched |
| `Testimonials.Section.OnEntry` | src/components/Testimonials.tsx:39-44 | the state follows `Deliver`: an intersecting entry while connected reveals and disconnects, anything else changes nothing; visibility never reverts |

## Left out

- JSX, CSS class strings, icons and the testimonial texts: presentation only.
- `Footer.tsx` and `NotFound.tsx`: static markup and a log line, with no logic.
- `Hero.tsx`: a single 100 ms timeout that flips an animation flag.
- `Navbar.tsx`: the scroll listener, the mobile-menu toggle and the route-change reset. These are DOM event plumbing.
- `Features.tsx`: its reveal observer is the same as the testimonials one, which `Deliver` models. Its per-card delay is a CSS timing value.
- The show-password toggles on both forms: a display flag only.
- Real time. The 1500 ms and 5000 ms delays are explicit events.
- Teardown. The unmount clean-up (`clearInterval`, `unobserve`) is not modelled, so after unmount the model would keep accepting ticks and entries.
- The observer options: threshold 0.1 and root margin. An entry is reduced to its `isIntersecting` flag, and only the first entry of a callback batch is read, as in the source.
- The case where the section element is missing at mount and nothing is observed: the model starts connected.
- React's batching of state updates. Each handler's final state is modelled; intermediate renders are not.
- `console.log` lines. The admin or user branch is returned by `Complete` instead.
- The regex engine. The three classes are character predicates.
- JavaScript string length and the regexes work on UTF-16 code units, while Dafny's `string` is a sequence of Unicode scalar values. A character outside the Basic Multilingual Plane therefore counts once here but twice in the page. The model claims nothing about such characters.
- The browser's own form checks. The inputs carry `required` (Register.tsx:135, 151, 199, 267; Login.tsx:83, 104), and the email inputs carry `type="email"` (Register.tsx:146; Login.tsx:78). The browser therefore blocks a submit with an empty or malformed field before `handleSubmit` runs. The modelled missing-field branches (`Validate` giving `MissingRequired`, and the first case of `LoginPage.HandleSubmit`) are reached only when those checks are bypassed. The model does not check email format at all.
- A guard against a second submit while loading: there is none in either handler, and the model accepts such a submit too. The source only disables the button.
