# Portfolio UI state machines in Dafny

This project models the small amount of logic in a single-page portfolio
website. Each piece is an immutable state record with a pure step function,
plus lemmas about what every run of that step function keeps true. The pieces are:

- **Typewriter** (`typewriter.dfy`, hero section): types a role one character
  at a time (100 ms per step), pauses 2000 ms, deletes it (50 ms per step), and
  moves on to the next of four roles.
- **ProjectFilter** (`project_filter.dfy`, projects page): keeps the projects
  that match the selected category ('All' or an exact category) and whose
  title or some tag contains the search query, ignoring case. It also decides
  when the "No projects found" message shows.
- **Testimonials** (`testimonials.dfy`): the carousel index advances modulo four
  every 5000 ms through a 300 ms animation; clicking a dot jumps to it, and
  clicking the active dot does nothing.
- **Theme** (`theme.dfy`, theme provider): the initial theme comes from the
  persisted choice or the system preference. A toggle raises the transition
  flag, flips the theme at 750 ms (persisting it), and lowers the flag at
  1500 ms. The toggle's timers are never cancelled. The `useTheme` guard is
  modelled too.
- **ThemeOverlay** (`theme_overlay.dfy`, transition overlay): remembers which
  way the transition goes and renders a moon, a sun or nothing.
- **Intro** (`intro.dfy`, splash screen): phases text → glitch (2000 ms) →
  blades (3500 ms) → fade (5000 ms), then `onComplete` at 5500 ms. All timers
  are cleared on unmount. The module also defines which visual layers show in
  each phase.
- **Like** (`like.dfy`, like button): gets or creates a session id in local
  storage. A click while liked only shows a notice. Otherwise the click sends
  one insert, and a stored flag keyed by the session id is set only when that
  insert succeeds.
- **Contact** (`contact.dfy`, contact form's submit button): idle → sending
  (1500 ms simulated wait) → sent (3000 ms) → idle. The button's disabled
  state and label are derived from two flags.

`wrappers.dfy` holds `Option`/`Result`; `text.dfy` holds ASCII lower-casing and
a substring test with the semantics of JavaScript's `String.prototype.includes`.

Timers, storage, the network, the system colour preference and random ids are
all inputs:

- every `setTimeout`/`setInterval` firing is an explicit event;
- local storage is a `map<string, string>` (or an `Option<string>` for the
  single theme key);
- an insert's outcome is a boolean carried by its event;
- `crypto.randomUUID()` is a non-empty string carried by the click;
- the colour-scheme media query is a boolean passed at mount.

Where several timers can be pending, the equal 300 ms carousel timers are
kept as a queue in the order they were armed. The theme's 750 ms and 1500 ms
timers are kept as two counts, with an end due only while more ends than
flips are pending; these counts over-approximate the orders the delays
allow, so some event sequences the model accepts could not happen with exact
timing.

A few facts about the code that a reader might not expect:

- The intro starts its four timers on mount; nothing waits for a click.
  Unmounting clears them. A new `onComplete` callback clears and re-arms
  them without resetting the phase (`Intro.NewCallbackRestartsTimers`).
- The contact form's handler reads no field and validates nothing beyond the
  HTML `required` and `type="email"` constraints, and it sends nothing: it
  only waits 1500 ms. The model's `Submitted` event stands for a submit the
  browser actually dispatched, that is, one that passed those constraints.
- The like button has no in-flight guard, so two clicks before the first
  insert settles send two inserts for the same session
  (`Like.DoubleClickInsertsTwice`).

The overlay's effect depends on `isDark`. So when the theme flips at 750 ms,
while the flag is still up, the overlay's direction reverses; the
`ThemeOverlay.DirectionReversesAtFlip` lemma shows this.

## Model

| member | source | states |
|---|---|---|
| Text.Lower | src/pages/Projects.tsx:190-191 | `toLowerCase` keeps the length, maps each ASCII capital to its lower-case letter and leaves every other character, so no capital remains |
| Text.Includes | src/pages/Projects.tsx:190-191 | `includes` holds iff the needle occurs at some position of the haystack; the empty needle occurs everywhere |
| Text.LowerIdempotent | src/pages/Projects.tsx:190-191 | lower-casing an already lower-cased string changes nothing |
| Typewriter.StepDelay | src/components/sections/HeroSection.tsx:37 | the step timer is 50 ms exactly when deleting and 100 ms exactly when typing |
| Typewriter.Step | src/components/sections/HeroSection.tsx:21-36 | typing below the role length adds exactly the next character of the role; a fully typed role leaves the text alone and arms only the 2000 ms pause; deleting removes exactly the last character; deleting an empty text stops deleting and moves to `(role+1) % 4`; the pause is armed exactly when a fully typed role is found, and every other step re-arms the step timer with the delay of the resulting mode (100 ms typing, 50 ms deleting) |
| Typewriter.EndPause | src/components/sections/HeroSection.tsx:27 | the pause ends by switching to deleting without touching the text or role, and arms a 50 ms step |
| Typewriter.FirePreservesInv | src/components/sections/HeroSection.tsx:20-40 | one timer firing keeps the text a prefix of the current role, the role index below 4, and the pending delay consistent with the mode |
| Typewriter.InitInv | src/components/sections/HeroSection.tsx:16-18 | the mounted state (first role, empty text, typing) satisfies the invariant |
| Typewriter.RunPreservesInv | src/components/sections/HeroSection.tsx:20-40 | along any run the displayed text is a prefix of `roles[currentRole]`, no longer than it, and the role index stays in 0..3 |
| Typewriter.TypingCompletes | src/components/sections/HeroSection.tsx:23-25 | from k typed characters, `|role| - k` steps type the whole role |
| Typewriter.DeletingCompletes | src/components/sections/HeroSection.tsx:29-31 | from k characters, k deleting steps empty the text |
| Typewriter.FullCycle | src/components/sections/HeroSection.tsx:20-40 | `2·|role| + 3` timer firings take the start of role r to the start of role `(r+1) % 4` |
| ProjectFilter.CategoriesCoverProjects | src/pages/Projects.tsx:10-73 | every project's category is one of the category buttons, and every button but 'All' names some project's category |
| ProjectFilter.MatchesCategory | src/pages/Projects.tsx:189 | 'All' accepts every project; any other category accepts exactly the projects with that category |
| ProjectFilter.SomeTagIncludes | src/pages/Projects.tsx:191 | some tag, lower-cased, contains the query |
| ProjectFilter.MatchesSearch | src/pages/Projects.tsx:190-191 | the lower-cased query occurs in the lower-cased title or in some lower-cased tag |
| ProjectFilter.Filter | src/pages/Projects.tsx:188-193 | the result is an order-preserving sub-list of the input; each project occurs in it exactly as often as in the input if it matches both category and search, and not at all otherwise |
| ProjectFilter.ShowsNoResults | src/pages/Projects.tsx:269 | the empty-result message shows iff no project matches both conditions |
| ProjectFilter.EmptyQueryMatchesAll | src/pages/Projects.tsx:190-191 | an empty query matches every project |
| ProjectFilter.KeptIsFound | src/pages/Projects.tsx:188-192 | a project of the list that matches both conditions is in the result |
| ProjectFilter.FilterKeepingAll | src/pages/Projects.tsx:188-193 | when every project matches, the filter returns the list unchanged |
| ProjectFilter.InitialSelectionShowsAll | src/pages/Projects.tsx:185-193 | the initial selection ('All', empty query) shows all six projects in order |
| ProjectFilter.CategoryNarrowsAll | src/pages/Projects.tsx:189-192 | for a fixed query, any category's result is an order-preserving sub-list of the 'All' result |
| ProjectFilter.QueryCaseInsensitive | src/pages/Projects.tsx:190-191 | a query and its lower-cased form give the same result |
| ProjectFilter.FilterIdempotent | src/pages/Projects.tsx:188-193 | filtering a filtered list again changes nothing |
| ProjectFilter.DockerSearchFindsTaggedProjects | src/pages/Projects.tsx:10-71 | searching "docker" finds both projects tagged "Docker" |
| ProjectFilter.OverlongQueryFindsNothing | src/pages/Projects.tsx:190-191 | a query longer than every title and tag finds nothing, so the empty-result message shows |
| Testimonials.Apply | src/components/sections/TestimonialsSection.tsx:58-61 | a firing 300 ms timer ends the animation and sets the index to the next one modulo the count, or to the clicked index |
| Testimonials.Step | src/components/sections/TestimonialsSection.tsx:55-75 | the interval and a click on another dot raise `isAnimating` and queue one timer without changing the index; clicking the active dot changes nothing; the oldest queued timer, when it fires, ends the animation and sets the index to `(prev+1) % 4` or to the clicked index |
| Testimonials.RunPreservesInv | src/components/sections/TestimonialsSection.tsx:51-75 | along any run the active index stays in 0..3 |
| Testimonials.AutoAdvance | src/components/sections/TestimonialsSection.tsx:56-61 | one auto-advance sets the index to `(prev+1) % 4` and ends at rest |
| Testimonials.FourAdvancesReturn | src/components/sections/TestimonialsSection.tsx:59 | four auto-advances return the carousel to its starting state |
| Testimonials.DotClickJumps | src/components/sections/TestimonialsSection.tsx:67-75 | clicking another dot starts the animation at once; when the timer fires, that index is active and the animation is over |
| Testimonials.Current | src/components/sections/TestimonialsSection.tsx:158-170 | the shown card is the testimonial at `activeIndex`, whose id is `activeIndex + 1` |
| Testimonials.PositionLabel | src/components/sections/TestimonialsSection.tsx:146-178 | the labels show `activeIndex + 1`, in 1..4, out of 4 |
| Testimonials.ActiveMarkers | src/components/sections/TestimonialsSection.tsx:192-225 | exactly one dot and one side card are highlighted, the one at the active index |
| Theme.Default | src/contexts/ThemeContext.tsx:12-13 | before mount the theme is dark and not transitioning |
| Theme.InitialDark | src/contexts/ThemeContext.tsx:18 | a non-empty saved value gives dark iff it is "dark"; a missing or empty one gives the system preference |
| Theme.Mount | src/contexts/ThemeContext.tsx:15-21 | mounting sets the theme to the resolved initial one, mirrors it on the root class, and touches nothing else |
| Theme.Step | src/contexts/ThemeContext.tsx:23-38 | a toggle raises the flag without changing the theme, storage or root class; a flip negates the current theme and persists and mirrors the new value; an end lowers the flag; an event with no timer due does nothing |
| Theme.ThemeParity | src/contexts/ThemeContext.tsx:26-33 | after any run the theme equals the start theme XOR (an odd number of flips fired) |
| Theme.FlipBookkeeping | src/contexts/ThemeContext.tsx:23-37 | each toggle arms exactly one flip; pending plus fired flips equals initial pending plus toggles |
| Theme.ParityOfToggles | src/contexts/ThemeContext.tsx:23-38 | once all flips have fired, the theme is the start theme XOR (the number of toggles is odd), however the toggles overlap |
| Theme.RunKeepsPersisted | src/contexts/ThemeContext.tsx:26-31 | once the stored value and root class agree with the theme, every later step keeps them in agreement |
| Theme.RunPreservesInv | src/contexts/ThemeContext.tsx:23-38 | pending flips never outnumber pending ends |
| Theme.SingleToggle | src/contexts/ThemeContext.tsx:23-38 | an uninterrupted toggle ends with the theme negated and persisted, the flag down, and no timers pending |
| Theme.OverlappingToggles | src/contexts/ThemeContext.tsx:23-38 | with a second toggle 750 to 1500 ms after the first (toggle, flip, toggle, end, flip, end), the first end lowers the flag while the second flip is still pending, and after both complete the theme is back where it started |
| Theme.QuickToggles | src/contexts/ThemeContext.tsx:23-38 | with two toggles less than 750 ms apart, both flips fire before the first end, that end lowers the flag while one end is still pending, and the theme ends where it started |
| Theme.ReloadRestoresTheme | src/contexts/ThemeContext.tsx:18-29 | the persisted name of a theme resolves back to that theme on the next load, whatever the system preference |
| Theme.RemountKeepsTheme | src/contexts/ThemeContext.tsx:12-29 | a provider mounted over persisted storage starts in the persisted theme |
| Theme.UseTheme | src/contexts/ThemeContext.tsx:47-53 | outside a provider the hook fails with its error message; inside one it returns the provider's value |
| ThemeOverlay.Sync | src/components/ui/ThemeTransition.tsx:9-16 | during a transition the remembered direction becomes the opposite of the current theme; otherwise it is kept |
| ThemeOverlay.Render | src/components/ui/ThemeTransition.tsx:18-62 | something renders iff transitioning with a known direction; the moon iff heading to dark, otherwise the sun |
| ThemeOverlay.Init | src/components/ui/ThemeTransition.tsx:7-16 | the direction starts unknown unless the provider is already transitioning |
| ThemeOverlay.Step | src/components/ui/ThemeTransition.tsx:9-16 | after every provider change the direction is the opposite of the theme while transitioning, and unchanged otherwise |
| ThemeOverlay.RunShowsOppositeTheme | src/components/ui/ThemeTransition.tsx:9-62 | along any run, once the effect has run, while transitioning exactly one effect shows and it is the moon iff the current theme is light |
| ThemeOverlay.Renders | src/components/ui/ThemeTransition.tsx:9-18 | a provider change commits two renders: the first, with the new flags and the old direction, shows an effect only during a transition with a direction remembered from before (the moon iff that direction is dark); the second, after the effect, shows an effect exactly during a transition, the moon iff the theme of that moment is light |
| ThemeOverlay.FirstToggleRendersNothingFirst | src/components/ui/ThemeTransition.tsx:7-18 | on the first toggle the render before the effect shows nothing (direction still null); the next shows the target theme's effect |
| ThemeOverlay.FlipFromDarkShowsSunFirst | src/components/ui/ThemeTransition.tsx:9-62 | at the flip from dark, the render before the effect still shows the sun although the theme is light; the effect then switches to the moon |
| ThemeOverlay.DirectionReversesAtFlip | src/components/ui/ThemeTransition.tsx:9-18 | from rest, a toggle shows the target theme's effect, the 750 ms flip reverses it, and after 1500 ms nothing shows while the direction is kept |
| Intro.Init | src/components/ui/IntroScreen.tsx:4 | the screen starts in the text phase, mounted, with all four timers pending, `onComplete` not yet called and `play()` not yet tried |
| Intro.Step | src/components/ui/IntroScreen.tsx:7-24 | unmounting only clears the timers; a timer fires only while mounted and pending, advancing the fired count and setting the phase or calling `onComplete` as scheduled, and calling `play()` only from the blade timer and only when the audio element exists; a new callback while mounted re-arms all four timers and keeps the phase |
| Intro.StepPreservesInv | src/components/ui/IntroScreen.tsx:9-21 | the phase follows the fired timers; `onComplete` runs only from the fade phase; `play()` is tried only on entering blades |
| Intro.RunPreservesInv | src/components/ui/IntroScreen.tsx:9-21 | along any run in which `onComplete` keeps its identity, phases only move forward, `onComplete` runs at most once, and only in the fade phase |
| Intro.NewCallbackRestartsTimers | src/components/ui/IntroScreen.tsx:7-24 | a new callback at 4000 ms sends the phase back from blades to glitch and lets `play()` run again; a new callback at 6000 ms calls `onComplete` a second time |
| Intro.NothingAfterUnmount | src/components/ui/IntroScreen.tsx:23 | after unmount no event changes the phase or calls `onComplete` |
| Intro.AudioDoesNotMatter | src/components/ui/IntroScreen.tsx:11-18 | a missing or refused sound does not change the phase, the timers or the callback |
| Intro.DueCount | src/components/ui/IntroScreen.tsx:9-21 | the k-th timer is due at time t iff its delay is at most t |
| Intro.Timeline | src/components/ui/IntroScreen.tsx:9-21 | the phase at time t is text before 2000, glitch before 3500, blades before 5000, fade after; `onComplete` has run once from 5500 on |
| Intro.ViewOverTime | src/components/ui/IntroScreen.tsx:28-87 | glitch-out from 2000 ms; glitch layers only in 2000..3499 ms; blades from 3500 ms; transparent from 5000 ms |
| Like.LikedKeyIsNotSessionKey | src/components/ui/LikeButton.tsx:12-23 | the liked flag's key never overwrites the session id's key |
| Like.GetSessionId | src/components/ui/LikeButton.tsx:11-18 | returns the stored non-empty id unchanged, or stores and returns the new one; no other key changes |
| Like.SessionIdIsStable | src/components/ui/LikeButton.tsx:11-18 | a second call returns the same id and stores nothing more |
| Like.Mount | src/components/ui/LikeButton.tsx:20-27 | on mount `liked` becomes true iff the session's flag is exactly "true"; only storage and `liked` change |
| Like.Step | src/components/ui/LikeButton.tsx:29-54 | a click while liked changes only the notice; otherwise it sends one insert with the session id and changes neither notice nor timers; success sets `liked` and the stored flag; failure leaves both alone; either outcome arms the 600 ms reset; the reset only clears the animation |
| Like.MountEstablishesInv | src/components/ui/LikeButton.tsx:20-27 | after mount, `liked` holds iff storage records the like for the session |
| Like.StepPreservesInv | src/components/ui/LikeButton.tsx:29-54 | every step keeps `liked` backed by the stored flag and every insert in flight carrying the stored session id |
| Like.RunPreservesInv | src/components/ui/LikeButton.tsx:29-54 | along any run, `liked` implies the stored flag for the current session is "true" |
| Like.LikedIsFinal | src/components/ui/LikeButton.tsx:30-33 | once liked, no sequence of events sends another insert or clears `liked` |
| Like.RetryAfterFailure | src/components/ui/LikeButton.tsx:43-50 | after a failed insert `liked` stays false and the next click sends a new insert |
| Like.DoubleClickInsertsTwice | src/components/ui/LikeButton.tsx:30-45 | two clicks before the insert settles send two inserts for the same session |
| Contact.ButtonLabel | src/components/sections/ContactSection.tsx:168-185 | "Sending..." iff submitting; "Sent!" iff not submitting and successful; "Send Message" iff the button is enabled; the rendered text follows the same rule |
| Contact.HandleSubmit | src/components/sections/ContactSection.tsx:35-37 | submitting prevents the default action, raises `isSubmitting` and starts one wait |
| Contact.Step | src/components/sections/ContactSection.tsx:35-51 | a submit on a disabled button does nothing; the wait ending clears submitting, sets success, shows one toast and arms the reset; the reset clears success and leaves the toasts and waits alone |
| Contact.RunPreservesInv | src/components/sections/ContactSection.tsx:35-51 | along any run the button is idle, sending or sent, never sending and sent at once |
| Contact.SubmitCycle | src/components/sections/ContactSection.tsx:35-51 | from idle, submit, wait and reset return to idle, having shown one toast |
| Contact.NoResubmitWhileDisabled | src/components/sections/ContactSection.tsx:168 | a submit while sending or sent has no effect on any later run |

## Left out

- Rendering: markup, CSS classes other than the view predicates above, random star and spark positions, 3D and decorative components, the scroll-visibility hook, the navbar, and the skills and about sections.
- Real time and the event loop: every timer firing is an explicit event, and the model does not track how many milliseconds pass between events.
- Browser and network side effects are inputs: local storage, the colour-scheme media query, `crypto.randomUUID`, the hosted-store insert, and audio playback. Toasts are reduced to which notice shows (like button) or how many "Message sent!" toasts appeared (contact form). `console.error` and the audio volume are not modelled.
- Text.Lower: `toLowerCase` is modelled on ASCII letters only; Unicode case mapping is not modelled.
- Project descriptions, images and links, and testimonial quote text, are not part of the model, because the logic never reads them.
- Testimonials.Step: pending 300 ms timers fire in the order they were armed (equal delays); the model does not represent the interval being cleared on unmount.
- Theme.Step: the overlapping timers of several toggles are modelled as counts. A toggle's end is due only while more ends than flips are pending. Exact firing times, and orderings that differ from the delays only in milliseconds, are not modelled.
- Like.Step: inserts settle in the order they were sent. All inserts carry the same session id, so the order does not affect what is stored.
- ThemeOverlay.RunShowsOppositeTheme: speaks of the render after the effect has run; the render committed before the effect, which may show nothing or the reversed effect, is given by `ThemeOverlay.Renders`.
- Intro.Timeline: describes a screen that stays mounted, with the same `onComplete`, up to time t. Unmounting earlier is covered separately by `Intro.NothingAfterUnmount`.
- Contact form fields: the handler reads none of them and has no validation beyond the HTML `required` and `type="email"` constraints, which the browser enforces before dispatching a submit, so no field rules are modelled.
