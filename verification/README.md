# Contact wizard, modal visibility and project catalogue: a Dafny model

This project models the stateful logic of a marketing site for a PR holding company.
It covers three parts:

- **The lead-capture contact modal** (`components/ui/ContactModal.tsx`). This is a two-step wizard over a form record. It has four required strings (name, email, company, phone), a list of service labels, and four optional strings (budget, timeline, message, referral). It also holds a step number and the `isSubmitting` / `isSubmitted` flags. It is modelled in modules `ContactForm`, `ServiceList` and `ContactWizard`.
- **The shared modal visibility** (`lib/contact-modal-context.tsx`). This is `isOpen` plus the document body's inline `overflow` style, kept as an abstract string. It is modelled in module `ModalContext`.
- **The static project catalogue** (`lib/projects.ts`). This is a table of six case studies with a lookup by slug, a featured filter and a category filter. It is modelled in module `Projects`.

`Array.prototype.filter`, which both the service toggle and the project queries use, is modelled once, generically, in module `Lists`.

Every handler is a pure function on immutable datatypes. The whole modal is an `App` record holding:

- the visibility;
- the wizard state;
- a queue of pending timer callbacks.

User actions and timer expiries are `Event`s. `Available` says which events can happen in a state: a control must be rendered and enabled, or a timer must be pending. `Run` replays a sequence of events and ignores the ones that cannot happen.

The two `setTimeout`s of `handleSubmit` are two discrete timer events, not durations:

- `SubmitDelay`: the awaited 1500 ms wait, then `isSubmitting := false, isSubmitted := true`.
- `ResetDelay`: the 3000 ms reset, which calls `closeModal` and clears the wizard.

The main theorem is `ContactWizard.Reachable`. It says that in every state reachable from the initial one:

- the two submission flags are never both set;
- page scrolling is suppressed exactly while the modal is open;
- step 2 is shown only for a form that passes the step-1 gate;
- the services list has no duplicates.

## Behaviour of the code worth knowing

- Edits and Back stay available while a submission is in flight. The form and the footer with the Back button are rendered whenever `isSubmitted` is false (components/ui/ContactModal.tsx:398-420, 467-477), and that includes the submitting phase (`ContactWizard.EditableWhileSubmitting`).
- `services` is an ordered array (components/ui/ContactModal.tsx:316-318). Toggling an absent label twice restores the list exactly. Toggling a present label twice keeps the same labels, but moves that label to the end (`ServiceList.ToggleTwicePresent`).
- A manual close (components/ui/ContactModal.tsx:365, 390) only calls `closeModal`. No pending timer is cancelled. The reset returns the whole state to the initial one whether or not the modal was closed by hand (`ContactWizard.ResetReturnsToInit`).

## Model

| member | source | states |
|---|---|---|
| `ModalContext.OpenModal` | lib/contact-modal-context.tsx:18-22 | opening shows the modal and sets the body overflow to "hidden", a state where scroll suppression and visibility agree |
| `ModalContext.CloseModal` | lib/contact-modal-context.tsx:24-28 | closing hides the modal and restores the overflow to "", which is the provider's initial state |
| `ModalContext.OpenIdempotent` | lib/contact-modal-context.tsx:18-22 | opening twice is the same as opening once |
| `ModalContext.CloseIdempotent` | lib/contact-modal-context.tsx:24-28 | closing twice is the same as closing once |
| `ModalContext.Apply` | lib/contact-modal-context.tsx:18-28 | after any single call the modal is open exactly when the call was `openModal`, with overflow in step |
| `ModalContext.RunKeepsConsistent` | lib/contact-modal-context.tsx:16-28 | from a consistent state (the initial one included), every sequence of open/close calls keeps `isOpen` iff overflow is "hidden" |
| `ModalContext.LastCallDecides` | lib/contact-modal-context.tsx:18-28 | the state after a non-empty sequence of calls is decided by the last call alone |
| `ModalContext.OpenCloseOpen` | lib/contact-modal-context.tsx:18-28 | open, close, open from the initial state leaves the modal open with scrolling suppressed |
| `ModalContext.UseContactModal` | lib/contact-modal-context.tsx:37-43 | the hook fails with the "must be used within a ContactModalProvider" error exactly when no provider is present, and otherwise returns the provider's value |
| `ServiceList.Remove` | components/ui/ContactModal.tsx:317 | filtering a label out removes every copy of it, keeps every other label exactly as often as it occurs and in its original order, and changes nothing when the label is absent |
| `ServiceList.ToggleMembership` | components/ui/ContactModal.tsx:313-320 | toggling flips the membership of the toggled label, and every other label keeps its membership |
| `ServiceList.ToggleKeepsOthersInOrder` | components/ui/ContactModal.tsx:316-318 | with the toggled label filtered out, the list before and after toggling is the same, so the other labels keep their relative order |
| `ServiceList.ToggleKeepsNoDuplicates` | components/ui/ContactModal.tsx:316-318 | a list without repeated labels has none after a toggle, because a label is appended only when absent |
| `ServiceList.RemoveKeepsNoDuplicates` | components/ui/ContactModal.tsx:317 | filtering a label out of a duplicate-free list leaves it duplicate-free |
| `ServiceList.ToggleTwiceAbsent` | components/ui/ContactModal.tsx:316-318 | toggling an absent label twice restores the original list exactly |
| `ServiceList.ToggleTwicePresent` | components/ui/ContactModal.tsx:316-318 | toggling a present label twice gives the other labels in order followed by that label, so the same set of labels |
| `ServiceList.ToggleTwicePresentPermutes` | components/ui/ContactModal.tsx:316-318 | for a duplicate-free list, toggling a present label twice is a permutation of the original |
| `ContactForm.SetField` | components/ui/ContactModal.tsx:306-311 | a field edit sets the named field to the new value and leaves every other field and the services list unchanged |
| `ContactForm.SetFieldLaws` | components/ui/ContactModal.tsx:306-311 | writing back a field's current value is a no-op, and a later edit of the same field overrides an earlier one |
| `ContactForm.GateFailsIffRequiredEmpty` | components/ui/ContactModal.tsx:351-352 | the step-1 gate fails exactly when one of name, email, company or phone is the empty string (JavaScript truthiness, so whitespace counts as filled) |
| `ContactForm.GateIgnoresOptionalFields` | components/ui/ContactModal.tsx:351-352 | editing an optional field or toggling a service never changes the gate |
| `ContactForm.GateExamples` | components/ui/ContactModal.tsx:351-352 | whitespace-only required fields pass; a form with an empty company fails, and passes once the company is filled |
| `ContactForm.EmptyWellFormed` | components/ui/ContactModal.tsx:292-304 | the initial form respects the catalogs and does not pass the gate |
| `ContactWizard.HandleInputChange` | components/ui/ContactModal.tsx:306-311 | an edit changes only the named field; the step, both flags and the services are unchanged |
| `ContactWizard.HandleServiceToggle` | components/ui/ContactModal.tsx:313-320 | a toggle flips the toggled label's membership and keeps every other label's membership, all text fields, the step and both flags |
| `ContactWizard.ClickContinue` | components/ui/ContactModal.tsx:482-491 | Continue moves to step 2 when the gate holds and is a no-op otherwise (the button is disabled); the form and flags are unchanged |
| `ContactWizard.ClickBack` | components/ui/ContactModal.tsx:470-477 | Back returns to step 1 and leaves the form and both flags untouched |
| `ContactWizard.HandleSubmit` | components/ui/ContactModal.tsx:322-324 | submitting sets `isSubmitting` and changes neither the form, the step nor `isSubmitted` |
| `ContactWizard.SubmitDelayElapsed` | components/ui/ContactModal.tsx:326-330 | the first timer clears `isSubmitting`, sets `isSubmitted`, and keeps the form and step |
| `ContactWizard.ResetDelayElapsed` | components/ui/ContactModal.tsx:333-348 | the reset callback clears `isSubmitted`, returns to step 1, empties every text field and the services list, and leaves `isSubmitting` as it is |
| `ContactWizard.ResetIsInitial` | components/ui/ContactModal.tsx:333-348 | the reset callback leaves exactly the component's initial state if and only if no submission is in flight, since it never touches `isSubmitting` |
| `ContactWizard.InitInv` | components/ui/ContactModal.tsx:288-304 | the initial modal state satisfies the reachability invariant |
| `ContactWizard.InputKeepsInv` | components/ui/ContactModal.tsx:306-311 | an edit the rendered controls allow keeps the invariant: select values stay in their option lists and the gate is unaffected on step 2 |
| `ContactWizard.ToggleKeepsInv` | components/ui/ContactModal.tsx:313-320 | a click on a service button keeps the invariant: catalog labels only, no duplicates |
| `ContactWizard.ApplyKeepsInv` | components/ui/ContactModal.tsx:322-349 | every event that can happen keeps the invariant: the flags are never both set, and the pending timers match the submission phase |
| `ContactWizard.RunKeepsInv` | components/ui/ContactModal.tsx:322-349 | every sequence of events keeps the invariant |
| `ContactWizard.Reachable` | components/ui/ContactModal.tsx:322-352 | in every reachable state, `isSubmitting` and `isSubmitted` are never both true, overflow is "hidden" iff the modal is open, step 2 implies the gate holds, and services have no duplicates |
| `ContactWizard.ContinueGate` | components/ui/ContactModal.tsx:482-491 | on step 1, Continue is enabled iff the gate holds, the step becomes 2 iff the gate holds, and the form never changes |
| `ContactWizard.BackThenContinue` | components/ui/ContactModal.tsx:470-491 | Back keeps the form, Continue is then enabled, and Back followed by Continue restores exactly the previous step-2 state |
| `ContactWizard.ManualCloseKeepsWizard` | components/ui/ContactModal.tsx:359-394 | the backdrop or close button hides the modal but changes neither the step, the form, the flags nor the pending timers |
| `ContactWizard.SubmitStarts` | components/ui/ContactModal.tsx:493-498 | Submit is possible only on step 2 with neither flag set; it sets `isSubmitting`, schedules the first timer, and changes nothing else |
| `ContactWizard.SubmittingCompletes` | components/ui/ContactModal.tsx:326-333 | while submitting, the pending timer moves to the confirmation, keeps the form and step, and schedules the reset |
| `ContactWizard.ResetReturnsToInit` | components/ui/ContactModal.tsx:333-348 | after the confirmation, the reset returns the whole state (visibility, wizard, timers) to the initial one, whether or not the modal was closed by hand |
| `ContactWizard.EditableWhileSubmitting` | components/ui/ContactModal.tsx:468-477 | while a submission is in flight on step 2, Back and the message input stay available and an edit is applied without ending the submission, while Submit is not available |
| `ContactWizard.EndToEnd` | components/ui/ContactModal.tsx:322-349 | open, fill step 1, Continue, toggle two services, submit: the wizard goes through submitting, then submitted, then back to the initial state |
| `ContactWizard.RunAppend` | components/ui/ContactModal.tsx:322-349 | replaying two event sequences one after the other is the same as replaying their concatenation |
| `Projects.Find` | lib/projects.ts:198-200 | `find` by slug returns a table project with that slug, and returns nothing iff no project has that slug |
| `Projects.FindReturnsFirst` | lib/projects.ts:198-200 | with several matches, `find` returns the first in list order |
| `Lists.Filter` | lib/projects.ts:202-208 | `filter` returns no more elements than its input, and an element is in the result iff it is in the input and passes |
| `Lists.FilterCounts` | lib/projects.ts:202-208 | each passing element occurs in the result as often as in the input; failing elements do not occur |
| `Lists.FilterIsSubsequence` | lib/projects.ts:202-208 | the filter result is an order-preserving subsequence of its input |
| `Lists.FilterPartition` | app/projects/page.tsx:11-12 | complementary filters split a list into two parts whose multisets add up to the list, each element in exactly one part |
| `Lists.FilterAppend` | lib/projects.ts:202-208 | filtering a concatenation is the concatenation of the filters |
| `Projects.GetProjectBySlug` | lib/projects.ts:198-200 | the lookup returns a table project whose slug equals the argument, and undefined iff no table project has that slug |
| `Projects.GetFeaturedProjects` | lib/projects.ts:202-204 | exactly the projects with `featured = true`, with their multiplicities, as an order-preserving subsequence of the table, no longer than the table |
| `Projects.GetProjectsByCategory` | lib/projects.ts:206-208 | exactly the projects whose category list contains the argument, with their multiplicities, in table order, no longer than the table |
| `Projects.SlugsDistinct` | lib/projects.ts:21-196 | the six table slugs are pairwise distinct |
| `Projects.LookupFindsUniqueMatch` | lib/projects.ts:21-200 | looking up any table project's slug returns that very project |
| `Projects.ProjectsPagePartition` | app/projects/page.tsx:11-12 | the projects page's featured and other lists together contain every table project exactly once |
| `Projects.FeaturedIds` | lib/projects.ts:21-204 | the featured projects are ids 1, 2, 3, 5 and 6, in that order |
| `Projects.InfluenceXIds` | lib/projects.ts:21-208 | category "Influence X" matches only id 2 |
| `Projects.MentionIds` | lib/projects.ts:21-208 | category "Mention" matches only id 5 |
| `Projects.InfluencePrIsEverything` | lib/projects.ts:21-208 | category "Influence PR" matches all six projects, in table order |
| `Projects.UnknownCategoryIsEmpty` | lib/projects.ts:206-208 | matching is exact and case-sensitive: "influence pr" and an unknown category give the empty list |

## Left out

- Rendering is not modelled: JSX layout, CSS classes, `framer-motion` animations, `AnimatePresence` and `memo`. Only the choice of which controls are rendered and enabled is modelled, as `ContactWizard.Available`.
- Timer durations (1500 ms and 3000 ms) and asynchronous scheduling are not modelled. The two callbacks are events in a FIFO queue of pending timers, and wall-clock time is abstracted away.
- The real `document.body.style` is replaced by an abstract string field. Its initial value is taken as "", the unset inline style.
- React context plumbing is replaced by an `Option` argument to `ModalContext.UseContactModal` that says whether a provider is present.
- Implicit form submission is not modelled. A browser may submit a form when Enter is pressed inside a text input, and step 2 has a single text input (referral) inside the `<form onSubmit={handleSubmit}>`. The footer submit button lies outside that form element. The model admits Submit only through the footer button, which is disabled while submitting.
- HTML-level `required`, `type="email"` and `type="tel"` checks are not modelled. They are browser-side hints and do not feed the step-1 gate.
- The project record keeps id, slug, title, client, category, year, location and featured. The display-only fields (description, challenge, solution, image URL, gallery URLs, KPI label/value pairs) are dropped, because no query reads them.
- The project detail page, its "related projects" selection and every other page and section component are presentational and are not modelled.
