# Poll, form and view stores — a Dafny model

This project models the state-management core of a small client-side web
application for polls and forms. There are three independent in-memory stores:

- the **poll store** keeps an ordered list of polls. It creates a poll from a
  question and option labels, records single-choice votes by option index and
  looks polls up by id;
- the **form store** keeps an ordered list of forms. It creates a form from a
  title and question specs that have no id yet, appends submitted response
  lists to a form's history and looks forms up by id;
- the **view store** holds one boolean display flag that a toggle flips.

Each store is a Dafny `class` whose field (`polls`, `forms`, `isCompactView`)
its methods reassign. The records of `src/types/*.ts` are datatypes
(`PollTypes`, `FormTypes`). `FormResponse.value`, typed `string | number`,
becomes `ResponseValue = Text | Numeric`. The optional `placeholder` and
`options` fields become `Option`.

The source looks things up with the array method `find`, which returns the
first element that satisfies a predicate. This is `Lookup.FindIndex` and
`Lookup.Find`, applied to the predicates `Polls.PollHasId` and
`Forms.FormHasId`. The mutating methods `SubmitResponse` and
`SubmitFormResponse` are each specified by a function on the old list
(`Polls.SubmitVote`, `Forms.SubmitForm`). `CreatePoll` and `CreateForm` append
an entry built by `Polls.NewPoll` and `Forms.NewForm`; those two functions build
the new entry from the inputs and never see the list. The lemmas beside these
functions state what the stores promise.

The object invariant `Valid()` holds in every reachable state. It requires:
- poll ids, and form ids, to be unique in their store;
- option ids to be distinct within each poll, and question ids within each form;
- every poll's `totalVotes` to equal the sum of its options' votes.

`crypto.randomUUID()` becomes ids that the caller passes in (`pollId`,
`optionIds`, `formId`, `questionIds`). The precondition `FreshIds` requires them
to be pairwise distinct and not already in use by any poll, option, form or
question.

Two client methods use only the method contracts:
`Polls.FavoriteColorScenario` creates a two-option poll and votes for the
second option, and `Forms.FeedbackScenario` creates a one-question form and
submits one answer.

The model follows the code: a poll's question may be empty; a lookup miss is
`None`; an invalid vote or submission is a silent no-op.

## Model

| member | source | states |
|---|---|---|
| Lookup.FindIndex | src/stores/poll.store.ts:24 | returns the index of the first element satisfying the predicate, and no earlier element satisfies it; returns None exactly when no element satisfies it |
| Lookup.Find | src/stores/poll.store.ts:32 | returns None exactly when no element matches; otherwise returns the element at the first matching position |
| Lookup.FindIndexOfOnly | src/stores/form.store.ts:30 | when exactly one element matches, `find` selects that element |
| PollTypes.SumVotesOfUnvoted | src/stores/poll.store.ts:15-17 | options that all have zero votes sum to 0, so a new poll with `totalVotes` 0 is consistent |
| PollTypes.SumVotesAfterVote | src/stores/poll.store.ts:26-27 | adding one vote to one option raises the vote sum by exactly 1, matching the `totalVotes++` |
| Polls.NewPoll | src/stores/poll.store.ts:9-18 | the new poll has the given id and question and `totalVotes` 0; it has one option per label, in order, with the label copied verbatim, its own fresh id and 0 votes; its total equals the sum of its votes |
| Polls.PollHasId | src/stores/poll.store.ts:24 | the predicate `p => p.id === pollId` handed to `find`; no contract of its own, see FindPoll and GetPoll |
| Polls.Vote | src/stores/poll.store.ts:26-27 | one vote for option `i`: it keeps the poll's id, question and number of options, and it keeps a consistent poll consistent; see SubmitVoteRecords for the exact increments |
| Polls.SubmitVote | src/stores/poll.store.ts:23-28 | `submitResponse` on the list: it never changes the number of polls; see SubmitVoteRecords, SubmitVoteIgnored, SubmitVoteKeepsShape and SubmitVoteKeepsValid |
| Polls.FindPoll | src/stores/poll.store.ts:24 | when poll ids are unique, `find` on a poll's id selects that poll |
| Polls.CreateKeepsValid | src/stores/poll.store.ts:8-20 | appending a poll built with fresh ids keeps ids unique and keeps every poll's vote sum consistent |
| Polls.SubmitVoteKeepsValid | src/stores/poll.store.ts:23-28 | every vote, valid or ignored, keeps `totalVotes` equal to the sum of option votes for every poll, and keeps ids unique |
| Polls.SubmitVoteRecords | src/stores/poll.store.ts:23-28 | for the first poll with the id and an in-range index: that option's votes and the poll's total each rise by 1; the option keeps its id and text; every other option and every other poll is unchanged; the number of polls is unchanged |
| Polls.SubmitVoteIgnored | src/stores/poll.store.ts:25 | the store is unchanged exactly when no poll has the id with `0 <= optionIndex < options.length`; this covers an unknown id, a negative index and an index at or past the end |
| Polls.SubmitVoteKeepsShape | src/stores/poll.store.ts:23-28 | a vote never changes the number of polls, any poll's id or question, or the number, ids and texts of its options; no counter decreases |
| Polls.PollStore.constructor | src/stores/poll.store.ts:6 | a new store holds no polls and satisfies the invariant |
| Polls.PollStore.CreatePoll | src/stores/poll.store.ts:8-21 | returns `NewPoll` of the inputs and the fresh ids; the list becomes the old list followed by that poll; the invariant is kept |
| Polls.PollStore.SubmitResponse | src/stores/poll.store.ts:23-29 | the new list is `SubmitVote` of the old one; the invariant is kept |
| Polls.PollStore.GetPoll | src/stores/poll.store.ts:31-33 | returns None exactly when no poll has the id; otherwise returns the first poll with that id; it is a function of the state and changes nothing |
| Polls.PollStore.GetAllPolls | src/stores/poll.store.ts:35-37 | returns the stored list itself; by `CreatePoll` it is in insertion order |
| FormTypes.WithId | src/stores/form.store.ts:12-15 | `{ ...q, id }` gives the question the new id; removing the id again gives back the spec unchanged |
| Forms.NewForm | src/stores/form.store.ts:9-17 | the new form has the given id and title and no responses; its questions have the same number and order as the specs; each question has its own fresh id, and every other field equals the spec's |
| Forms.FormHasId | src/stores/form.store.ts:23 | the predicate `f => f.id === submission.formId` handed to `find`; no contract of its own, see FindForm and GetForm |
| Forms.SubmitForm | src/stores/form.store.ts:22-27 | `submitFormResponse` on the list: it never changes the number of forms; see SubmitAppends, SubmitIgnored, SubmitOneAt and SubmitKeepsShape |
| Forms.SubmitAll | src/stores/form.store.ts:22-27 | a series of `submitFormResponse` calls, in order: it never changes the number of forms; see SubmitAllKeepsShape and SubmitAllHistory |
| Forms.FindForm | src/stores/form.store.ts:23 | when form ids are unique, `find` on a form's id selects that form |
| Forms.CreateKeepsValid | src/stores/form.store.ts:8-19 | appending a form built with fresh ids keeps form ids unique and each form's question ids distinct |
| Forms.SubmitKeepsShape | src/stores/form.store.ts:22-27 | a submission never changes the number of forms or any form's id, title or questions, and it keeps the invariant |
| Forms.SubmitAppends | src/stores/form.store.ts:22-26 | for the form with the submission's id: the submitted list is appended verbatim as its one new last entry, and earlier entries stay in order. The responses need no particular question ids, required answers or value kinds. Every other form is unchanged |
| Forms.SubmitOneAt | src/stores/form.store.ts:23-25 | seen from any one form, a submission appends its list exactly when it names that form, and otherwise leaves the form as it was |
| Forms.SubmitIgnored | src/stores/form.store.ts:24 | the store is unchanged exactly when no form has the submission's id |
| Forms.SubmitAllKeepsShape | src/stores/form.store.ts:22-27 | a series of submissions never changes the number of forms or any form's id, title or questions, and it keeps form ids unique |
| Forms.SubmitAllHistory | src/stores/form.store.ts:22-27 | after any series of submissions, a form's responses are its earlier responses followed by the lists submitted to it, in order. So N submissions add exactly N entries and earlier entries are never changed, removed or reordered |
| Forms.FormStore.constructor | src/stores/form.store.ts:6 | a new store holds no forms and satisfies the invariant |
| Forms.FormStore.CreateForm | src/stores/form.store.ts:8-20 | returns `NewForm` of the inputs and the fresh ids; the list becomes the old list followed by that form; the invariant is kept |
| Forms.FormStore.SubmitFormResponse | src/stores/form.store.ts:22-27 | the new list is `SubmitForm` of the old one; the invariant is kept |
| Forms.FormStore.GetForm | src/stores/form.store.ts:29-31 | returns None exactly when no form has the id; otherwise returns the first form with that id; it changes nothing |
| Forms.FormStore.GetAllForms | src/stores/form.store.ts:33-35 | returns the stored list itself; by `CreateForm` it is in insertion order |
| View.ViewStore.constructor | src/stores/view.store.ts:5 | the flag starts as false |
| View.ViewStore.ToggleView | src/stores/view.store.ts:7-9 | the flag becomes the negation of its previous value; the store has no other state |
| View.ToggleTwice | src/stores/view.store.ts:8 | toggling twice restores the original value |

## Left out

- Pinia `defineStore` and Vue `ref` reactivity: each store is a plain class, and no change notification is modelled.
- `crypto.randomUUID()`: ids are parameters under the freshness precondition `FreshIds`; the UUID format is not modelled.
- Aliasing: `getAllPolls`/`getAllForms` return the live array, and `createPoll`/`createForm` return the stored object. `submitFormResponse` stores the caller's array by reference. The spread `{ ...q, id }` in `createForm` copies only the top level, so each stored question shares the caller's `options` array. In all these cases outside mutation would change the store; the model returns and stores values.
- Polls.PollStore.SubmitResponse: `optionIndex` is an `int`. A fractional JavaScript number such as 0.5 passes the range check and then makes `options[0.5].votes++` throw; NaN fails both comparisons. Neither is modelled.
- Vote counters are unbounded naturals. JavaScript numbers stop counting exactly above 2^53.
- `ResponseValue.Numeric` holds a `real`. IEEE-754 behaviour (NaN, infinities, rounding) is not modelled; the store never computes with the value.
- The spread in `createForm` copies any extra runtime properties of a question spec. The model has exactly the declared fields.
- `PollVote` (src/types/poll.types.ts:14-17) is declared but no store uses it.
- `src/composables/useToast.ts`, `src/router/index.ts` and `tailwind.config.js` are a toast wrapper, routing and styling. They are not part of this model.
