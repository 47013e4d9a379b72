# Polling website: the ledger, the option editor and the toast queue

This project models the three pieces of sequential logic of the polling
website and proves what they promise.

- **The poll/vote ledger** (`poll_ledger.dfy`, module `PollLedger`). These are
  the backend's poll routes: create a poll, list a creator's dashboard, get a
  poll with its tally, vote, and delete. The relational store is a
  `PollStore` object with three tables kept in insertion order (`polls`,
  `options`, `votes`) and the option id sequence. Each route handler is a
  method that answers with a status code and a body. Every handler keeps the
  table invariant `TablesValid`, which covers:
  - unique poll ids;
  - ascending option ids below the sequence;
  - foreign keys;
  - positions 0..k-1 for each poll's options in table order;
  - the (poll_id, voter_hash) uniqueness of votes.

  The clock is the parameter `now`. The keyed IP hash is the function
  `hashIp`, fixed when the store is built. The real-time push is a ghost log
  of `Broadcast` events.
- **The option-list editor** of the create page (`create_form.dfy`, module
  `CreateForm`). A `CreatePollForm` object holds the question and the option
  fields, and has the add/remove/update handlers and the submit-time checks.
  Any run of edits from a fresh page keeps between two and ten fields, so the
  page's "At least 2 options required" message can never be shown.
- **The toast queue** (`toast_queue.dfy`, module `Toasts`). A
  `ToastProvider` object holds the visible toasts and the id-to-timer map. A
  shared `IdCounter` plays the module-level id counter. A timer firing is the
  explicit event `Expire`. While mounted, the timer map's keys are exactly the
  ids on screen.

`text.dfy` (module `Text`) defines JavaScript's `trim` over the ECMAScript
whitespace and line-terminator characters. Both the server and the page
decide "blank" with it. `wrappers.dfy` holds `Option` and `Result`.

Storage facts that the schema would fix are stated as assumptions at the top
of `poll_ledger.dfy`:
- votes are unique on (poll_id, voter_hash), the columns the vote INSERT
  writes;
- deleting a poll cascades to its options and votes;
- option ids come from a serial sequence starting at 1 that a rollback does
  not rewind;
- the option id column is a 32-bit signed integer (a PostgreSQL `SERIAL`),
  so it holds at most `MaxOptionId` = 2147483647;
- a new poll row gets `created_at = now` and no expiry.

## Model

| member | source | states |
|---|---|---|
| `Text.TrimStart` | backend/src/routes/polls.ts:34 | drops the leading whitespace: the result is a suffix of the input, preceded only by whitespace, and does not start with whitespace |
| `Text.TrimEnd` | backend/src/routes/polls.ts:34 | drops the trailing whitespace: the result is a prefix of the input, followed only by whitespace, and does not end with whitespace |
| `Text.Trim` | backend/src/routes/polls.ts:34 | the result is the factor of the input that starts right after its leading whitespace and is followed only by whitespace; it has no whitespace at either end, and it is empty exactly when the input is all whitespace |
| `Text.TrimLocated` | backend/src/routes/polls.ts:34 | the trimmed end of the trimmed start of `s` is the factor of `s` right after its leading whitespace, and does not start with whitespace |
| `Text.TrimTailWhitespace` | backend/src/routes/polls.ts:34 | only whitespace follows that factor in `s` |
| `Text.TrimEmptyWhenBlank` | backend/src/routes/polls.ts:34 | the two trims leave nothing exactly when `s` is all whitespace |
| `Text.BlankIffTrimEmpty` | backend/src/routes/polls.ts:34 | `IsBlank` (only whitespace, or empty) holds exactly when the text trims to the empty, falsy string; the server's `!x.trim()` and the page's `!opt.trim()` (frontend/app/create/page.tsx:56-57) use it |
| `PollLedger.FilterOptions` | backend/src/routes/polls.ts:49-51 | a text is kept exactly when a string entry holds it and it is not blank; never more entries than given |
| `PollLedger.KeptIndices` | backend/src/routes/polls.ts:49-51 | the indices of the entries the filter keeps: strictly increasing, each naming a string, non-blank entry |
| `PollLedger.KeptIndicesComplete` | backend/src/routes/polls.ts:49-51 | every string, non-blank entry's index is among `KeptIndices` |
| `PollLedger.FilterOptionsInOrder` | backend/src/routes/polls.ts:49-51 | the filter's result has one entry per kept index, and entry k is the text at the k-th kept index: every kept entry appears once, in its original order |
| `PollLedger.ValidateCreate` | backend/src/routes/polls.ts:34-56 | each 400 message is chosen exactly when its check is the first to fail, in the handler's order (question, fewer than 2 raw entries or not an array, more than 10 raw entries, fewer than 2 kept); success yields the trimmed non-empty question and 2..10 trimmed, non-empty kept options |
| `PollLedger.FindPoll` | backend/src/routes/polls.ts:129-137 | finds a row with the id, and finds none exactly when no row has it |
| `PollLedger.OptionsOf` | backend/src/routes/polls.ts:142-150 | holds exactly the option rows of the poll |
| `PollLedger.CountVotes` | backend/src/routes/polls.ts:143-145 | is zero exactly when no stored vote names the option |
| `PollLedger.PollVotes` | backend/src/routes/polls.ts:103-107 | is zero exactly when no stored vote belongs to the poll |
| `PollLedger.TallyRows` | backend/src/routes/polls.ts:143-147 | entry i is option i's id and text with the number of votes cast for it |
| `PollLedger.RowsFor` | backend/src/routes/polls.ts:101-109 | holds the row of every poll tagged with the email and only rows of such polls |
| `PollLedger.RowsForDistinct` | backend/src/routes/polls.ts:109 | when poll ids are unique, no two rows are about the same poll (`GROUP BY p.id`) |
| `PollLedger.InsertByAgeDistinct` | backend/src/routes/polls.ts:110 | inserting a row whose poll is not yet listed into a newest-first list keeps one row per poll |
| `PollLedger.SortKeepsDistinct` | backend/src/routes/polls.ts:110 | sorting newest first keeps one row per poll |
| `PollLedger.ConsKeepsDistinct` | backend/src/routes/polls.ts:110 | putting a row about a poll not yet listed in front keeps one row per poll |
| `PollLedger.AppendKeepsDistinct` | backend/src/routes/polls.ts:109 | appending at most one row about a poll not yet listed keeps one row per poll |
| `PollLedger.InsertByAge` | backend/src/routes/polls.ts:110 | inserting one row into a newest-first list keeps it newest first and adds exactly that row (as a multiset) |
| `PollLedger.SortNewestFirst` | backend/src/routes/polls.ts:110 | the result is ordered by `created_at` descending and is a permutation of the input |
| `PollLedger.InsertOptions` | backend/src/routes/polls.ts:69-75 | the loop fails exactly when an option INSERT is the failing statement; otherwise it appends one row per text with the next ids and positions 0..k-1 |
| `PollLedger.PollStore.constructor` | backend/src/routes/polls.ts:20-22 | empty tables, no broadcast, the option id sequence at 1, and one fixed `hashIp` |
| `PollLedger.PollStore.Create` | backend/src/routes/polls.ts:28-87 | a failed validation answers 400 with its message and writes nothing; otherwise 201 exactly when the transaction commits, adding one poll with the trimmed question and the creator email (or null when it is missing or empty) and option i with trimmed text i and position i; on failure 500 and the tables are as before |
| `PollLedger.PollStore.InsertPoll` | backend/src/routes/polls.ts:58-83 | all or nothing: commit appends the poll row and all option rows; rollback restores both tables and leaves only the id sequence advanced |
| `PollLedger.CreatorTag` | backend/src/routes/polls.ts:66 | the email or null: a present, non-empty email is stored as given; nothing else is stored, and the stored tag is never the empty string |
| `PollLedger.ClientIp` | backend/src/routes/polls.ts:186 | the address is `req.ip` when that is non-empty and the socket's remote address otherwise; it is non-empty exactly when one of the two is |
| `PollLedger.PollStore.ListByCreator` | backend/src/routes/polls.ts:92-119 | 400 exactly when `email` is missing, falsy or not a string; otherwise the dashboard of that email |
| `PollLedger.PollStore.GetPoll` | backend/src/routes/polls.ts:124-162 | 404 exactly when no poll has the id; otherwise the poll's question, expiry and tally |
| `PollLedger.PollStore.Vote` | backend/src/routes/polls.ts:167-263 | the checks run in the handler's order with their statuses and messages (option id, voter hash, client address, poll, expiry, an option id too wide for the id column (500 "Failed to submit vote", from the failing lookup), option ownership, already voted, storage failure of the INSERT); success appends exactly one vote `(optionId, pollId, voterHash, hashIp(ip))`, answers the same tally as `GetPoll` and emits exactly one broadcast of it; every modelled failure leaves votes and broadcasts unchanged |
| `PollLedger.PollStore.Delete` | backend/src/routes/polls.ts:267-286 | 404 and no change when the poll is absent; otherwise removes the poll, its options and its votes; afterwards no poll has the id, so `GetPoll` answers 404 |
| `PollLedger.PollsWithout` | backend/src/routes/polls.ts:271-274 | keeps exactly the polls with another id |
| `PollLedger.OptionsNotOf` | backend/src/routes/polls.ts:271-274 | keeps exactly the options of other polls (the assumed cascade) |
| `PollLedger.VotesNotOf` | backend/src/routes/polls.ts:271-274 | keeps exactly the votes of other polls (the assumed cascade) |
| `PollLedger.CreateKeepsTablesValid` | backend/src/routes/polls.ts:64-77 | a committed create keeps the table invariant |
| `PollLedger.AdvanceKeepsTablesValid` | backend/src/routes/polls.ts:80-83 | a rolled-back create, which only advances the id sequence, keeps the table invariant |
| `PollLedger.VoteKeepsTablesValid` | backend/src/routes/polls.ts:224-237 | inserting an admissible vote with a new (poll_id, voter_hash) key keeps the table invariant |
| `PollLedger.DeleteKeepsTablesValid` | backend/src/routes/polls.ts:271-274 | the cascading delete keeps the table invariant |
| `PollLedger.TallyFollowsPositions` | backend/src/routes/polls.ts:142-150 | `Tally`, the options-with-counts query of `GET /:id` and of the vote answer (also lines 240-248): the poll's option at position i is tally entry i, with its id, text and vote count, and every entry is an option of that poll |
| `PollLedger.TallySumsToPollVotes` | backend/src/routes/polls.ts:101-109 | the counts of a poll's tally add up to the number of votes stored for the poll |
| `PollLedger.VoteRaisesOneCount` | backend/src/routes/polls.ts:224-248 | after one more vote the tally has the same entries, ids and texts; the chosen option's count rises by one and every other count stays; the poll's total rises by one |
| `PollLedger.VoteLeavesOtherPolls` | backend/src/routes/polls.ts:224-229 | a vote on one poll leaves every other poll's tally unchanged |
| `PollLedger.DashboardListsCreatorPolls` | backend/src/routes/polls.ts:101-112 | `Dashboard`, the body of the dashboard query: it is newest first and lists a poll exactly when it is tagged with the email, in one row per poll; each row's count is the poll's stored votes, and its status is `Ended` exactly when the poll has an expiry before `now` |
| `PollLedger.CascadeKeepsOtherPolls` | backend/src/routes/polls.ts:271-281 | after the delete no option and no vote of the poll remains, and every other poll's tally is unchanged |
| `CreateForm.Added` | frontend/app/create/page.tsx:35-37 | one empty field is appended exactly when there are fewer than ten; the existing fields stay |
| `CreateForm.Updated` | frontend/app/create/page.tsx:45-49 | field `index` holds the new value; every other field and the length are unchanged |
| `CreateForm.SubmitError` | frontend/app/create/page.tsx:56-58 | each message is chosen exactly when its check is the first to fail (blank question, a blank option, fewer than two options); `None` exactly when all pass |
| `CreateForm.RemovedExactlyIndex` | frontend/app/create/page.tsx:39-43 | `Removed`, the remove handler's update: with more than two fields and an index in range, exactly that field goes and the rest keep their order; otherwise nothing changes |
| `CreateForm.WithoutIndexSpec` | frontend/app/create/page.tsx:41 | `WithoutIndex`, the `filter((_, i) => i !== index)`: filtering by index drops exactly that index, or nothing when it is out of range |
| `CreateForm.ApplyKeepsBounds` | frontend/app/create/page.tsx:35-49 | one add, remove or update keeps between two and ten fields |
| `CreateForm.ReplayKeepsBounds` | frontend/app/create/page.tsx:24-49 | every run of edits from the initial two empty fields keeps between two and ten fields |
| `CreateForm.TooFewNeverReported` | frontend/app/create/page.tsx:58 | after any run of edits the submit checks never produce "At least 2 options required" |
| `CreateForm.CreatePollForm.constructor` | frontend/app/create/page.tsx:23-26 | empty question, two empty fields, no message, nothing posted |
| `CreateForm.CreatePollForm.SetQuestion` | frontend/app/create/page.tsx:98 | the question becomes the typed value |
| `CreateForm.CreatePollForm.AddOption` | frontend/app/create/page.tsx:35-37 | the fields become `Added` of the old fields; two to ten fields are kept |
| `CreateForm.CreatePollForm.RemoveOption` | frontend/app/create/page.tsx:39-43 | the fields become `Removed` of the old fields; two to ten fields are kept |
| `CreateForm.CreatePollForm.UpdateOption` | frontend/app/create/page.tsx:45-49 | the fields become `Updated` of the old fields at a rendered index |
| `CreateForm.CreatePollForm.HandleSubmit` | frontend/app/create/page.tsx:51-67 | the first failing check sets its message and nothing is posted; when all pass the message is cleared and exactly one request with the untrimmed question and options is posted |
| `Toasts.IdCounter.constructor` | frontend/app/components/Toast.tsx:26 | the counter starts at 0 |
| `Toasts.WithoutId` | frontend/app/components/Toast.tsx:44 | keeps exactly the toasts with another id, never more than given |
| `Toasts.WithoutIdKeepsOrder` | frontend/app/components/Toast.tsx:57 | filtering keeps the ids strictly increasing |
| `Toasts.WithoutIdRemovesOnlyId` | frontend/app/components/Toast.tsx:57 | the ids after filtering are the ids before minus the one dismissed |
| `Toasts.WithoutIdUnknown` | frontend/app/components/Toast.tsx:57 | filtering an id that no toast carries leaves the list as it was |
| `Toasts.RemovalKeepsSync` | frontend/app/components/Toast.tsx:43-58 | removing one id from the toasts, the timer map and the scheduled callbacks keeps the timer keys equal to the ids shown, and ids increasing |
| `Toasts.WithoutIdIdempotent` | frontend/app/components/Toast.tsx:50-58 | filtering the same id twice is filtering once |
| `Toasts.ToastProvider.constructor` | frontend/app/components/Toast.tsx:29-30 | no toast, an empty timer map, mounted |
| `Toasts.ToastProvider.ShowToast` | frontend/app/components/Toast.tsx:40-48 | appends `{id: nextId, message, type}` with `type` defaulting to info, increments the counter, and registers the timer under exactly the new id; timer keys stay equal to the ids shown, which stay strictly increasing |
| `Toasts.ToastProvider.Expire` | frontend/app/components/Toast.tsx:43-46 | removes only the toast with that id and only its map entry |
| `Toasts.ToastProvider.Dismiss` | frontend/app/components/Toast.tsx:50-58 | clears and deletes the id's timer if any and filters its toast out; all else stays; an unknown id changes nothing |
| `Toasts.ToastProvider.Unmount` | frontend/app/components/Toast.tsx:33-38 | every pending timer is cleared and the map is left empty |

## Left out

- I/O: the HTTP layer, SQL text, the connection pool, TLS and schema loading. The tables stand in for the database and each handler is a method.
- The HMAC-SHA256 computation and the random fallback secret. `hashIp` is an uninterpreted function fixed for the life of the store.
- The Socket.IO fan-out. A broadcast is one entry in a ghost log.
- Rate limiting and server start-up. `backend/src/server.ts` is not part of this model.
- Concurrency. Handlers run one at a time, so two concurrent votes racing on the uniqueness constraint are not modelled. Each is decided against the votes stored before it.
- Parsing of `optionId`. The vote handler receives `Number(optionId)` already reduced to "an integer" (`Some`) or "not an integer" (`None`).
- Non-string request values. `voterHash` and `creatorEmail` are a string or missing, so a truthy non-string value (a number, say) is not modelled.
- `req.ip` and `req.socket.remoteAddress` are given as optional strings.
- Storage faults. The model injects only two kinds:
  - the create transaction: a failing INSERT, named by its statement number, or a colliding generated id;
  - the vote INSERT: a non-uniqueness error.
  A database outage in a SELECT or DELETE (the other 500 paths) is not modelled. The 500 that an out-of-range option id provokes is modelled, because the request decides it.
- `PollLedger.PollStore.Vote`: a failure of the tally SELECT after a stored INSERT (backend/src/routes/polls.ts:240-248) is not modelled. There the source answers 500 with the vote already stored and no broadcast, so "every failure leaves votes unchanged" holds only for the failures modelled.
- Malformed poll ids. If `polls.id` is a `uuid` column, a `:id` that is not a UUID makes the first query of `GET /:id`, the vote and `DELETE /:id` fail, and the answer is 500 rather than 404. The schema is not part of this model, so poll ids are plain strings and such an id answers 404.
- Exhaustion of the option id sequence. The model's sequence is unbounded, so option ids beyond `MaxOptionId` can be created, where the source's INSERT would fail.
- SQL order among rows with equal `created_at`. It is unspecified, so the model fixes one newest-first order.
- `PollLedger.PollStore.Create`: the generated UUID is the parameter `pollId` and is not proved unique. A colliding id is modelled as the primary-key failure it would be.
- `CreateForm.CreatePollForm.UpdateOption`: requires an index inside the list, because the page only passes indices of rendered fields. JavaScript would grow the array for a larger index.
- On the page: `loading`, the random theme, the axios call, the backend's answer and the navigation after a successful post.
- Toasts: real time, rendering and animation. A timeout firing is the explicit `Expire` event.
- The dashboard page's mock data, the landing page, the poll page and the confirm modal. They are UI only.
- `backend/dist/src/index.js`. It is compiled output of an older implementation with different vote rules, and is not part of this model.
