# TimeBank marketplace core in Dafny

TimeBank is a task marketplace. A requester publishes a task and providers send
proposals. Accepting a proposal opens a draft contract with an unfunded payment.
The requester then escrows the payment from the wallet and later releases it.

This project models the in-memory backend behind that flow, which is the mock
request handlers and their seed tables, together with the pure rule modules
around it. It also proves properties of the model.

| file | module | what it models |
|---|---|---|
| `wrappers.dfy` | `Wrappers` | `Option`, which stands for `undefined` |
| `seqs.dfy` | `Seqs` | `find`, `findIndex`, `filter`, `map` (with throwing enrichers) and `slice` on sequences |
| `text.dfy` | `Text` | number-to-string interpolation and ASCII case mapping |
| `constants.dfy` | `Constants` | the status enumerations with their string values, the validation bounds and the feature flags |
| `api.dfy` | `Api` | the `{code, message}` error bodies, their HTTP statuses, and `Result` |
| `data.dfy` | `Data` | the records, the seed tables, the `getXById` finders and the `enrichX` functions |
| `marketplace.dfy` | `Marketplace` | one pure step function per state-changing handler, the table invariant `Consistent`, and the lemmas about both |
| `queries.dfy` | `Queries` | the read-only handlers: task listing with pagination, contract listing, transactions, dashboard and lookups |
| `handlers.dfy` | `Handlers` | the class `MockServer`, whose fields are the tables and whose methods are the state-changing handlers |
| `utils.dfy` | `Utils` | `formatMinutes`, `truncate`, `capitalize`, `pluralize`, `validatePassword`, `isValidAmount` and the status predicates |
| `schemas.dfy` | `Schemas` | the login, register, change-password, task, proposal and review forms, as issue lists |
| `pricing_validation.dfy` | `PricingValidation` | the publish gate against the pricing floor and the 25th percentile |
| `toast.dfy` | `Toast` | the class `ToastManager`, with its toast list, id counter and listeners |

Each `MockServer` method changes its fields in place. Its contract says that the
new tables are exactly what the matching `Marketplace` step function computes
from the old tables. It also says the method answers what that function answers
and keeps the class invariant `Valid()`, which is `Consistent` on the tables.

Several things the handlers read from outside are parameters:

- the clock is `now: nat`, and ISO timestamps are numbers in `YYYYMMDDhhmmss` form, which keeps their order;
- the current user is the constant `CurrentUserId`;
- a request body is a value of a record type.

A `TypeError` that escapes a handler is `Err(Thrown)`, with status 500. It
happens, for example, when a field of a missing record is read. All the mutations
made before the throw are kept, as they are in the running server.

The handlers are looser than the page-level guards in `src/lib/utils.js`, and the
model follows the handlers:

- escrow checks only that the payment is unfunded. `canEscrowPayment` also asks for a draft contract. Neither checks the available funds, so the available balance may go negative;
- release checks only that the payment is escrowed. `canReleasePayment` also asks for a delivered contract. Release moves no money and logs no transaction;
- accepting a proposal does not check that it is pending, which `canEditProposal` does. It leaves the other proposals of the task alone;
- the transaction statuses are the four of `src/lib/constants.js:42-47`, `cancelled` included.

## Model

| member | source | states |
|---|---|---|
| Seqs.IndexWhere | src/mocks/handlers.js:149 | `findIndex`: the position of the first element that satisfies the predicate, or none iff no element does |
| Seqs.Find | src/mocks/data.js:345-359 | the result is present iff some element satisfies the predicate, and then it is the first such element |
| Seqs.Filter | src/mocks/handlers.js:97-103 | the result holds exactly the elements that satisfy the predicate, and no more elements than the input |
| Seqs.FilterConcat | src/mocks/handlers.js:97-103 | filtering a concatenation is the concatenation of the filtered parts |
| Seqs.FilterMultiset | src/mocks/handlers.js:97-103 | `filter` keeps every copy of an element that satisfies the predicate and drops every copy of one that does not |
| Seqs.Count | src/mocks/handlers.js:537-553 | `filter(p).length` is at most the length, and zero iff no element satisfies p |
| Seqs.CountAppend | src/mocks/handlers.js:536-554 | appending an element raises `filter(p).length` by one exactly when the element satisfies p |
| Seqs.FilterIsSubsequence | src/mocks/handlers.js:97-103 | `filter` keeps the relative order of what it keeps |
| Seqs.FilterIdempotent | src/mocks/handlers.js:97-103 | filtering again with the same predicate changes nothing |
| Seqs.MapAll | src/mocks/handlers.js:277 | mapping with an enricher that may throw succeeds iff every element enriches, and then element k is the enrichment of element k |
| Seqs.Slice | src/mocks/handlers.js:106-108 | `slice` with JavaScript's clamping: both positions are normalised as ClampIndex says, and the result is the subsequence between them, or empty when the start is not before the end |
| Seqs.ClampIndex | src/mocks/handlers.js:106-108 | a position in range is kept, a negative one counts from the end and stops at 0, one past the end becomes the length |
| Seqs.MapAllFront | src/mocks/handlers.js:557 | `slice(0, n).map(f)` enriches the first min(n, length) elements, in order |
| Text.UpperChar | src/lib/utils.js:151-154 | `toUpperCase` on one character: a lower-case ASCII letter moves to its upper-case letter, every other character is kept |
| Text.LowerChar | src/mocks/handlers.js:100-102 | `toLowerCase` on one character: an upper-case ASCII letter moves to its lower-case letter, every other character is kept |
| Text.Lower | src/mocks/handlers.js:100-102 | `toLowerCase` on a string: same length, each character lowered by LowerChar |
| Text.IntToString | src/lib/utils.js:23-30 | interpolating an integer gives its decimal digits, with a minus sign when negative |
| Text.NatToStringRoundTrip | src/lib/utils.js:23-30 | reading back the digits of a rendered number gives the number |
| Text.IntToStringInjective | src/lib/pricing/validation.js:35 | two integers render alike only when they are equal |
| Constants.ParseContractStatus | src/lib/constants.js:18-25 | a string is accepted iff it is one of the six contract status values, and it is read as the status with that value |
| Constants.ParsePaymentPhase | src/lib/constants.js:27-32 | a string is accepted iff it is one of the four payment phase values |
| Constants.ParseTaskStatus | src/lib/constants.js:3-9 | a string is accepted iff it is one of the five task status values |
| Constants.ParseProposalStatus | src/lib/constants.js:11-16 | a string is accepted iff it is one of the four proposal status values |
| Constants.ParseTransactionType | src/lib/constants.js:34-40 | a string is accepted iff it is one of the five transaction types |
| Constants.ContractStatusNamesRoundTrip | src/lib/constants.js:18-25 | every contract status is read back from its string as itself |
| Constants.PaymentPhaseNamesRoundTrip | src/lib/constants.js:27-32 | every payment phase is read back from its string as itself |
| Constants.TaskStatusNamesRoundTrip | src/lib/constants.js:3-9 | every task status is read back from its string as itself |
| Constants.ProposalStatusNamesRoundTrip | src/lib/constants.js:11-16 | every proposal status is read back from its string as itself |
| Constants.TransactionTypeNamesRoundTrip | src/lib/constants.js:34-40 | every transaction type is read back as itself, and none of them is `fee` |
| Constants.NamesInjective | src/lib/constants.js:3-32 | distinct statuses have distinct strings, so comparing strings compares statuses |
| Constants.ValidationBoundsOrdered | src/lib/constants.js:160-171 | each validation minimum is at most its maximum |
| Constants.FeatureFlags | src/lib/constants.js:219-224 | milestones and the market panel are off; pricing recommendation and floor validation are on |
| Api.HttpStatus | src/mocks/handlers.js:31-36 | a success answers 200; INVALID_CREDENTIALS answers 401, NOT_FOUND 404, every other handler error 400, and an uncaught exception 500 |
| Data.SeedTables | src/mocks/data.js:10-341 | the seed holds four users with the logged-in one first, three tasks (two open, one contracted), three proposals (two pending, one accepted), one contract and its payment, three transactions, one thread with its four messages and two reviews |
| Data.SeedWalletBalanced | src/mocks/data.js:334-341 | the seed wallet's total is its available plus its escrowed balance |
| Data.SeedContractEscrowed | src/mocks/data.js:186-240 | seed contract 1 is active, its payment is escrowed for the agreed 40, and the seed escrow hold for contract 1 is -40 |
| Data.SeedIdsSequential | src/mocks/data.js:10-330 | every seed table holds the ids 1..n in order |
| Data.IndexOfSequentialId | src/mocks/data.js:345-359 | in a table with ids 1..n, the first record with id k is at position k-1, and there is none outside 1..n |
| Data.UserById | src/mocks/data.js:345-347 | `getUserById` gives the first user with that id, or nothing iff there is none |
| Data.TaskById | src/mocks/data.js:349-351 | `getTaskById` gives the first task with that id, or nothing iff there is none |
| Data.ProposalById | src/mocks/data.js:353-355 | `getProposalById` gives the first proposal with that id, or nothing iff there is none |
| Data.ContractById | src/mocks/data.js:357-359 | `getContractById` gives the first contract with that id, or nothing iff there is none |
| Data.PaymentFor | src/mocks/data.js:388 | the first payment whose contractId is the given id, or nothing iff there is none |
| Data.EnrichTask | src/mocks/data.js:366-371 | the task is kept unchanged and the requester is the user with the task's requesterId |
| Data.EnrichProposal | src/mocks/data.js:373-379 | defined iff the proposal's task exists; keeps the proposal and adds that task, itself enriched, and the provider |
| Data.EnrichContract | src/mocks/data.js:381-390 | defined iff its task and proposal exist and enrich; keeps the contract and adds the enriched task, the enriched proposal, both users and the payment of that contract |
| Data.EnrichMessage | src/mocks/data.js:403-408 | keeps the message and adds the user with the senderId, who is missing iff no user has that id |
| Data.EnrichReview | src/mocks/data.js:410-416 | keeps the review and adds the users with the reviewer and reviewee ids, each missing iff no user has that id |
| Marketplace.RegisterStep | src/mocks/handlers.js:53-76 | a known email is rejected with EMAIL_EXISTS and nothing changes; an empty name throws; a new email with a non-empty name succeeds, appending exactly one user with the next id and the capitalised initial |
| Marketplace.Login | src/mocks/handlers.js:41-51 | succeeds iff some user has the email, and then answers the first user with that email and the mock token; fails with INVALID_CREDENTIALS otherwise |
| Marketplace.CreateTaskStep | src/mocks/handlers.js:131-145 | always succeeds, and appends one draft task with the next id, the current user as requester and zero counts |
| Marketplace.ApplyPatch | src/mocks/handlers.js:155-159 | each field present in the patch replaces the task's field; updatedAt is now; id, requester, creation time and counters are kept because `TaskPatch` has no such keys, while the source's spread would also take them from the body |
| Marketplace.UpdateTaskStep | src/mocks/handlers.js:147-162 | fails NOT_FOUND iff no task has the id, changing nothing; otherwise only that task is replaced by the patched one, which is answered with its requester |
| Marketplace.CountProposal | src/mocks/handlers.js:213-214 | the first task with the id gets one more proposal, and nothing else changes |
| Marketplace.NewProposal | src/mocks/handlers.js:200-209 | the new proposal is pending, from the current user, with the next id and the draft's bid, hours and message |
| Marketplace.SubmitProposalStep | src/mocks/handlers.js:188-217 | an existing pending proposal of the user on the task is rejected without change; otherwise the proposal is appended and counted; the answer is the new proposal enriched over the new tables when the task exists, and the `TypeError` otherwise |
| Marketplace.PendingOwnProposal | src/mocks/handlers.js:192-195 | the duplicate test of POST /proposals: a pending proposal of the current user on that task (SubmitRejectedIff states its use) |
| Marketplace.SubmitRejectedIff | src/mocks/handlers.js:192-198 | the ALREADY_SUBMITTED answer comes iff the current user has a pending proposal on that task |
| Marketplace.SubmitInConsistent | src/mocks/handlers.js:200-214 | without an earlier pending proposal, submitting appends exactly the new proposal and raises that task's proposalCount by one, leaving the other tasks alone |
| Marketplace.SubmitTwiceRejected | src/mocks/handlers.js:192-198 | a second submission of the same proposal is rejected and changes nothing |
| Marketplace.NewContract | src/mocks/handlers.js:241-254 | the new contract is draft, with the next id, agreedAmount = bid, agreedMinutes = hours * 60, and the task's deadline and requester |
| Marketplace.NewPayment | src/mocks/handlers.js:258-264 | the new payment is unfunded, with the next id, for the contract's agreed amount |
| Marketplace.MarkAccepted | src/mocks/handlers.js:229-231 | only that proposal changes: it is accepted, and respondedAt and updatedAt are now |
| Marketplace.CreateContract | src/mocks/handlers.js:234-265 | the task is contracted, one contract and one payment are appended, and no other table changes |
| Marketplace.AcceptProposalStep | src/mocks/handlers.js:219-268 | an unknown id fails NOT_FOUND without change; a missing task throws after the proposal update; otherwise the full accept sequence runs |
| Marketplace.AcceptResponse | src/mocks/handlers.js:267 | the answer succeeds iff the proposal and the new contract enrich, and then holds both enrichments |
| Marketplace.AcceptInConsistent | src/mocks/handlers.js:229-265 | accepting marks the proposal accepted and the task contracted, appends a draft contract (amount = bid, minutes = hours * 60, task deadline) and an unfunded payment of the bid |
| Marketplace.AcceptSucceeds | src/mocks/handlers.js:241-267 | in consistent tables, accepting answers the new contract together with its new payment |
| Marketplace.AcceptTwiceMakesTwoContracts | src/mocks/handlers.js:219-265 | with no status check, accepting the same proposal twice opens two contracts for it |
| Marketplace.EscrowGuard | src/mocks/handlers.js:312-318 | NOT_FOUND when no payment exists for the contract; INVALID_STATE iff the payment is not unfunded |
| Marketplace.MarkEscrowed | src/mocks/handlers.js:321-329 | the payment becomes escrowed at now, the contract (if found) becomes active, and nothing else changes |
| Marketplace.EscrowAsWrittenStep | src/mocks/handlers.js:308-349 | as written: a guard failure changes nothing; otherwise the phase and status flip and then the request throws, without a transaction or a wallet change |
| Marketplace.EscrowStep | src/mocks/handlers.js:308-349 | intended: a guard failure changes nothing; otherwise phase and status flip, one escrow_hold is logged, and the amount moves from available to escrowed |
| Marketplace.HoldTransaction | src/mocks/handlers.js:332-342 | the logged transaction is an escrow_hold of minus the amount, completed, for the contract, with balanceAfter = available - amount |
| Marketplace.Hold | src/mocks/handlers.js:345-346 | available drops and escrowed rises by the amount, so their sum and the total are kept |
| Marketplace.EscrowRejections | src/mocks/handlers.js:312-318 | an unknown contract fails NOT_FOUND and a funded payment fails INVALID_STATE, and both leave the tables unchanged |
| Marketplace.EscrowMovesFunds | src/mocks/handlers.js:321-346 | a successful escrow funds the payment, activates the contract, moves exactly the agreed amount, keeps the wallet balanced, logs one escrow_hold whose balanceAfter is the new available balance, and touches no other table |
| Marketplace.EscrowAsWrittenStrandsPayment | src/mocks/handlers.js:339 | as written, escrow answers 500 with the payment escrowed but no money moved, and every later escrow of that contract is refused |
| Marketplace.MarkReleased | src/mocks/handlers.js:364-373 | the payment becomes released and the contract (if found) completed at now; nothing else changes |
| Marketplace.ReleaseStep | src/mocks/handlers.js:351-376 | NOT_FOUND without a payment, INVALID_STATE unless escrowed, both without change; otherwise only the payment and the contract are updated |
| Marketplace.ReleaseInConsistent | src/mocks/handlers.js:355-373 | by contract id: release fails unless the payment is escrowed; a success marks it released and the contract completed, and leaves the wallet and the transaction log unchanged |
| Marketplace.SendMessageStep | src/mocks/handlers.js:398-421 | always succeeds, appends one text (or given type) message with the next id, answers it enriched with its sender, and touches only the thread with that id |
| Marketplace.SendMessageInConsistent | src/mocks/handlers.js:401-418 | the thread's lastMessageAt and updatedAt become now, the new message gets the next id, and the other threads are unchanged |
| Marketplace.OwnReviewOf | src/mocks/handlers.js:471-473 | the duplicate test of POST /reviews: a review of that contract written by the current user (ReviewRejectedIff states its use) |
| Marketplace.CreateReviewStep | src/mocks/handlers.js:467-488 | an existing review by the user of that contract is rejected without change; otherwise one review is appended and answered enriched with its reviewer and reviewee |
| Marketplace.ReviewRejectedIff | src/mocks/handlers.js:471-475 | the review is rejected iff the current user already reviewed that contract |
| Marketplace.ReviewTwiceRejected | src/mocks/handlers.js:471-475 | a second review of the same contract is rejected and changes nothing |
| Marketplace.RegisterThenLogin | src/mocks/handlers.js:41-76 | after a successful registration, logging in with that email answers the registered user and token |
| Marketplace.RegisterRejectedIff | src/mocks/handlers.js:56-59 | registration is rejected for the email iff some user has it, and a second registration with it is rejected |
| Marketplace.UpdateTaskInConsistent | src/mocks/handlers.js:147-162 | by id: an id outside 1..n fails without change; otherwise exactly task id-1 is patched |
| Marketplace.UserIndex | src/mocks/data.js:345-347 | in consistent tables, user id k is at position k-1 |
| Marketplace.TaskIndex | src/mocks/data.js:349-351 | in consistent tables, task id k is at position k-1 |
| Marketplace.ProposalIndex | src/mocks/data.js:353-355 | in consistent tables, proposal id k is at position k-1 |
| Marketplace.ContractIndex | src/mocks/data.js:357-359 | in consistent tables, contract id k is at position k-1 |
| Marketplace.PaymentIndex | src/mocks/data.js:388 | in consistent tables, the payment of contract k is at position k-1 |
| Marketplace.ThreadIndex | src/mocks/handlers.js:414 | in consistent tables, thread id k is at position k-1 |
| Marketplace.SeedConsistent | src/mocks/data.js:10-341 | the seed tables satisfy the invariant: sequential ids, one payment per contract for its amount in a matching phase, distinct emails, a balanced wallet |
| Marketplace.RegisterKeepsConsistent | src/mocks/handlers.js:53-76 | registering keeps the invariant |
| Marketplace.CreateTaskKeepsConsistent | src/mocks/handlers.js:131-145 | creating a task keeps the invariant |
| Marketplace.UpdateTaskKeepsConsistent | src/mocks/handlers.js:147-162 | updating a task keeps the invariant |
| Marketplace.SubmitProposalKeepsConsistent | src/mocks/handlers.js:188-217 | submitting a proposal keeps the invariant |
| Marketplace.AcceptProposalKeepsConsistent | src/mocks/handlers.js:219-268 | accepting keeps the invariant: the new contract and its payment pair up as draft and unfunded |
| Marketplace.EscrowKeepsConsistent | src/mocks/handlers.js:308-349 | the intended escrow keeps the invariant: active pairs with escrowed, and the wallet stays balanced |
| Marketplace.EscrowAsWrittenKeepsConsistent | src/mocks/handlers.js:308-349 | the escrow as written also keeps the invariant |
| Marketplace.ReleaseKeepsConsistent | src/mocks/handlers.js:351-376 | releasing keeps the invariant: completed pairs with released |
| Marketplace.SendMessageKeepsConsistent | src/mocks/handlers.js:398-421 | sending a message keeps the invariant |
| Marketplace.CreateReviewKeepsConsistent | src/mocks/handlers.js:467-488 | creating a review keeps the invariant |
| Marketplace.EscrowGuardInConsistent | src/mocks/handlers.js:312-318 | in consistent tables, escrow passes its guard iff the contract id is in 1..n and its payment is unfunded |
| Handlers.MockServer.constructor | src/mocks/data.js:10-341 | the server starts with the seed tables, which satisfy the invariant |
| Handlers.MockServer.Register | src/mocks/handlers.js:53-76 | leaves the tables and answers as RegisterStep says, and keeps the invariant |
| Handlers.MockServer.Login | src/mocks/handlers.js:41-51 | answers as Login says, without changing anything |
| Handlers.MockServer.CreateTask | src/mocks/handlers.js:131-145 | leaves the tables and answers as CreateTaskStep says, and keeps the invariant |
| Handlers.MockServer.UpdateTask | src/mocks/handlers.js:147-162 | leaves the tables and answers as UpdateTaskStep says, and keeps the invariant |
| Handlers.MockServer.SubmitProposal | src/mocks/handlers.js:188-217 | leaves the tables and answers as SubmitProposalStep says, and keeps the invariant |
| Handlers.MockServer.AcceptProposal | src/mocks/handlers.js:219-268 | leaves the tables and answers as AcceptProposalStep says, and keeps the invariant |
| Handlers.MockServer.OpenContract | src/mocks/handlers.js:234-265 | contracts the task and appends the contract and its payment, as CreateContract says |
| Handlers.MockServer.Escrow | src/mocks/handlers.js:308-349 | leaves the tables and answers as EscrowStep says, and keeps the invariant |
| Handlers.MockServer.HoldFunds | src/mocks/handlers.js:332-346 | appends the escrow_hold transaction and moves the amount into escrow, changing nothing else |
| Handlers.MockServer.Release | src/mocks/handlers.js:351-376 | leaves the tables and answers as ReleaseStep says, and keeps the invariant |
| Handlers.MockServer.SendMessage | src/mocks/handlers.js:398-421 | leaves the tables and answers as SendMessageStep says, and keeps the invariant |
| Handlers.MockServer.CreateReview | src/mocks/handlers.js:467-488 | leaves the tables and answers as CreateReviewStep says, and keeps the invariant |
| Queries.QueryInt | src/mocks/handlers.js:92-93 | a present, non-zero query number is used; an absent or zero one falls back to the default |
| Queries.ActiveFilter | src/mocks/handlers.js:97-103 | a filter applies iff the parameter is present, non-empty and not `all` |
| Queries.CeilDiv | src/mocks/handlers.js:116 | for a positive limit, `Math.ceil(total / limit)`: the least number of pages that holds the total |
| Queries.EnrichedTasks | src/mocks/handlers.js:95 | element k is the enrichment of task k |
| Queries.FilteredTasks | src/mocks/handlers.js:95-103 | the status filter then the case-insensitive category filter is one filter by both conditions |
| Queries.TwoFiltersAsOne | src/mocks/handlers.js:97-103 | the two successive filters, each applied only when active, equal one filter by their conjunction |
| Queries.FilteredTasksSelection | src/mocks/handlers.js:95-103 | the listing keeps table order, holds only enriched tasks of the table that match, and holds every matching one |
| Queries.Paginate | src/mocks/handlers.js:105-119 | data is the slice from (page-1)*limit of length limit; total, totalPages, hasNext and hasPrev are as the handler builds them |
| Queries.ListTasks | src/mocks/handlers.js:88-121 | GET /tasks paginates the filtered enriched tasks with page default 1 and limit default 20, and total is the filtered length |
| Queries.PaginatePaging | src/mocks/handlers.js:105-119 | for page, limit >= 1: data is elements [(page-1)*limit, page*limit) clipped to the list, hasNext iff page < totalPages, hasPrev iff page > 1 |
| Queries.PaginateFromEnd | src/mocks/handlers.js:105-119 | page 0 is empty; a negative page that fits in the list is the `limit` elements ending `-page*limit` from its end; neither has a previous page |
| Queries.ElementOnItsPage | src/mocks/handlers.js:105-119 | element k appears on page k div limit + 1, at position k mod limit |
| Queries.ListTasksDefaults | src/mocks/handlers.js:88-121 | with no parameters, the first page holds the first min(20, n) tasks, enriched, in table order |
| Queries.GetTask | src/mocks/handlers.js:123-129 | NOT_FOUND (404) iff no task has the id; otherwise the first task with that id, enriched |
| Queries.RoleFilter | src/mocks/handlers.js:280-289 | `requester` and `provider` select by that side; anything else selects contracts where the user is on either side |
| Queries.EnrichedContracts | src/mocks/handlers.js:277 | defined iff every contract enriches, and then element k is EnrichContract of contract k |
| Queries.ListContracts | src/mocks/handlers.js:272-296 | throws iff some contract cannot be enriched; otherwise the enriched contracts that pass the role and status filters, in order |
| Queries.ListContractsSound | src/mocks/handlers.js:280-293 | every listed contract is in the table and passes both filters |
| Queries.ListContractsComplete | src/mocks/handlers.js:280-293 | every contract that passes both filters is listed |
| Queries.ContractMatchesMeans | src/mocks/handlers.js:280-293 | a listed contract involves the current user, on the requested side, and has the requested status |
| Queries.GetContract | src/mocks/handlers.js:298-304 | NOT_FOUND iff no contract has the id; the `TypeError` when that contract cannot be enriched; otherwise that contract, enriched |
| Queries.GetUser | src/mocks/handlers.js:501-507 | NOT_FOUND iff no user has the id; otherwise the first user with that id |
| Queries.InsertNewestFirst | src/mocks/handlers.js:443 | inserting into a newest-first list keeps it newest-first and adds exactly the one element |
| Queries.SortNewestFirst | src/mocks/handlers.js:443 | the sort gives a newest-first permutation of its input |
| Queries.InsertNewestFirstStable | src/mocks/handlers.js:443 | an inserted entry goes before every entry of its own time, and the entries of each time keep their order |
| Queries.SortNewestFirstStable | src/mocks/handlers.js:443 | the sort is stable: the entries of each time are in the order of the input |
| Queries.NewestFirstOrdered | src/mocks/handlers.js:443 | in a newest-first list, every earlier entry is at least as recent as every later one |
| Queries.SelectedTransactions | src/mocks/handlers.js:433-441 | exactly the current user's transactions, restricted to positive amounts for `income` and negative for `expense`, each as often as in the table |
| Queries.ListTransactions | src/mocks/handlers.js:429-444 | a newest-first permutation of the selected transactions |
| Queries.ListTransactionsContents | src/mocks/handlers.js:429-444 | the listing holds exactly the user's transactions of the requested kind, each as often as in the table, newest first, and ties in table order |
| Queries.MyTasks | src/mocks/handlers.js:528 | the tasks the current user requested, each as often as in the table |
| Queries.MyProposals | src/mocks/handlers.js:529 | the proposals the current user made, each as often as in the table |
| Queries.MyContracts | src/mocks/handlers.js:530-532 | the contracts with the current user as requester or provider, each as often as in the table |
| Queries.TaskCounts | src/mocks/handlers.js:536-541 | each counter is zero iff no task has that status, all are zero for no tasks, needsReview is 0, and the draft, open and contracted counters together count at most the tasks |
| Queries.TaskCountsAppend | src/mocks/handlers.js:536-541 | one more task raises the counter of its status by one and no other, so each counter is the number of tasks with that status |
| Queries.ProposalCounts | src/mocks/handlers.js:542-546 | each counter is zero iff no proposal has that status, all are zero for no proposals, and together they count at most the proposals |
| Queries.ProposalCountsAppend | src/mocks/handlers.js:542-546 | one more proposal raises the counter of its status by one and no other |
| Queries.ContractCounts | src/mocks/handlers.js:547-554 | each counter is zero iff no contract qualifies (an unfunded payment, or the active or delivered status), and all are zero for no contracts |
| Queries.ContractCountsAppend | src/mocks/handlers.js:547-554 | one more contract raises unfunded by one iff its payment is unfunded, and the counter of its status by one |
| Queries.RecentContracts | src/mocks/handlers.js:557 | defined iff the first min(3, n) contracts enrich; then element k is the enrichment of contract k, in order |
| Queries.GetDashboard | src/mocks/handlers.js:527-560 | throws iff a recent contract cannot be enriched; otherwise the counters over the user's records, the wallet and the recent contracts |
| Queries.ContractCountsBounded | src/mocks/handlers.js:547-554 | in consistent tables the three contract counters together count at most the user's contracts |
| Queries.UnfundedIsDraftOrCancelled | src/mocks/handlers.js:548-550 | in consistent tables, a contract with an unfunded payment is draft or cancelled |
| Utils.JsRem | src/lib/utils.js:25 | JavaScript's `%`: the remainder takes the sign of the dividend and is smaller than the divisor in size |
| Utils.FormatMinutes | src/lib/utils.js:23-30 | `0m` for zero; otherwise `rm`, `hh` or `hh rm` by whether the hours or the remainder are zero |
| Utils.FormatMinutesRoundTrip | src/lib/utils.js:23-30 | reading a formatted non-negative duration back gives the number of minutes |
| Utils.Truncate | src/lib/utils.js:141-144 | text no longer than the limit is unchanged; longer text becomes its first maxLength characters followed by `...` |
| Utils.TruncateIdempotent | src/lib/utils.js:141-144 | truncating twice gives the same as once |
| Utils.Capitalize | src/lib/utils.js:151-154 | same length; the first character is upper-cased and the rest kept |
| Utils.CapitalizeIdempotent | src/lib/utils.js:151-154 | capitalising twice gives the same as once |
| Utils.Pluralize | src/lib/utils.js:163-166 | singular iff count is 1 when no plural is given; otherwise the given plural or singular + `s` |
| Utils.ValidatePassword | src/lib/utils.js:109-120 | valid with an empty message iff at least 8 characters, a lower-case letter and a digit; otherwise the first broken rule's message |
| Utils.IsValidAmount | src/lib/utils.js:129-131 | true iff min <= amount <= max |
| Utils.CanTaskReceiveProposals | src/lib/utils.js:175-177 | true exactly for the string that parses as the open task status |
| Utils.CanEditProposal | src/lib/utils.js:184-186 | true exactly for the string that parses as the pending proposal status |
| Utils.CanEscrowPayment | src/lib/utils.js:194-196 | true exactly when the strings parse as the unfunded phase and the draft contract status |
| Utils.CanReleasePayment | src/lib/utils.js:204-206 | true exactly when the strings parse as the escrowed phase and the delivered contract status |
| Utils.StatusPredicatesOnEnums | src/lib/utils.js:175-206 | each status predicate holds exactly for the status or pair it names: open, pending, unfunded with draft, escrowed with delivered |
| Utils.JointGuardsImplyHandlerGuards | src/lib/utils.js:194-206 | the joint guards imply the handlers' phase guards, and are strictly stronger: an active contract passes neither |
| Schemas.Check | src/lib/schemas.js:11-20 | a rule gives no issue iff it holds, and otherwise one issue on its field |
| Schemas.Bounds | src/lib/schemas.js:66-90 | a min/max rule gives no issue iff both bounds hold, and issues only on its field |
| Schemas.LoginIssues | src/lib/schemas.js:11-20 | the login form passes iff the email is non-empty and the password has at least 6 characters |
| Schemas.PasswordIssues | src/lib/schemas.js:22-43 | a password passes iff at least 8 characters, a lower-case letter and a digit, and issues name only its field |
| Schemas.StrongPasswordIsValidPassword | src/lib/schemas.js:22-43 | the schema's password rules are exactly `validatePassword`'s |
| Schemas.RegisterIssues | src/lib/schemas.js:22-43 | passes iff name length in [2, 50], email non-empty, a strong password, terms accepted and matching confirmation; confirmPassword is flagged iff the two differ |
| Schemas.ChangePasswordIssues | src/lib/schemas.js:172-183 | passes iff the current password is non-empty, the new one strong and confirmed; each field is flagged iff its rule fails |
| Schemas.TaskIssues | src/lib/schemas.js:66-90 | passes iff title in [5, 100], description in [20, 2000], budget in [1, 10000], 1..10 skills and a category |
| Schemas.ProposalIssues | src/lib/schemas.js:96-111 | passes iff hours in [1, 1000], bid in [1, 10000] and message length in [20, 2000] |
| Schemas.ReviewIssues | src/lib/schemas.js:115-126 | passes iff rating in [1, 5] and comment length in [10, 1000] |
| PricingValidation.CanPublish | src/lib/pricing/validation.js:11-13 | `budget >= floor`; BlockingIffBelowFloor states that the blocking message comes exactly when it fails |
| PricingValidation.IsBelowP25 | src/lib/pricing/validation.js:21-23 | `price < p25`; PricingValidationMessage states that the warning comes exactly when it holds at or above the floor |
| PricingValidation.FloorMessage | src/lib/pricing/validation.js:35 | the blocking message is the fixed prefix, the floor's digits and the fixed suffix |
| PricingValidation.FloorMessageIsNotWarning | src/lib/pricing/validation.js:34-40 | the blocking message never equals the p25 warning |
| PricingValidation.FloorMessageInjective | src/lib/pricing/validation.js:35 | different floors give different blocking messages |
| PricingValidation.PricingValidationMessage | src/lib/pricing/validation.js:31-43 | null without a recommendation; the floor message below the floor; the p25 warning at or above the floor and below p25; null otherwise |
| PricingValidation.BlockingIffBelowFloor | src/lib/pricing/validation.js:34-36 | the blocking message comes iff the budget is below the floor |
| PricingValidation.RaisingPriceKeepsSilence | src/lib/pricing/validation.js:31-43 | a budget that raises no message still raises none when increased |
| Toast.AutoRemoveDelay | src/lib/toast.js:36-39 | removal is scheduled after the duration when it is positive, after 5000 when it is absent or zero, and not at all when negative |
| Toast.AutoRemoveSkippedIffNegative | src/lib/toast.js:36-39 | no removal is scheduled iff the duration is negative |
| Toast.WithOptions | src/lib/toast.js:49-80 | caller options override the type, the message and the duration, since they are spread last |
| Toast.NoOptionsKeepsDefaults | src/lib/toast.js:49-80 | with no options the method's own type, message and duration are used |
| Toast.RemoveById | src/lib/toast.js:44-47 | the result holds no toast with the id, and every other toast of the list |
| Toast.RemoveAbsentId | src/lib/toast.js:44-47 | removing an absent id leaves the list unchanged |
| Toast.RemoveKeepsOrder | src/lib/toast.js:44-47 | removal keeps the order of the remaining toasts |
| Toast.RemoveIdempotent | src/lib/toast.js:44-47 | removing the same id twice is removing it once |
| Toast.RemoveKeepsIdsIncreasing | src/lib/toast.js:44-47 | removal keeps the ids strictly increasing |
| Toast.RemoveListener | src/lib/toast.js:17 | every copy of the listener is gone, every other listener keeps its number of copies, and none is added |
| Toast.UnsubscribeUndoesSubscribe | src/lib/toast.js:13-18 | the returned unsubscribe removes exactly the listener that subscribe added |
| Toast.RemoveUndoesAdd | src/lib/toast.js:24-47 | removing the id of the toast just added gives back the earlier list |
| Toast.ToastManager.constructor | src/lib/toast.js:7-11 | starts with no toasts, no listeners and next id 1 |
| Toast.ToastManager.Subscribe | src/lib/toast.js:13-15 | appends the listener and changes nothing else |
| Toast.ToastManager.Unsubscribe | src/lib/toast.js:16-17 | removes exactly that listener and changes nothing else |
| Toast.ToastManager.Add | src/lib/toast.js:24-42 | returns the old next id, which no earlier toast has, increments it by one, appends one toast at the end, schedules removal by AutoRemoveDelay, and keeps the ids increasing |
| Toast.ToastManager.Remove | src/lib/toast.js:44-47 | the toasts become RemoveById of the old ones; counter and listeners are kept |
| Toast.ToastManager.ShowSuccess | src/lib/toast.js:49-55 | adds a success toast with the message, which the options may override |
| Toast.ToastManager.ShowError | src/lib/toast.js:57-64 | adds an error toast with duration 7000, all of which the options may override |
| Toast.ToastManager.ShowWarning | src/lib/toast.js:66-72 | adds a warning toast with the message, which the options may override |
| Toast.ToastManager.ShowInfo | src/lib/toast.js:74-80 | adds an info toast with the message, which the options may override |
| Toast.ToastManager.StartPromise | src/lib/toast.js:82-87 | adds a loading toast of duration 0 (with `Loading...` by default) and, through `0 \|\| 5000`, still schedules its removal after 5000 |

## Left out

- The endpoints for thread lists and thread messages are not modelled, nor `enrichThread` and `getThreadById` (`src/mocks/handlers.js:380-396`, `src/mocks/data.js:361-363,392-401`). They only read.
- The three proposal lists (`src/mocks/handlers.js:166-186`), pending reviews, user reviews, logout, `me` and GET /wallet are not modelled (`src/mocks/handlers.js:78-84,425-427,448-465,490-497`). They are reads of rows the model already holds, or they return constants.
- The skills endpoints are not modelled (`src/mocks/handlers.js:509-523`). The skills table is outside the task, contract and payment flow, so it is not one of the model's tables.
- Object spreads in the handlers copy any extra keys of the request body, including an `id` that would override the generated one. Request bodies here are records with the fields the handlers read. `TaskPatch` has no `id`, `requesterId`, `createdAt`, `proposalCount` or `viewCount` key. So a patch cannot renumber a task, change its requester, its creation time or its counters, as a body with those keys could in the source.
- User ratings and the other floating-point fields of the records are left out, as are the pricing engine's floating-point computation of the floor and p25. The floor and p25 are integer inputs.
- The escrow transaction's `description` string is not part of `Transaction`. The corrected escrow has no description.
- `parseInt` on query strings is not modelled. A query number arrives as `Option<int>`, already parsed.
- The clock and `Date` parsing are not modelled: `now` is a parameter and timestamps are numbers. The mock token is a constant.
- Zod's `.email()` format, the task deadline refine (which reads the clock) and the string branch of the task budget are not modelled. The forgot-password, reset-password, profile, skill and message schemas are not modelled either.
- `isValidEmail` (a regular expression), the date, file-size and time-coin formatters, the query-string helpers, `debounce` and the localStorage helpers are not modelled.
- In `ToastManager`, `notify` and the listener calls are not modelled, and neither is `setTimeout`. `Add` returns the delay after which the toast would be removed.
- `ToastManager.promise` is modelled only as its synchronous start (`StartPromise`). The later `remove` and success or error toasts depend on the promise settling.
- Toast options carry only the `type`, `message` and `duration` keys. An `id` key in the options would override the generated id.
- Case mapping in `capitalize`, the category filter and the register initial is ASCII only.
- Marketplace.AcceptProposalStep: the case where the proposal's task is missing is modelled as the `TypeError` the code throws, after the proposal has been marked accepted. The model does not require the task to exist.
- Schemas.RegisterIssues: the issue path is stated for `confirmPassword` only; for the other fields only the overall pass or fail is stated.
- Schemas.TaskIssues: only the overall pass or fail is stated, not which field each issue names.
- Queries.GetDashboard: the response's `pendingActions` field (`src/mocks/handlers.js:558`) is not a field of `Dashboard`. The handler always sends it as an empty list.
- Utils.Truncate, Utils.Capitalize, Utils.ValidatePassword, Schemas.Bounds and Marketplace.RegisterStep: strings are sequences of Unicode code points, while JavaScript's `length`, `slice` and `[0]` count UTF-16 code units. The two differ for characters outside the Basic Multilingual Plane, such as most emoji. The same holds for every length bound in the schemas.
- Api.ErrorCode: `UNHANDLED_EXCEPTION` is this model's label for an exception escaping a handler. No handler sends that code. The mock service worker answers such an exception with its own 500 response, not with a `{ code, message }` body.

## Findings

| source | as written | input that shows it | evidently intended | confidence | as-written member | corrected member |
|---|---|---|---|---|---|---|
| src/mocks/handlers.js:339 | The escrow description reads `contract.task.title`. Contracts in the table have no `task` field, so the line throws a `TypeError` after the payment was set to escrowed and the contract to active. No escrow_hold is logged, no money moves, and the request answers 500. | Escrowing any contract with an unfunded payment, for example one just created by accepting a proposal | Log one escrow_hold transaction and move the amount from the available to the escrowed balance | not executed | Marketplace.EscrowAsWrittenStep | Marketplace.EscrowStep |
