# Feedback board: a verified model

The feedback board is a small product-feedback service. Users register and
log in. They post feedback items with a category and a status, vote on
items (one vote per user and item, toggled on and off), and browse a
filtered, sorted, paginated list. A React client keeps the list in a hook
and shows creation times as relative text.

This project models the core of that system in Dafny and proves what its
handlers promise:

- **Store** (`store.dfy`): the relational store as the class `Store.Db`.
  - Its fields are the user, category, status and post tables, stored as
    maps, plus the vote table as a set of `(userId, postId)` pairs.
  - Ids are autoincrement counters that start at 1.
  - `Db.Valid()` holds the integrity constraints: primary keys, unique
    email and name columns, and foreign keys.
  - `Db.Tables()` returns the whole state as one `Snapshot` value, so each
    handler can state its frame as a single equation.
- **Feedback handlers** (`feedback.dfy`):
  - `createFeedback`, `updateFeedback` and `deleteFeedback` are methods
    on the store. Their guards run in the source's order.
  - `getFeedbacks` is a pure function: filter, sort, `skip`/`take`,
    decoration with `votes`/`hasVoted`, and the pagination block.
- **Vote toggle** (`votes.dfy`): `toggleVote` on the vote set, with the
  step it takes written as a function.
- **Users** (`users.dfy`): `register`, `login` and `getProfile`. Password
  hashing, hash comparison and token signing are function parameters.
- **Authentication middleware** (`auth.ts`, modelled in `auth.dfy`):
  - header splitting on single spaces;
  - the 401/403 decision;
  - an `Exchange` object whose `user`, response status and `next` count
    the middleware updates.
- **Router** (`routes.dfy`): the five feedback routes as mounted. The
  listing runs without the middleware; create, update, delete and vote run
  the middleware first and then the handler with the decoded user. It also
  gives a corrected mounting of the listing.
- **Seed script** (`seed.dfy`): the two upsert loops over the fixed status
  and category names.
- **Client hook** (`hook.dfy`):
  - the `useFeedback` state (`feedbacks`, `loading`, `error`) as a class;
  - its three operations;
  - the error fallback of `feedbackService.getFeedbacks`.
- **Relative time** (`helper.dfy`): the branches of `formatDate` over
  elapsed milliseconds.

External effects are parameters:

- the current time (`now`, or the elapsed milliseconds);
- `bcrypt.hash`, `bcrypt.compare`, `jwt.sign` and `jwt.verify`;
- the settled outcome of every awaited HTTP call in the client;
- the `toLocaleDateString` text.

A store failure that the source reports as 500 appears in the model as the
500 reply. This covers a foreign-key violation, and a lookup with an
undefined key when no user is attached. That reply leaves the store
unchanged.

In these places the code's behaviour is modelled as written:

- An update whose category or status id does not resolve fails with 500,
  not 400. The update handler validates nothing and lets the store reject
  the keys.
- An insert or vote for a user or post that does not exist also fails
  with 500.
- The listing is mounted without the authentication middleware, so it
  never reports the caller's vote. This is the first finding below.
- The 500 reply's `details` text is the store's error message, which the
  model does not have; it is modelled as absent.

## Model

| member | source | states |
|---|---|---|
| Store.Db.constructor | feedback-system/src/controllers/feedbackController.ts:4 | an empty store that meets `Valid()`, with every id counter at 1: the state of a freshly migrated database; the handlers themselves assume only `Valid()` |
| VoteController.Toggled | feedback-system/src/controllers/voteController.ts:21-41 | the toggled pair's membership flips and every other pair keeps its membership |
| VoteController.VoteStep | feedback-system/src/controllers/voteController.ts:6-45 | "Голос снят" exactly when the caller's pair was present, and "Голос учтен" exactly when the pair was absent and both rows exist; every success toggles exactly that pair; every failure is 500 "Ошибка при голосовании" with the votes unchanged |
| VoteController.ToggleVote | feedback-system/src/controllers/voteController.ts:6-45 | the new vote table and the reply are those of `VoteStep` on the old tables; every other table is unchanged; the store stays valid; the insert is reached only when the pair is absent (the "Голос учтен" case of `VoteStep`), so a second row for the same pair is never written |
| VoteController.ToggleInvolution | feedback-system/src/controllers/voteController.ts:21-41 | toggling the same pair twice restores the vote set |
| VoteController.ToggleTwiceRestores | feedback-system/src/controllers/voteController.ts:21-41 | after one successful toggle, a second call by the same user on the same post also succeeds and restores the original vote table |
| VoteController.ToggleChangesCountByOne | feedback-system/src/controllers/voteController.ts:23-39 | a toggle lowers its post's vote count by one when removing and raises it by one when inserting; every other post's count is unchanged |
| FeedbackController.NoVotesOnAbsentPost | feedback-system/src/controllers/feedbackController.ts:78-80 | a post id with no row has vote count 0, so a newly created post reports 0 votes |
| FeedbackController.CreateFeedback | feedback-system/src/controllers/feedbackController.ts:28-92 | a missing or empty title, description, categoryId or statusId gives 400 "All fields are required"; then an unknown category gives 400 "Category not found"; then an unknown status gives 400 "Status not found"; then a user that does not exist gives 500 "Error creating feedback"; success happens exactly when all guards pass, adds exactly one post under the next id, with the caller as author and 0 votes, and replies 201; every failure leaves the store unchanged |
| FeedbackController.Rewritten | feedback-system/src/controllers/feedbackController.ts:198-205 | the updated row keeps its id, author and creation time; a title or description left undefined keeps its old value; the category and status ids are replaced |
| FeedbackController.UpdateFeedback | feedback-system/src/controllers/feedbackController.ts:170-230 | no user id gives 401; then an unknown id gives 404; then a caller who is not the author gives 403; then keys that do not resolve give 500; only on success is the one post rewritten as `Rewritten`, with the reply 200 and its vote count; every failure leaves the store unchanged |
| FeedbackController.DeleteFeedback | feedback-system/src/controllers/feedbackController.ts:232-271 | the same 401, 404 and 403 guards in the same order, each leaving the store unchanged; success happens exactly for the author, removes the post and its vote rows and nothing else, and replies 204 |
| FeedbackController.SortedPairwise | feedback-system/src/controllers/feedbackController.ts:119-121 | in a sorted sequence, any earlier row has a key at least that of any later row |
| FeedbackController.Insert | feedback-system/src/controllers/feedbackController.ts:119-121 | inserting into a non-increasing sequence keeps it non-increasing and adds exactly that row |
| FeedbackController.Sort | feedback-system/src/controllers/feedbackController.ts:119-121 | the result is non-increasing in the order key (vote count for `sortBy == "votes"`, creation time otherwise) and is a permutation of the input |
| FeedbackController.CeilDiv | feedback-system/src/controllers/feedbackController.ts:153 | `pages` is the least count whose pages hold all `total` rows: `pages*limit >= total` and `(pages-1)*limit < total` |
| FeedbackController.Window | feedback-system/src/controllers/feedbackController.ts:115-118 | `skip`/`take`: at most `take` rows, exactly the rows from offset `skip` on, and none when the offset is past the end |
| FeedbackController.Matches | feedback-system/src/controllers/feedbackController.ts:110-112 | with neither filter supplied every post matches; a filter that was not supplied places no condition, so the match is decided by the other one alone; a supplied `categoryId` or `statusId` matches only posts with that id |
| FeedbackController.Decorate | feedback-system/src/controllers/feedbackController.ts:132-147 | a listed row carries its post and `_count.votes`; `hasVoted` is false without a truthy user id, and otherwise holds exactly when that user's vote row exists |
| FeedbackController.Candidates | feedback-system/src/controllers/feedbackController.ts:115-116 | the posts selected by the `where` clause among the ids below the counter; there are no more of them than ids below the bound |
| FeedbackController.Ordered | feedback-system/src/controllers/feedbackController.ts:115-121 | the selected rows in non-increasing `orderBy` key order, as a permutation of the selected rows |
| FeedbackController.ListFeedbacks | feedback-system/src/controllers/feedbackController.ts:94-164 | at most `limit` rows (default 10), which are the ordered matching rows from offset `(page-1)*limit` (default page 1); `total` is the number of matching rows; `pages` is `ceil(total/limit)`; `currentPage` is the requested page |
| FeedbackController.CandidatesSound | feedback-system/src/controllers/feedbackController.ts:110-112 | every candidate row is a stored post that matches the filters, decorated with its own counts, and the ids ascend |
| FeedbackController.CandidatesComplete | feedback-system/src/controllers/feedbackController.ts:110-112 | every stored post that matches the filters is a candidate |
| FeedbackController.CandidatesCount | feedback-system/src/controllers/feedbackController.ts:140 | there are as many candidates as matching ids |
| FeedbackController.TotalCountsMatching | feedback-system/src/controllers/feedbackController.ts:140 | `total` equals the number of stored posts that match the filters |
| FeedbackController.OrderedHoldsEachMatchOnce | feedback-system/src/controllers/feedbackController.ts:114-139 | the full ordering holds each matching post exactly once |
| FeedbackController.OrderedHoldsOnlyMatches | feedback-system/src/controllers/feedbackController.ts:114-139 | every row of the full ordering is a matching stored post with its own vote count and vote flag |
| FeedbackController.ListedRowsMatch | feedback-system/src/controllers/feedbackController.ts:143-147 | each listed row is a stored post that matches the filters; `votes` is its vote-row count; `hasVoted` is false without a user id and otherwise says whether that user's vote row exists |
| FeedbackController.ListingOrdered | feedback-system/src/controllers/feedbackController.ts:119-121 | along a page, the vote counts do not increase for `sortBy == "votes"`, and the creation times do not increase otherwise |
| FeedbackController.EveryRowOnItsPage | feedback-system/src/controllers/feedbackController.ts:108 | whenever `k == (page-1)*limit + i` with `i < limit`, row `k` of the full ordering is row `i` of that page |
| FeedbackController.PastLastPageEmpty | feedback-system/src/controllers/feedbackController.ts:149-155 | a page number beyond `pages` lists no rows |
| FeedbackController.FifteenPostsTwoPages | feedback-system/src/controllers/feedbackController.ts:99-155 | with 15 matching posts and the default limit, there are 2 pages: page 1 has 10 rows and page 2 has 5 |
| UserController.UserWithEmail | feedback-system/src/controllers/userController.ts:69-71 | the lookup by email returns a stored user with that email |
| UserController.Register | feedback-system/src/controllers/userController.ts:19-60 | 400 "Email уже зарегистрирован" exactly when the email is taken, with no user created; otherwise exactly one user under the next id, storing `hash(password, 10)`; the reply is 201 with the user without its password and a token signed over exactly its id and email, valid for 24h |
| UserController.Login | feedback-system/src/controllers/userController.ts:62-95 | an unknown email and a wrong password give the identical 401 "Неверный email или пароль"; otherwise 200 with the user without its password and a token over exactly its id and email; the store is only read |
| UserController.GetProfile | feedback-system/src/controllers/userController.ts:97-124 | no user gives 500 "Ошибка при получении профиля"; an unknown id gives 404 "Пользователь не найден"; otherwise 200 with id, email, avatar and timestamps, and never the password |
| UserController.RegisteredUserCanLogIn | feedback-system/src/controllers/userController.ts:35-78 | if `compare` accepts every password against its own hash, a registered user's password passes login's check for that user |
| UserController.RegisterTwice | feedback-system/src/controllers/userController.ts:19-60 | after a successful registration, a second `register` with the same email answers 400 "Email уже зарегистрирован" and the users table stays exactly as the first call left it (one new row under the next id); when the first call fails, the second fails the same way and nothing changes |
| AuthMiddleware.Split | feedback-system/src/middleware/auth.ts:24 | `split(' ')` yields at least one piece and no piece contains a space |
| AuthMiddleware.ExtractToken | feedback-system/src/middleware/auth.ts:23-26 | no header gives no token; a token is field 1 of the header split on single spaces, non-empty and without a space; a non-empty field 1 is always taken as the token |
| AuthMiddleware.JoinSplit | feedback-system/src/middleware/auth.ts:24 | joining the pieces with single spaces gives back the header |
| AuthMiddleware.SplitAfterWord | feedback-system/src/middleware/auth.ts:24 | a word without spaces followed by a space splits off as field 0 |
| AuthMiddleware.NoSpaceSplit | feedback-system/src/middleware/auth.ts:24 | a header without spaces splits into itself alone |
| AuthMiddleware.Authenticate | feedback-system/src/middleware/auth.ts:17-37 | 401 "Authentication required" exactly when no truthy field 1 exists; 403 "Invalid token" exactly when field 1 fails verification; otherwise it proceeds with the decoded payload |
| AuthMiddleware.SchemeNotChecked | feedback-system/src/middleware/auth.ts:24 | `"<any word> <token>"` extracts `token`, so `"Token abc"` works like `"Bearer abc"` |
| AuthMiddleware.NoSpaceNoToken | feedback-system/src/middleware/auth.ts:24-29 | a header with no space yields no token, hence 401 |
| AuthMiddleware.DoubleSpaceNoToken | feedback-system/src/middleware/auth.ts:24-29 | a double space after the scheme, as in `"Bearer  x"`, leaves field 1 empty, hence 401 |
| AuthMiddleware.AuthenticateToken | feedback-system/src/middleware/auth.ts:17-37 | on success `req.user` is the decoded payload and `next` runs exactly once, with no response sent; on denial the status and error are sent, `next` does not run and `req.user` is untouched |
| FeedbackRoutes.MountedListNeverShowsVote | feedback-system/src/routes/feedbackRoutes.ts:13 | as mounted, no listed row has `hasVoted`, whatever the request's header |
| FeedbackRoutes.ListAsMounted | feedback-system/src/routes/feedbackRoutes.ts:13 | `GET /` as mounted never reads the header: no listed row has `hasVoted`, even for a caller with a valid token who voted |
| FeedbackRoutes.MountedListIsAnonymous | feedback-system/src/routes/feedbackRoutes.ts:13 | whatever the header and the verifier, the mounted listing is the listing with no user |
| FeedbackRoutes.AnonymousRowsUnvoted | feedback-system/src/controllers/feedbackController.ts:132-147 | without a user id, every listed row has `hasVoted` false |
| FeedbackRoutes.ListWithOptionalAuth | feedback-system/src/routes/feedbackRoutes.ts:13 | the corrected `GET /`: the anonymous listing when the middleware would deny, and the listing for the decoded user id when it would proceed |
| FeedbackRoutes.OptionalUser | feedback-system/src/middleware/auth.ts:23-33 | the caller's id when the header's token verifies, and no user otherwise |
| FeedbackRoutes.OptionalAuthShowsOwnVotes | feedback-system/src/routes/feedbackRoutes.ts:13 | with optional authentication, every listed row's `hasVoted` says exactly whether the verified caller's vote exists |
| FeedbackRoutes.OptionalAuthAnonymous | feedback-system/src/routes/feedbackRoutes.ts:13 | with optional authentication, a request without a valid token gets the anonymous listing |
| FeedbackRoutes.VoteRoute | feedback-system/src/routes/feedbackRoutes.ts:17 | a denied request gets the middleware's status and error and the votes are unchanged; an authenticated one gets the toggle for the decoded user |
| FeedbackRoutes.UnauthenticatedVoteChangesNothing | feedback-system/src/routes/feedbackRoutes.ts:17 | a vote request without a verifying token fails with 401 or 403 and leaves the votes unchanged |
| FeedbackRoutes.CreateRoute | feedback-system/src/routes/feedbackRoutes.ts:14 | a denied request gets the middleware's status and error with the store unchanged; an authenticated one succeeds exactly when the fields are present, both keys resolve and the token's user has a row, and then the post table gains exactly the new row under the next id, with the request's fields, that user as author and the given time, the id counter moves on by one, every other table is unchanged, and the reply is 201 with 0 votes |
| FeedbackRoutes.UpdateRoute | feedback-system/src/routes/feedbackRoutes.ts:15 | a denied request gets the middleware's reply with the store unchanged; for a token with a non-zero user id the handler's own 401 is never sent, and the update succeeds exactly for the author with keys that resolve; on success only that post changes, to `Rewritten`, every other table is unchanged, and the reply is 200 with its vote count |
| FeedbackRoutes.DeleteRoute | feedback-system/src/routes/feedbackRoutes.ts:16 | a denied request gets the middleware's reply with the store unchanged; for a token with a non-zero user id the handler's own 401 is never sent, and the delete succeeds exactly for the author; on success the reply is 204, the post and exactly its vote rows are removed, and every other table is unchanged |
| Seed.Upsert | feedback-system/prisma/seed.ts:15-19 | after an upsert the name has a row; a name already present leaves the table as it was, since the update part is empty |
| Seed.UpsertAll | feedback-system/prisma/seed.ts:14-20 | one loop: the upserts of the names in order; each name adds at most one row, so the id counter grows by at most the number of names |
| Seed.UpsertKeepsValid | feedback-system/prisma/seed.ts:15-19 | an upsert keeps ids positive and below the counter, and names unique |
| Seed.UpsertKeepsRows | feedback-system/prisma/seed.ts:17 | an upsert keeps every existing row under its id with its name |
| Seed.UpsertAllFacts | feedback-system/prisma/seed.ts:14-20 | a run of upserts keeps the table valid and every old row unchanged, leaves every listed name present, and adds only rows with listed names |
| Seed.UpsertAllPresent | feedback-system/prisma/seed.ts:17 | upserting names that are all present changes nothing |
| Seed.UpsertAllIdempotent | feedback-system/prisma/seed.ts:14-36 | running the upserts twice gives the same table as running them once |
| Seed.RunSeed | feedback-system/prisma/seed.ts:5-39 | the two loops leave the status and category tables as the upserts of the four names each, keep the store valid, and change no other table |
| Seed.SeedOutcome | feedback-system/prisma/seed.ts:5-39 | after the seed, all four status names and all four category names exist; rows that were there are unchanged; seeding again changes nothing |
| UseFeedback.GetFeedbacksService | feedback-frontend/src/services/feedbackService.ts:46-57 | the service never rejects: a successful request passes through, and a failed one becomes empty posts with pagination `(0, 0, 1)` |
| UseFeedback.GetFeedbacksRethrowing | feedback-frontend/src/services/feedbackService.ts:59-78 | the service rethrowing as its siblings do: it rejects exactly when the request failed |
| UseFeedback.FetchStep | feedback-frontend/src/hooks/useFeedback.ts:11-28 | `loading` is false after every fetch; on success `feedbacks` becomes the response's posts and `error` is cleared; on failure `feedbacks` are kept and `error` is "Failed to load feedbacks" |
| UseFeedback.CreateStep | feedback-frontend/src/hooks/useFeedback.ts:30-49 | a successful create makes the list the created post in front of the previous list in its previous order; a failed one changes nothing |
| UseFeedback.VoteStep | feedback-frontend/src/hooks/useFeedback.ts:51-63 | a successful vote is followed by a fetch; a failed vote is swallowed and changes nothing |
| UseFeedback.FeedbackHook.constructor | feedback-frontend/src/hooks/useFeedback.ts:6-8 | the initial state is an empty list, `loading` true and no error |
| UseFeedback.FeedbackHook.FetchFeedbacks | feedback-frontend/src/hooks/useFeedback.ts:11-28 | the hook's fields change as `FetchStep` says |
| UseFeedback.FeedbackHook.CreateFeedback | feedback-frontend/src/hooks/useFeedback.ts:30-49 | the fields change as `CreateStep` says; the created post is returned, or the error is rethrown |
| UseFeedback.FeedbackHook.ToggleVote | feedback-frontend/src/hooks/useFeedback.ts:51-63 | the fields change as `VoteStep` says; nothing is rethrown |
| UseFeedback.FailedLoadLooksEmpty | feedback-frontend/src/services/feedbackService.ts:53-56 | with the service as written, a failed load leaves an empty list, `loading` false and `error` null |
| UseFeedback.FailedLoadIndistinguishable | feedback-frontend/src/services/feedbackService.ts:53-56 | with the service as written, a failed load ends in the same state as loading an empty board |
| UseFeedback.FailedLoadReportsError | feedback-frontend/src/hooks/useFeedback.ts:17-24 | with a rethrowing service, a failed load keeps the list and sets `error` to "Failed to load feedbacks" |
| UseFeedback.CreatesPrepend | feedback-frontend/src/hooks/useFeedback.ts:33 | successive creates put their posts in front, most recent first, with the earlier list behind them unchanged |
| Helper.Classify | feedback-frontend/src/utils/helper.ts:11-30 | "just now" exactly below 60 s (future dates included); the absolute date exactly from 604800 s on; minutes below 3600 s, days from 86400 s on, hours in between; the count is the number of whole units elapsed |
| Helper.Render | feedback-frontend/src/utils/helper.ts:13-30 | "just now" for the first branch, the absolute text for the last; a relative text starts with the count's digits and ends in " ago" |
| Helper.FormatDate | feedback-frontend/src/utils/helper.ts:8-31 | under 60 s the text is "just now"; from 604800 s on it is the absolute date; in between it ends in " ago" |
| Helper.RelativeTexts | feedback-frontend/src/utils/helper.ts:15-23 | from a minute to an hour the text is "N minute(s) ago", from an hour to a day "N hour(s) ago", and from a day to a week "N day(s) ago", where N is the floor of the elapsed time over the unit, followed by a space, the unit word, an "s" exactly when N is above one, and " ago" |
| Helper.AgoBounds | feedback-frontend/src/utils/helper.ts:15-23 | the count is 1 to 59 minutes, 1 to 23 hours, or 1 to 6 days |
| Helper.NatToString | feedback-frontend/src/utils/helper.ts:17 | the printed count is a non-empty string of decimal digits |
| Helper.DigitsValueOfNatToString | feedback-frontend/src/utils/helper.ts:17 | the printed digits read back as the count |
| Helper.ShownCountIsWholeUnits | feedback-frontend/src/utils/helper.ts:16-23 | the number a relative text starts with is `floor(elapsed / unit)` |
| Helper.PluralExactlyAboveOne | feedback-frontend/src/utils/helper.ts:17-23 | a relative text ends in "s ago" exactly when its count is above one |
| Helper.MagnitudeMonotone | feedback-frontend/src/utils/helper.ts:13-30 | an older date never shows a younger age |

## Left out

- I/O: HTTP, JSON encoding, the console, toasts, `localStorage`, and the
  React rendering and re-rendering around the hook.
- The hook's intermediate `loading := true` state while a fetch is
  pending. Each hook operation is modelled from call to settlement, and
  React's batching of state updates is not modelled.
- The `author`, `category` and `status` hydration that the `include`
  clauses add to rows. Rows carry the post, its vote count and its vote
  flag.
- The `updatedAt` column of posts; the schema defining it is not part of
  this model. Users keep `createdAt` and `updatedAt` because
  `getProfile` selects them.
- The cascade of a post's votes on delete is taken as the schema's
  policy. Without it, the store would reject deleting a voted post with
  500.
- The `details` text of 500 replies: it is the store's or library's
  error message, which is not modelled.
- The 500 paths of `register` ("Ошибка при регистрации") and `login`
  ("Ошибка при входе"): they arise only from library or store
  failures, including bcrypt's argument error for a body without `email`
  or `password`, which the model's parameters do not produce.
- `parseInt` edge cases: `NaN`, trailing characters, and `limit = 0`
  making `ceil` infinite. Query numbers are naturals, with page ≥ 1 and
  limit ≥ 1. A request body's ids are naturals; a missing id is `None`.
- JavaScript truthiness is modelled only through the values it can
  take here: undefined or `""` for text, undefined or 0 for ids.
- FeedbackController.Sort: ties are left in an unspecified order, as the
  source leaves them to the database. The model fixes one order, and its
  contract states only the non-increasing key order.
- Concurrency: `toggleVote`'s find-then-create is not atomic, so a racing
  double submit is left to the unique constraint. The model is
  sequential.
- bcrypt salting and the JWT secret and expiry mechanics are library
  internals; hashing, comparing, signing and verifying are opaque
  function parameters.
- UserController.RegisteredUserCanLogIn: the assumption that `compare`
  accepts a password against its own hash is a precondition of this one
  lemma, not a property of `bcrypt` proved here.
- Wall-clock time and `toLocaleDateString` in `formatDate`: the elapsed
  time is a parameter in integer milliseconds, so the floating `/ 1000`
  is exact. The absolute-date text is a parameter.
- The other handlers (categories, profile update), the remaining
  services, the React components and the Express wiring are not part of
  this model. Of the Express wiring, only the feedback router's five
  routes are modelled.

## Findings

| source | as written | input that shows it | evidently intended | confidence | as-written member | corrected member |
|---|---|---|---|---|---|---|
| feedback-system/src/routes/feedbackRoutes.ts:13 | `GET /` is mounted without `authenticateToken`, so `getFeedbacks` never has `req.user` and its `hasVoted` branch is dead | a listing request with a valid bearer token from a user who voted for a listed post: that row says `hasVoted: false` | optional authentication on the listing, so a verified caller sees their own votes (the client sends its token with this request) | medium, not executed | FeedbackRoutes.MountedListNeverShowsVote | FeedbackRoutes.OptionalAuthShowsOwnVotes |
| feedback-frontend/src/services/feedbackService.ts:53-56 | `getFeedbacks` catches a failed request and resolves with an empty page, so the hook's `catch` branch never runs | the list request fails, for example because the server is down: the hook shows an empty board with `error` null instead of "Failed to load feedbacks" | the service rethrows as `createFeedback` and `toggleVote` do, so the hook reports the failure and keeps the list it had | medium, not executed | UseFeedback.FailedLoadLooksEmpty | UseFeedback.FailedLoadReportsError |
