# Exercise tracker: in-memory store and API handlers

This project models the core of a small exercise-tracking HTTP API
(`index.js`). The API keeps an in-memory database made of two lists and two
counters: `users`, `exercises`, `nextUserId` and `nextExerciseId`, the
counters starting at 1. Four handlers act on that database:

- `POST /api/users` registers a user;
- `GET /api/users` lists the users;
- `POST /api/users/:_id/exercises` records an exercise for a user;
- `GET /api/users/:_id/logs` reports a user's exercise log, optionally
  restricted to a date range and truncated to a limit.

The database is the class `Tracker.Store`. Its fields are the two lists, as
sequences, and the two counters. The two handlers that push and increment
are methods with `modifies this`. `ListUsers` and `GetLog` only read.
The log pipeline is the pure function `Records.Log` over the stored
sequences. It filters by user, then by date, then slices, then formats.
Lemmas about `Log` state what a log request reports.

Each handler except `ListUsers`, which cannot fail and returns the user
sequence itself, returns a `Response`: `Ok(body)`, `BadRequest(message)`
(HTTP 400) or `NotFound(message)` (HTTP 404), with the source's error
messages.

Modelling choices:

- Ids are the decimal text of the counter (`nextUserId.toString()`),
  modelled by `Decimal.DecimalString`. Distinct counter values give
  distinct ids because that rendering is injective.
- The store invariant `Store.Valid` says three things. The i-th user has
  id `DecimalString(i + 1)`, and `nextUserId` is one more than the number
  of users. The same holds for exercises and `nextExerciseId`. Every
  stored exercise names a registered user.
- A date is an `Instant`: the ordered time value `new Date` yields
  (`At(time)`), or `InvalidDate` for what JavaScript's `Date` could not
  parse. `LogExample` happens to use day numbers as time values.
  "Both bounds are inclusive" is about these time values: an exercise whose
  time equals a bound is kept. Every comparison with an invalid
  date is false, as with NaN. So an exercise with an invalid date is never
  excluded, and an invalid bound excludes nothing.
- An exercise's date is a `DateStamp`: the text `toDateString()`
  produced, carried unchanged into replies and log entries, and `when`, the
  instant `new Date(text)` yields when the log re-parses that stored text.
  That is the start of the stored day, so `now` and request dates are
  passed in already truncated to their day.
- The current date used when a request gives none is the parameter `now`.
- A request field that JavaScript treats as falsy (absent or empty) is
  `None` or an empty string; `Records.Present` is the truthiness test.
- `limit` is the integer `parseInt` produced. `Collections.Slice` follows
  `Array.prototype.slice(0, n)`, including a negative `n`, which counts
  back from the end.
- The log's `count` is the length of the log after the limit is applied.
  This is what the code does (`count: log.length`). A reading of "count" as
  the number of exercises before truncation does not match the code.

## Model

| member | source | states |
|---|---|---|
| Tracker.Store.constructor | index.js:14-17 | The store starts with no users, no exercises, both counters at 1, and satisfies the invariant |
| Tracker.Store.CreateUser | index.js:27-43 | An absent or empty username gives 400 and changes nothing; otherwise exactly one user is appended with the old counter's text as id, that id was not used before, the counter grows by 1, and exercises are untouched; the invariant is kept |
| Tracker.Store.Valid | index.js:14-17 | The store invariant; whenever it holds, user ids are pairwise distinct and exercise ids are pairwise distinct |
| Tracker.Store.ListUsers | index.js:46-48 | Returns exactly the stored users in insertion order, changes nothing, their ids are pairwise distinct, and looking up each listed user's id finds that very user |
| Tracker.Store.AddExercise | index.js:51-95 | An unknown user id gives 404 and changes nothing, checked before the fields; a known user with description or duration missing gives 400 and changes nothing; otherwise exactly one exercise is appended with a fresh id, the path id as owner and the request date or `now`, the counter grows by 1, users are untouched, and the reply merges the user's id and name with the exercise's fields; the invariant is kept |
| Tracker.Store.GetLog | index.js:98-145 | Returns the report `Records.Log` defines for the current store and changes nothing |
| Tracker.AddThenLog | index.js:86-92 | After a successful exercise creation, the next unbounded, unlimited log of that user ends with an entry holding the reply's description, duration and date text |
| Records.Log | index.js:98-145 | Never 400; 404 with "User not found" exactly when no user has the id; otherwise the report carries the id and that user's name, `count` equals the log length, and the log is no longer than the stored exercises |
| Records.LogEntriesBelong | index.js:109-135 | Every log entry is the formatting of a stored exercise of the requested user whose date lies within the bounds |
| Records.InRangeKeepsExactly | index.js:112-123 | The date filter keeps an exercise if and only if its date is within the bounds; with no bound it keeps everything |
| Records.InvalidBoundsIgnored | index.js:115-119 | Bounds that are absent or unparseable exclude nothing |
| Records.WithinInclusive | index.js:118-119 | For valid dates both bounds are inclusive: a date is within iff from <= date <= to |
| Records.LogUnbounded | index.js:109-135 | Without bounds and limit, the log is every exercise of the user in stored order, and the count is their number |
| Records.LogLimit | index.js:126-128 | A non-negative limit n gives the first min(n, m) of the m date-filtered exercises, and count is min(n, m) |
| Records.LogAfterAppend | index.js:82 | Storing an exercise for a registered user appends exactly its description, duration and date text to that user's unbounded log and leaves the earlier entries unchanged |
| Records.LogAppendOther | index.js:109 | Storing an exercise for one user leaves every other user's log unchanged under any query |
| Records.LogExample | index.js:109-128 | For exercises dated 2023-01-01, 2023-01-15 and 2023-02-01, the range 2023-01-01 to 2023-01-31 gives the first two with count 2, and limit 1 gives the earliest created |
| Records.Within | index.js:115-119 | Each bound is tested on its own: a valid date is within iff it is not before a valid `from` and not after a valid `to`, an absent or invalid bound imposing nothing; an invalid exercise date is always within |
| Records.UserExercises | index.js:109 | The result is no longer than the stored exercises, holds only exercises of the user, and holds every stored exercise of the user |
| Records.InRange | index.js:112-123 | The result holds only input exercises within the bounds and every input exercise within them; without `from` and `to` it is the input itself |
| Records.Limited | index.js:126-128 | The result is a prefix of the input; without a limit it is the input; its length is the limit clamped to the input length, or counted back from the end when the limit is negative |
| Records.Entries | index.js:131-135 | One entry per exercise, in order, each carrying that exercise's description, duration and date text |
| Records.UserIndex | index.js:56 | The index is that of the first user with the id, or the number of users when none has it |
| Records.FindUser | index.js:56 | Finds nothing exactly when no user has the id; otherwise returns a stored user with that id |
| Records.FindUserUnique | index.js:103 | When ids are distinct, looking up a user's id returns that very user |
| Records.FindUserAppend | index.js:39 | Registering a user does not change the lookup of an id already registered |
| Records.NumberedDistinct | index.js:36-40 | Ids handed out by the counter are pairwise distinct |
| Records.NumberedFresh | index.js:36-40 | The id the counter hands out next was never handed out before |
| Records.NumberedExtend | index.js:75-83 | Handing out the next id and incrementing the counter keeps the numbering invariant |
| Decimal.DecimalString | index.js:36 | The decimal text of a counter value is a non-empty string of digits, with two or more digits exactly for values of 10 and above |
| Decimal.DecimalStringInjective | index.js:36 | Different counter values never render to the same id text |
| Collections.Filter | index.js:109 | The result is no longer than the input; as a set, it holds exactly the input elements that pass the test |
| Collections.FilterSingleton | index.js:109 | On one element the filter keeps it iff it passes the test; with `FilterAppend` this fixes the result's order and multiplicity |
| Collections.FilterAppend | index.js:109 | Filtering a concatenation is the concatenation of the filtered parts, so the filter keeps the input's order |
| Collections.FilterKeepsAll | index.js:112-123 | A filter that rejects nothing returns its input unchanged |
| Collections.Slice | index.js:127 | The result is a prefix of the input; its length is the end index clamped to the input's length, or counted back from the end when negative |
| Collections.Map | index.js:131-135 | The result has the input's length and holds the function's value at each position |

## Left out

- Express setup, middleware, CORS, environment configuration, static file
  serving, the landing page route and the server start-up (index.js:2-11,
  20-22, 154-158). They are HTTP and I/O plumbing without logic of their own.
- The global error handler that answers 500 and logs the stack
  (index.js:148-151). It is I/O with no effect on the store.
- `new Date(...)` parsing and `toDateString()` formatting: the model takes
  their results as a `DateStamp` or `Instant`. The model does not derive a
  stamp's `when` from its `text`: callers supply both, with `when` the
  re-parsed value of `text`.
- Time zones: a stored `toDateString()` text parses as local midnight,
  while a date-only query bound such as `to=2023-01-31` parses as UTC
  midnight. On a server outside UTC one of the bounds can therefore drop
  exercises of the bound's own day. Same-day inclusivity as stated here
  holds for a server running in UTC; a bound with a time of day is simply
  another time value.
- The current date from `new Date()`: it is the parameter `now`.
- JavaScript coercion of junk: `parseInt` returning NaN for duration or
  limit, and non-string JSON values such as `0` or `false` for username,
  description or duration. Text fields are `Option<string>`, duration is
  `Option<int>` and counts as present whenever it is given, and limit is an
  integer.
- Concurrency: the handlers run one at a time, each to completion, so the
  model treats each call as one atomic step.
