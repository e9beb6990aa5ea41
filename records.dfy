/** The records the exercise tracker keeps and returns, the user lookup,
    and the exercise-log pipeline of `GET /api/users/:_id/logs`
    (index.js:98-145) as a pure function of the stored sequences. */
module Records {
  import opened Collections
  import opened Decimal

  /** A registered user: `{username, _id}` with `_id` the decimal text of
      the user counter at creation. */
  datatype User = User(username: string, id: string)

  /** A point in time as JavaScript's `Date` compares it: the ordered
      time value `new Date` yields, or the invalid date, whose value is NaN
      and so is neither before nor after anything. */
  datatype Instant = At(time: int) | InvalidDate

  /** A date as stored on an exercise: the text `toDateString()`
      produced, carried unchanged, and `when`, the instant `new Date(text)`
      yields when the log re-parses that text, i.e. the start of the stored
      day. The request date and the current date are passed in already
      truncated to that day. */
  datatype DateStamp = DateStamp(when: Instant, text: string)

  datatype Exercise = Exercise(
    id: string,
    userId: string,
    description: string,
    duration: int,
    date: DateStamp)

  /** The body of a successful exercise creation: the user's fields merged
      with the new exercise's. */
  datatype ExerciseReply = ExerciseReply(
    id: string,
    username: string,
    description: string,
    duration: int,
    date: string)

  datatype LogEntry = LogEntry(description: string, duration: int, date: string)

  datatype LogReport = LogReport(id: string, username: string, count: nat, log: seq<LogEntry>)

  /** The query of a log request. `None` is a parameter that is absent or
      empty; `Some(InvalidDate)` is one `new Date` could not parse;
      `limit` holds what `parseInt` made of the parameter. */
  datatype LogQuery = LogQuery(from: Option<Instant>, to: Option<Instant>, limit: Option<int>)

  /** What a handler answers: a 200 body, a 400 or a 404 with its message. */
  datatype Response<+T> = Ok(value: T) | BadRequest(message: string) | NotFound(message: string)

  const UsernameRequired := "Username is required"
  const UserNotFound := "User not found"
  const FieldsRequired := "Description and duration are required"

  /** JavaScript truthiness of a text field: present and not empty. */
  predicate Present(field: Option<string>) {
    field.Some? && field.value != ""
  }

  // ----- identifiers -------------------------------------------------------

  function UserIds(users: seq<User>): (ids: seq<string>)
    ensures |ids| == |users|
  {
    Map(users, (u: User) => u.id)
  }

  function ExerciseIds(exercises: seq<Exercise>): (ids: seq<string>)
    ensures |ids| == |exercises|
  {
    Map(exercises, (e: Exercise) => e.id)
  }

  /** The ids a counter starting at 1 hands out, one per record, in order,
      with `next` the value it will hand out next. */
  ghost predicate Numbered(ids: seq<string>, next: nat) {
    next == |ids| + 1 &&
    forall i :: 0 <= i < |ids| ==> ids[i] == DecimalString(i + 1)
  }

  /** Ids handed out by the counter are pairwise distinct. */
  lemma NumberedDistinct(ids: seq<string>, next: nat)
    requires Numbered(ids, next)
    ensures forall i, j :: 0 <= i < j < |ids| ==> ids[i] != ids[j]
  {
    forall i, j | 0 <= i < j < |ids|
      ensures ids[i] != ids[j]
    {
      if ids[i] == ids[j] {
        DecimalStringInjective(i + 1, j + 1);
      }
    }
  }

  /** The id the counter hands out next has not been handed out before. */
  lemma NumberedFresh(ids: seq<string>, next: nat)
    requires Numbered(ids, next)
    ensures DecimalString(next) !in ids
  {
    if DecimalString(next) in ids {
      var i :| 0 <= i < |ids| && ids[i] == DecimalString(next);
      DecimalStringInjective(i + 1, next);
    }
  }

  /** Handing out the next id keeps the numbering. */
  lemma NumberedExtend(ids: seq<string>, next: nat)
    requires Numbered(ids, next)
    ensures Numbered(ids + [DecimalString(next)], next + 1)
  {
  }

  // ----- user lookup -------------------------------------------------------

  /** Position of the first user with the given id, or `|users|`. */
  function UserIndex(users: seq<User>, id: string): (k: nat)
    ensures k <= |users|
    ensures k < |users| ==> users[k].id == id
    ensures forall j :: 0 <= j < k ==> users[j].id != id
  {
    if users == [] then 0
    else if users[0].id == id then 0
    else 1 + UserIndex(users[1..], id)
  }

  /** `users.find(u => u._id === id)`. */
  function FindUser(users: seq<User>, id: string): (r: Option<User>)
    ensures r.None? <==> forall j :: 0 <= j < |users| ==> users[j].id != id
    ensures r.Some? ==> r.value in users && r.value.id == id
  {
    var k := UserIndex(users, id);
    if k < |users| then Some(users[k]) else None
  }

  /** With distinct ids, looking up a user's id finds that very user. */
  lemma FindUserUnique(users: seq<User>, i: nat)
    requires i < |users|
    requires forall a, b :: 0 <= a < b < |users| ==> users[a].id != users[b].id
    ensures FindUser(users, users[i].id) == Some(users[i])
  {
  }

  /** Registering another user does not change the answer for an id that
      was already registered. */
  lemma FindUserAppend(users: seq<User>, u: User, id: string)
    requires FindUser(users, id).Some?
    ensures FindUser(users + [u], id) == FindUser(users, id)
  {
    var k := UserIndex(users, id);
    var k' := UserIndex(users + [u], id);
    assert (users + [u])[k] == users[k];
  }

  // ----- the exercise log --------------------------------------------------

  /** `exerciseDate < fromDate` or `exerciseDate > toDate` excludes an
      exercise; a comparison involving an invalid date is false. */
  predicate Within(d: Instant, from: Option<Instant>, to: Option<Instant>): (b: bool)
    ensures d == InvalidDate ==> b
    ensures d.At? ==>
      (b <==> (from.None? || from.value.InvalidDate? || from.value.time <= d.time) &&
              (to.None? || to.value.InvalidDate? || d.time <= to.value.time))
    ensures (from == None || from == Some(InvalidDate)) && (to == None || to == Some(InvalidDate)) ==> b
  {
    !(from.Some? && from.value.At? && d.At? && d.time < from.value.time) &&
    !(to.Some? && to.value.At? && d.At? && d.time > to.value.time)
  }

  /** `ex => ex.userId === id`. */
  function OwnedBy(id: string): Exercise -> bool {
    (e: Exercise) => e.userId == id
  }

  /** The callback of the date filter. */
  function Dated(from: Option<Instant>, to: Option<Instant>): Exercise -> bool {
    (e: Exercise) => Within(e.date.when, from, to)
  }

  /** `exercises.filter(ex => ex.userId === id)`. */
  function UserExercises(exercises: seq<Exercise>, id: string): (r: seq<Exercise>)
    ensures |r| <= |exercises|
    ensures forall i :: 0 <= i < |r| ==> r[i] in exercises && r[i].userId == id
    ensures forall i :: 0 <= i < |exercises| && exercises[i].userId == id ==> exercises[i] in r
  {
    Filter(exercises, OwnedBy(id))
  }

  /** The date filter, applied only when `from` or `to` is given. */
  function InRange(xs: seq<Exercise>, from: Option<Instant>, to: Option<Instant>): (r: seq<Exercise>)
    ensures |r| <= |xs|
    ensures forall i :: 0 <= i < |r| ==> r[i] in xs && Within(r[i].date.when, from, to)
    ensures forall i :: 0 <= i < |xs| && Within(xs[i].date.when, from, to) ==> xs[i] in r
    ensures from.None? && to.None? ==> r == xs
  {
    if from.Some? || to.Some? then Filter(xs, Dated(from, to)) else xs
  }

  /** The truncation, applied only when `limit` is given. */
  function Limited(xs: seq<Exercise>, limit: Option<int>): (r: seq<Exercise>)
    ensures r <= xs
    ensures limit.None? ==> r == xs
    ensures limit.Some? && limit.value >= 0 ==> |r| == if limit.value <= |xs| then limit.value else |xs|
    ensures limit.Some? && limit.value < 0 ==> |r| == if |xs| + limit.value >= 0 then |xs| + limit.value else 0
  {
    if limit.Some? then Slice(xs, limit.value) else xs
  }

  /** The `{description, duration, date}` object of a log entry. */
  function Entry(e: Exercise): LogEntry {
    LogEntry(e.description, e.duration, e.date.text)
  }

  function Entries(xs: seq<Exercise>): (r: seq<LogEntry>)
    ensures |r| == |xs|
    ensures forall i :: 0 <= i < |xs| ==>
      r[i].description == xs[i].description && r[i].duration == xs[i].duration && r[i].date == xs[i].date.text
  {
    Map(xs, Entry)
  }

  /** The log request: 404 for an unknown id, otherwise the user's
      exercises, date-filtered, truncated and formatted, with their count. */
  function Log(users: seq<User>, exercises: seq<Exercise>, id: string, q: LogQuery): (r: Response<LogReport>)
    ensures !r.BadRequest?
    ensures r.NotFound? <==> forall j :: 0 <= j < |users| ==> users[j].id != id
    ensures r.NotFound? ==> r.message == UserNotFound
    ensures r.Ok? ==> r.value.id == id && FindUser(users, id) == Some(User(r.value.username, id))
    ensures r.Ok? ==> r.value.count == |r.value.log|
    ensures r.Ok? ==> |r.value.log| <= |exercises|
  {
    match FindUser(users, id)
    case None => NotFound(UserNotFound)
    case Some(u) =>
      var log := Entries(Limited(InRange(UserExercises(exercises, id), q.from, q.to), q.limit));
      Ok(LogReport(u.id, u.username, |log|, log))
  }

  /** `entry` is the formatting of a stored exercise of user `id` whose
      date lies within the bounds of `q`. */
  ghost predicate Recorded(entry: LogEntry, exercises: seq<Exercise>, id: string, q: LogQuery) {
    exists e :: e in exercises && e.userId == id && Within(e.date.when, q.from, q.to) && entry == Entry(e)
  }

  /** Every log entry is the formatting of a stored exercise of the
      requested user whose date lies within the requested bounds. */
  lemma LogEntriesBelong(users: seq<User>, exercises: seq<Exercise>, id: string, q: LogQuery)
    requires Log(users, exercises, id, q).Ok?
    ensures forall k :: 0 <= k < |Log(users, exercises, id, q).value.log| ==>
      Recorded(Log(users, exercises, id, q).value.log[k], exercises, id, q)
  {
    var mine := UserExercises(exercises, id);
    var ranged := InRange(mine, q.from, q.to);
    var limited := Limited(ranged, q.limit);
    var log := Log(users, exercises, id, q).value.log;
    assert log == Entries(limited);
    forall k | 0 <= k < |log|
      ensures Recorded(log[k], exercises, id, q)
    {
      var e := limited[k];
      assert e == ranged[k];
      var i :| 0 <= i < |mine| && mine[i] == e;
      assert e in exercises && e.userId == id && Within(e.date.when, q.from, q.to) && log[k] == Entry(e);
    }
  }

  /** The date filter keeps exactly the exercises within the bounds, each
      bound inclusive; with no bound it keeps everything. */
  lemma InRangeKeepsExactly(xs: seq<Exercise>, from: Option<Instant>, to: Option<Instant>, e: Exercise)
    requires e in xs
    ensures e in InRange(xs, from, to) <==> Within(e.date.when, from, to)
  {
  }

  /** A bound `new Date` could not parse excludes nothing: with only
      such bounds the date filter keeps every exercise. */
  lemma InvalidBoundsIgnored(xs: seq<Exercise>, from: Option<Instant>, to: Option<Instant>)
    requires from == None || from == Some(InvalidDate)
    requires to == None || to == Some(InvalidDate)
    ensures InRange(xs, from, to) == xs
  {
    if from.Some? || to.Some? {
      FilterKeepsAll(xs, Dated(from, to));
    }
  }

  /** Both bounds are inclusive, for valid dates. */
  lemma WithinInclusive(d: int, from: int, to: int)
    ensures Within(At(d), Some(At(from)), Some(At(to))) <==> from <= d <= to
  {
  }

  /** Without bounds and without a limit, the log is every exercise of the
      user, in the order they were stored. */
  lemma LogUnbounded(users: seq<User>, exercises: seq<Exercise>, id: string)
    requires FindUser(users, id).Some?
    ensures Log(users, exercises, id, LogQuery(None, None, None)) ==
      Ok(LogReport(id, FindUser(users, id).value.username,
                   |UserExercises(exercises, id)|, Entries(UserExercises(exercises, id))))
  {
  }

  /** A non-negative limit `n` keeps the first `min(n, m)` of the `m`
      date-filtered exercises. */
  lemma LogLimit(users: seq<User>, exercises: seq<Exercise>, id: string, from: Option<Instant>, to: Option<Instant>, n: nat)
    requires FindUser(users, id).Some?
    ensures var ranged := InRange(UserExercises(exercises, id), from, to);
      var m := if n <= |ranged| then n else |ranged|;
      var r := Log(users, exercises, id, LogQuery(from, to, Some(n)));
      r.Ok? && r.value.count == m && r.value.log == Entries(ranged)[..m]
  {
  }

  /** A new exercise shows up at the end of its user's unbounded log, with
      the description, duration and date text it was stored with; the
      entries before it are unchanged. */
  lemma LogAfterAppend(users: seq<User>, exercises: seq<Exercise>, e: Exercise)
    requires FindUser(users, e.userId).Some?
    ensures var before := Log(users, exercises, e.userId, LogQuery(None, None, None));
      var after := Log(users, exercises + [e], e.userId, LogQuery(None, None, None));
      before.Ok? && after.Ok? &&
      after.value.log == before.value.log + [LogEntry(e.description, e.duration, e.date.text)] &&
      after.value.count == before.value.count + 1
  {
    FilterAppend(exercises, [e], OwnedBy(e.userId));
    var mine := UserExercises(exercises, e.userId);
    assert UserExercises(exercises + [e], e.userId) == mine + [e];
    assert Entries(mine + [e]) == Entries(mine) + [Entry(e)];
  }

  /** Storing an exercise of one user leaves every other user's log, under
      any query, exactly as it was. */
  lemma LogAppendOther(users: seq<User>, exercises: seq<Exercise>, e: Exercise, id: string, q: LogQuery)
    requires id != e.userId
    ensures Log(users, exercises + [e], id, q) == Log(users, exercises, id, q)
  {
    FilterAppend(exercises, [e], OwnedBy(id));
    assert UserExercises(exercises + [e], id) == UserExercises(exercises, id);
  }

  /** Three exercises of one user dated 2023-01-01, 2023-01-15 and
      2023-02-01 (as days 0, 14 and 31): the range 2023-01-01 to 2023-01-31
      gives the first two, and a limit of 1 gives the earliest created. */
  lemma LogExample()
    ensures var users := [User("A", "1")];
      var d := [DateStamp(At(0), "Sun Jan 01 2023"), DateStamp(At(14), "Sun Jan 15 2023"),
                DateStamp(At(31), "Wed Feb 01 2023")];
      var exercises := [Exercise("1", "1", "run", 30, d[0]), Exercise("2", "1", "swim", 20, d[1]),
                        Exercise("3", "1", "row", 10, d[2])];
      Log(users, exercises, "1", LogQuery(Some(At(0)), Some(At(30)), None)) ==
        Ok(LogReport("1", "A", 2, [LogEntry("run", 30, d[0].text), LogEntry("swim", 20, d[1].text)])) &&
      Log(users, exercises, "1", LogQuery(None, None, Some(1))) ==
        Ok(LogReport("1", "A", 1, [LogEntry("run", 30, d[0].text)]))
  {
    var d := [DateStamp(At(0), "Sun Jan 01 2023"), DateStamp(At(14), "Sun Jan 15 2023"),
              DateStamp(At(31), "Wed Feb 01 2023")];
    var e1, e2, e3 := Exercise("1", "1", "run", 30, d[0]), Exercise("2", "1", "swim", 20, d[1]),
                      Exercise("3", "1", "row", 10, d[2]);
    var exercises := [e1, e2, e3];
    FilterKeepsAll(exercises, OwnedBy("1"));
    FilterAppend([e1, e2], [e3], Dated(Some(At(0)), Some(At(30))));
    FilterKeepsAll([e1, e2], Dated(Some(At(0)), Some(At(30))));
    assert [e1, e2] + [e3] == exercises;
    assert InRange(exercises, Some(At(0)), Some(At(30))) == [e1, e2];
    assert Entries([e1, e2]) == [Entry(e1), Entry(e2)];
    assert Slice(exercises, 1) == [e1];
    assert Entries([e1]) == [Entry(e1)];
  }
}
