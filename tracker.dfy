/** The in-memory database of index.js (lines 14-17) and the four API
    handlers that act on it, as a class whose fields are the two record
    lists and the two id counters. */
module Tracker {
  import opened Collections
  import opened Decimal
  import opened Records

  class Store {
    var users: seq<User>
    var exercises: seq<Exercise>
    var nextUserId: nat
    var nextExerciseId: nat

    /** Each list holds the records its counter numbered, in order, and
        every exercise names a registered user. */
    ghost predicate Valid()
      reads this
      ensures Valid() ==> forall i, j :: 0 <= i < j < |users| ==> users[i].id != users[j].id
      ensures Valid() ==> forall i, j :: 0 <= i < j < |exercises| ==> exercises[i].id != exercises[j].id
    {
      && Numbered(UserIds(users), nextUserId)
      && Numbered(ExerciseIds(exercises), nextExerciseId)
      && (forall i :: 0 <= i < |exercises| ==> FindUser(users, exercises[i].userId).Some?)
      && (NumberedDistinct(UserIds(users), nextUserId);
          NumberedDistinct(ExerciseIds(exercises), nextExerciseId);
          true)
    }

    constructor ()
      ensures Valid()
      ensures users == [] && exercises == []
      ensures nextUserId == 1 && nextExerciseId == 1
    {
      users := [];
      exercises := [];
      nextUserId := 1;
      nextExerciseId := 1;
    }

    /** `POST /api/users`. */
    method CreateUser(username: Option<string>) returns (r: Response<User>)
      requires Valid()
      modifies this
      ensures Valid()
      ensures exercises == old(exercises) && nextExerciseId == old(nextExerciseId)
      ensures !Present(username) ==>
        r == BadRequest(UsernameRequired) && users == old(users) && nextUserId == old(nextUserId)
      ensures Present(username) ==>
        r == Ok(User(username.value, DecimalString(old(nextUserId)))) &&
        users == old(users) + [r.value] && nextUserId == old(nextUserId) + 1
      ensures Present(username) ==> r.value.id !in old(UserIds(users))
    {
      if !Present(username) {
        return BadRequest(UsernameRequired);
      }
      var user := User(username.value, DecimalString(nextUserId));
      NumberedFresh(UserIds(users), nextUserId);
      NumberedExtend(UserIds(users), nextUserId);
      assert UserIds(users + [user]) == UserIds(users) + [user.id];
      forall i | 0 <= i < |exercises|
        ensures FindUser(users + [user], exercises[i].userId).Some?
      {
        FindUserAppend(users, user, exercises[i].userId);
      }
      users := users + [user];
      nextUserId := nextUserId + 1;
      r := Ok(user);
    }

    /** `GET /api/users`. */
    method ListUsers() returns (r: seq<User>)
      requires Valid()
      ensures r == users
      ensures forall i, j :: 0 <= i < j < |r| ==> r[i].id != r[j].id
      ensures forall i :: 0 <= i < |r| ==> FindUser(users, r[i].id) == Some(r[i])
    {
      forall i | 0 <= i < |users|
        ensures FindUser(users, users[i].id) == Some(users[i])
      {
        FindUserUnique(users, i);
      }
      r := users;
    }

    /** `POST /api/users/:_id/exercises`. `date` is the parsed and formatted
        request date, `None` when absent or empty, in which case `now` is
        used. */
    method AddExercise(id: string, description: Option<string>, duration: Option<int>,
                       date: Option<DateStamp>, now: DateStamp)
      returns (r: Response<ExerciseReply>)
      requires Valid()
      modifies this
      ensures Valid()
      ensures users == old(users) && nextUserId == old(nextUserId)
      ensures FindUser(users, id).None? ==>
        r == NotFound(UserNotFound) && exercises == old(exercises) && nextExerciseId == old(nextExerciseId)
      ensures FindUser(users, id).Some? && (!Present(description) || duration.None?) ==>
        r == BadRequest(FieldsRequired) && exercises == old(exercises) && nextExerciseId == old(nextExerciseId)
      ensures FindUser(users, id).Some? && Present(description) && duration.Some? ==>
        var stamp := if date.Some? then date.value else now;
        var e := Exercise(DecimalString(old(nextExerciseId)), id, description.value, duration.value, stamp);
        exercises == old(exercises) + [e] && nextExerciseId == old(nextExerciseId) + 1 &&
        r == Ok(ExerciseReply(id, FindUser(users, id).value.username, e.description, e.duration, stamp.text))
      ensures r.Ok? ==> old(FindUser(users, id)).Some? && exercises[|exercises| - 1].id !in old(ExerciseIds(exercises))
    {
      var user := FindUser(users, id);
      if user.None? {
        return NotFound(UserNotFound);
      }
      if !Present(description) || duration.None? {
        return BadRequest(FieldsRequired);
      }
      var stamp := if date.Some? then date.value else now;
      var e := Exercise(DecimalString(nextExerciseId), id, description.value, duration.value, stamp);
      NumberedFresh(ExerciseIds(exercises), nextExerciseId);
      NumberedExtend(ExerciseIds(exercises), nextExerciseId);
      assert ExerciseIds(exercises + [e]) == ExerciseIds(exercises) + [e.id];
      exercises := exercises + [e];
      nextExerciseId := nextExerciseId + 1;
      r := Ok(ExerciseReply(user.value.id, user.value.username, e.description, e.duration, e.date.text));
    }

    /** `GET /api/users/:_id/logs`: reads the store and changes nothing. */
    method GetLog(id: string, q: LogQuery) returns (r: Response<LogReport>)
      requires Valid()
      ensures r == Log(users, exercises, id, q)
    {
      r := Log(users, exercises, id, q);
    }
  }

  /** A successful exercise creation followed by an unbounded log request
      for the same user: the reply's description, duration and date come
      back unchanged as the last log entry. */
  method AddThenLog(s: Store, id: string, description: Option<string>, duration: Option<int>,
                    date: Option<DateStamp>, now: DateStamp)
    returns (added: Response<ExerciseReply>, report: Response<LogReport>)
    requires s.Valid()
    modifies s
    ensures s.Valid()
    ensures added.Ok? ==>
      report.Ok? && report.value.count == |report.value.log| >= 1 &&
      report.value.log[|report.value.log| - 1] ==
        LogEntry(added.value.description, added.value.duration, added.value.date)
  {
    ghost var before := s.exercises;
    added := s.AddExercise(id, description, duration, date, now);
    if added.Ok? {
      LogAfterAppend(s.users, before, s.exercises[|s.exercises| - 1]);
    }
    report := s.GetLog(id, LogQuery(None, None, None));
  }
}
