/** The experience service: a finished session's score is added to the user's
    three experience counters, and the scheduled resets zero the daily or the
    weekly counter of every user. */
module Experience {
  import opened Common

  /** The fields of a `users` row the service reads or writes, and one that it
      must leave alone. */
  datatype User = User(username: string, experience: int, dailyExperience: int, weeklyExperience: int)

  /** The error of `getOne` for an id that is not in the collection. */
  const UserNotFound: string := "The requested resource wasn't found."

  const DailyResetMessage: string := "Daily experience reset for all users"
  const WeeklyResetMessage: string := "Weekly experience reset for all users"

  /** A user after a session scoring `score`. */
  function Credit(u: User, score: int): (v: User)
    ensures v.username == u.username
    ensures v.experience - u.experience == score
    ensures v.dailyExperience - u.dailyExperience == score
    ensures v.weeklyExperience - u.weeklyExperience == score
    ensures v.experience - v.dailyExperience == u.experience - u.dailyExperience
    ensures v.experience - v.weeklyExperience == u.experience - u.weeklyExperience
  {
    u.(dailyExperience := u.dailyExperience + score,
       weeklyExperience := u.weeklyExperience + score,
       experience := u.experience + score)
  }

  /** Every user with the daily counter at zero. */
  function DailyReset(users: map<UserId, User>): (r: map<UserId, User>)
    ensures r.Keys == users.Keys
    ensures forall id :: id in r ==> r[id] == users[id].(dailyExperience := 0)
  {
    map id | id in users :: users[id].(dailyExperience := 0)
  }

  /** Every user with the weekly counter at zero. */
  function WeeklyReset(users: map<UserId, User>): (r: map<UserId, User>)
    ensures r.Keys == users.Keys
    ensures forall id :: id in r ==> r[id] == users[id].(weeklyExperience := 0)
  {
    map id | id in users :: users[id].(weeklyExperience := 0)
  }

  /** A reset run twice is the reset run once. */
  lemma ResetsAreIdempotent(users: map<UserId, User>)
    ensures DailyReset(DailyReset(users)) == DailyReset(users)
    ensures WeeklyReset(WeeklyReset(users)) == WeeklyReset(users)
  {
    assert DailyReset(DailyReset(users)).Keys == DailyReset(users).Keys;
    assert WeeklyReset(WeeklyReset(users)).Keys == WeeklyReset(users).Keys;
  }

  /** After the daily reset, a day's sessions leave exactly their total in the
      daily counter, while the other counters keep accumulating. */
  lemma CreditAfterDailyReset(u: User, score: int)
    ensures Credit(u.(dailyExperience := 0), score).dailyExperience == score
    ensures Credit(u.(dailyExperience := 0), score).experience == u.experience + score
    ensures Credit(u.(dailyExperience := 0), score).weeklyExperience == u.weeklyExperience + score
  {
  }

  class UserStore {
    /** The `users` collection, by id. */
    var users: map<UserId, User>

    constructor (initial: map<UserId, User>)
      ensures users == initial
    {
      users := initial;
    }

    /** `updateUserExperience`: refused without a signed-in user, failing when
        the user's row is missing; otherwise the row is credited with the
        score and no other row changes. */
    method UpdateUserExperience(auth: Option<UserId>, sessionScore: int) returns (r: Outcome<User>)
      modifies this
      ensures auth.None? ==> r == Failure(NotAuthenticated) && users == old(users)
      ensures auth.Some? && auth.value !in old(users) ==> r == Failure(UserNotFound) && users == old(users)
      ensures auth.Some? && auth.value in old(users) ==>
        && users == old(users)[auth.value := Credit(old(users)[auth.value], sessionScore)]
        && r == Success(users[auth.value])
    {
      if auth.None? {
        return Failure(NotAuthenticated);
      }
      var userId := auth.value;
      if userId !in users {
        return Failure(UserNotFound);
      }
      var user := users[userId];
      var updated := user.(dailyExperience := user.dailyExperience + sessionScore,
                           weeklyExperience := user.weeklyExperience + sessionScore,
                           experience := user.experience + sessionScore);
      users := users[userId := updated];
      r := Success(updated);
    }

    /** `resetDailyExperience`: one update per user, each zeroing that user's
        daily counter. */
    method ResetDailyExperience() returns (r: Outcome<string>)
      modifies this
      ensures users == DailyReset(old(users))
      ensures r == Success(DailyResetMessage)
    {
      var pending := users.Keys;
      while pending != {}
        invariant pending <= users.Keys && users.Keys == old(users).Keys
        invariant forall id :: id in users && id in pending ==> users[id] == old(users)[id]
        invariant forall id :: id in users && id !in pending ==> users[id] == old(users)[id].(dailyExperience := 0)
        decreases pending
      {
        var id :| id in pending;
        users := users[id := users[id].(dailyExperience := 0)];
        pending := pending - {id};
      }
      r := Success(DailyResetMessage);
    }

    /** `resetWeeklyExperience`: one update per user, each zeroing that user's
        weekly counter. */
    method ResetWeeklyExperience() returns (r: Outcome<string>)
      modifies this
      ensures users == WeeklyReset(old(users))
      ensures r == Success(WeeklyResetMessage)
    {
      var pending := users.Keys;
      while pending != {}
        invariant pending <= users.Keys && users.Keys == old(users).Keys
        invariant forall id :: id in users && id in pending ==> users[id] == old(users)[id]
        invariant forall id :: id in users && id !in pending ==> users[id] == old(users)[id].(weeklyExperience := 0)
        decreases pending
      {
        var id :| id in pending;
        users := users[id := users[id].(weeklyExperience := 0)];
        pending := pending - {id};
      }
      r := Success(WeeklyResetMessage);
    }
  }
}
