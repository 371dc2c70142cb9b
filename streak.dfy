/**
 * The login streak (`update_streak`), run on every login.
 *
 * Dates are day numbers, so "yesterday" is `today - 1`.  A login the day
 * after the previous one extends the streak by one, a second login on the
 * same day changes nothing, and any other login (the first one, or one
 * after a gap) restarts the streak at 1.  The login date is then set to
 * today.
 */
module Streak {
  import opened Wrappers

  /** The streak-related part of a profile: the last login day and the streak length. */
  datatype StreakState = StreakState(lastLogin: Option<int>, count: int)

  /** The state after a login on day `today`. */
  function Login(s: StreakState, today: int): (r: StreakState)
    ensures r.lastLogin == Some(today)
  {
    var count :=
      if s.lastLogin == Some(today - 1) then s.count + 1
      else if s.lastLogin == Some(today) then s.count
      else 1;
    StreakState(Some(today), count)
  }

  /** Logins on each of `days`, in order. */
  function Logins(s: StreakState, days: seq<int>): StreakState
  {
    if days == [] then s else Login(Logins(s, days[..|days| - 1]), days[|days| - 1])
  }

  /** The days `first`, `first + 1`, ..., `first + n - 1`. */
  function Days(first: int, n: nat): (r: seq<int>)
    ensures |r| == n
  {
    seq(n, i requires 0 <= i < n => first + i)
  }

  /** A profile that has logged in has a streak of at least one day. */
  predicate Valid(s: StreakState)
  {
    s.lastLogin.Some? ==> s.count >= 1
  }

  /**
   * The three cases: yesterday adds exactly one, today keeps the count,
   * anything else (no previous login, or an older or later day) restarts
   * at one.
   */
  lemma {:induction false} LoginCases(s: StreakState, today: int)
    ensures s.lastLogin == Some(today - 1) ==> Login(s, today).count == s.count + 1
    ensures s.lastLogin == Some(today) ==> Login(s, today).count == s.count
    ensures s.lastLogin != Some(today - 1) && s.lastLogin != Some(today) ==> Login(s, today).count == 1
  {
  }

  /** A second login on the same day leaves the state as the first one left it. */
  lemma {:induction false} SameDayIdempotent(s: StreakState, today: int)
    ensures Login(Login(s, today), today) == Login(s, today)
  {
  }

  /** Logging in keeps a valid state valid, and the streak grows by at most one. */
  lemma {:induction false} LoginKeepsValid(s: StreakState, today: int)
    requires Valid(s)
    ensures Valid(Login(s, today)) && Login(s, today).count >= 1
    ensures Login(s, today).count <= if s.count >= 0 then s.count + 1 else 1
  {
  }

  /** Logins on `n` consecutive days right after the last one extend the streak by `n`. */
  lemma {:induction false} ConsecutiveDays(s: StreakState, n: nat)
    requires s.lastLogin.Some?
    ensures Logins(s, Days(s.lastLogin.value + 1, n)).count == s.count + n
    ensures n > 0 ==> Logins(s, Days(s.lastLogin.value + 1, n)).lastLogin == Some(s.lastLogin.value + n)
  {
    if n > 0 {
      var d := s.lastLogin.value + 1;
      assert Days(d, n)[..n - 1] == Days(d, n - 1);
      ConsecutiveDays(s, n - 1);
      if n > 1 {
        assert Logins(s, Days(d, n - 1)).lastLogin == Some(d + n - 2);
      } else {
        assert Days(d, n - 1) == [];
      }
    }
  }

  /** Starting from no login, `n >= 1` logins on consecutive days give a streak of `n`. */
  lemma {:induction false} FirstStreak(first: int, n: nat)
    requires n >= 1
    ensures Logins(StreakState(None, 0), Days(first, n)).count == n
  {
    var s := Logins(StreakState(None, 0), Days(first, 1));
    assert Days(first, 1)[0] == first && Days(first, 1)[..0] == [];
    assert Logins(StreakState(None, 0), Days(first, 1)[..0]) == StreakState(None, 0);
    assert s == StreakState(Some(first), 1);
    ConsecutiveDays(s, n - 1);
    LoginsSplit(StreakState(None, 0), first, n);
  }

  /** Logging in on `first` and then on the next `n - 1` days is logging in on all `n` of them. */
  lemma {:induction false} LoginsSplit(s: StreakState, first: int, n: nat)
    requires n >= 1
    ensures Logins(s, Days(first, n)) == Logins(Logins(s, Days(first, 1)), Days(first + 1, n - 1))
  {
    if n > 1 {
      assert Days(first, n)[..n - 1] == Days(first, n - 1);
      assert Days(first + 1, n - 1)[..n - 2] == Days(first + 1, n - 2);
      LoginsSplit(s, first, n - 1);
    } else {
      assert Days(first + 1, 0) == [];
    }
  }

  /** A user's profile. */
  class Profile {
    var user: string
    var bio: string
    var lastLoginDate: Option<int>
    var streakCount: int

    constructor(user: string, bio: string, lastLoginDate: Option<int>, streakCount: int)
      ensures this.user == user && this.bio == bio
      ensures this.lastLoginDate == lastLoginDate && this.streakCount == streakCount
    {
      this.user := user;
      this.bio := bio;
      this.lastLoginDate := lastLoginDate;
      this.streakCount := streakCount;
    }

    function State(): StreakState
      reads this
    {
      StreakState(lastLoginDate, streakCount)
    }

    /**
     * `update_streak`: only the streak and the login date are written.  A
     * profile that has logged in keeps a streak of at least one day.
     */
    method UpdateStreak(today: int)
      modifies this`streakCount, this`lastLoginDate
      ensures State() == Login(old(State()), today)
      ensures lastLoginDate == Some(today)
      ensures old(lastLoginDate) == Some(today - 1) ==> streakCount == old(streakCount) + 1
      ensures old(lastLoginDate) == Some(today) ==> streakCount == old(streakCount)
      ensures old(lastLoginDate) != Some(today - 1) && old(lastLoginDate) != Some(today) ==> streakCount == 1
      ensures Valid(old(State())) ==> Valid(State()) && 1 <= streakCount
    {
      var yesterday := today - 1;
      if lastLoginDate == Some(yesterday) {
        streakCount := streakCount + 1;
      } else if lastLoginDate == Some(today) {
      } else {
        streakCount := 1;
      }
      lastLoginDate := Some(today);
    }
  }
}
