/** The values a league match reads but does not own: users, seasons, teams,
    divisions, statuses, handicaps and date-times, together with Java's nullable
    references (`Option`) and 32-bit `Integer` arithmetic. */
module Domain {

  /** A Java reference that may be null. */
  datatype Option<+T> = None | Some(value: T)

  /** Java's `int`: the range of a boxed `Integer` score counter. */
  newtype Int32 = x: int | -0x8000_0000 <= x < 0x8000_0000

  const MinInt32: int := -0x8000_0000
  const MaxInt32: int := 0x7fff_ffff

  /** Java `int` addition: the exact sum when it fits, and otherwise the one
      32-bit value congruent to it modulo 2^32 (two's-complement wrap-around). */
  function Add32(a: Int32, b: Int32): (r: Int32)
    ensures MinInt32 <= a as int + b as int <= MaxInt32 ==> r as int == a as int + b as int
    ensures (r as int - (a as int + b as int)) % 0x1_0000_0000 == 0
  {
    var s := a as int + b as int;
    if s > MaxInt32 then (s - 0x1_0000_0000) as Int32
    else if s < MinInt32 then (s + 0x1_0000_0000) as Int32
    else s as Int32
  }

  /** The league's divisions. The seven named constants are the ones the match
      classifies; `OtherDivision` stands for any further constant of the enum. */
  datatype Division =
    | NineBallChallenge
    | NineBallTuesdays
    | MixedNine
    | MixedEight
    | MixedMondaysMixed
    | EightBallThursdays
    | EightBallWednesdays
    | OtherDivision(name: string)

  predicate IsNineBallDivision(d: Division) {
    d == NineBallChallenge || d == NineBallTuesdays || d == MixedNine
  }

  predicate IsEightBallDivision(d: Division) {
    d == MixedEight || d == MixedMondaysMixed || d == EightBallThursdays || d == EightBallWednesdays
  }

  /** A match status; only PENDING is singled out by the match logic. */
  datatype Status = Pending | OtherStatus(name: string)

  /** A user; two users are equal when their ids are. */
  datatype User = User(id: string)

  /** A season: its division (nullable) and whether it is played in challenge mode. */
  datatype Season = Season(id: string, division: Option<Division>, challenge: bool)

  /** A team: its season, its member roster in order and its optional challenge user. */
  datatype Team = Team(id: string, season: Option<Season>, members: seq<User>, challengeUser: Option<User>)

  /** `a.equals(b)` on a non-null team `a`: false for null, otherwise id equality. */
  predicate TeamEquals(a: Team, b: Option<Team>) {
    b.Some? && b.value.id == a.id
  }

  /** A user's handicap within a season; its meaning belongs to the race function. */
  datatype Handicap = Handicap(grade: string)

  /** A local date-time: the day, the hour of the day and the rest of the time of
      day (minutes, seconds and nanoseconds) as nanoseconds into the hour. */
  datatype DateTime = DateTime(epochDay: int, hour: nat, nanoOfHour: nat)

  /** `a.isBefore(b)`: chronological order, day first, then hour, then the rest. */
  predicate Before(a: DateTime, b: DateTime) {
    a.epochDay < b.epochDay
    || (a.epochDay == b.epochDay && a.hour < b.hour)
    || (a.epochDay == b.epochDay && a.hour == b.hour && a.nanoOfHour < b.nanoOfHour)
  }

  /** `withHour(h)`: the same day and minutes, at hour `h`. */
  function WithHour(d: DateTime, h: nat): (r: DateTime)
    ensures r.hour == h && r.epochDay == d.epochDay && r.nanoOfHour == d.nanoOfHour
  {
    d.(hour := h)
  }

  /** The sign of `a.compareTo(b)`: negative, zero or positive as `a` is earlier
      than, equal to or later than `b`. */
  function Compare(a: DateTime, b: DateTime): (r: int)
    ensures -1 <= r <= 1
    ensures r == 0 <==> a == b
    ensures r < 0 <==> Before(a, b)
    ensures r > 0 <==> Before(b, a)
  {
    if a.epochDay != b.epochDay then (if a.epochDay < b.epochDay then -1 else 1)
    else if a.hour != b.hour then (if a.hour < b.hour then -1 else 1)
    else if a.nanoOfHour != b.nanoOfHour then (if a.nanoOfHour < b.nanoOfHour then -1 else 1)
    else 0
  }
}
