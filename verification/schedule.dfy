/** Classification and schedule of a match: its effective division and game
    type, the status it reports, the midnight "no time set" convention, and the
    ascending date order of matches. */
module Schedule {
  import opened Domain
  import opened MatchState
  import opened Results

  /** The match's own division wins; only a null one falls back to the season's. */
  lemma EffectiveDivisionFallsBack(m: Match)
    ensures m.division.Some? ==> EffectiveDivision(m) == m.division
    ensures m.division.None? && m.home.Some? && m.home.value.season.Some? ==>
              EffectiveDivision(m) == m.home.value.season.value.division
    ensures m.division.None? && (m.home.None? || m.home.value.season.None?) ==> EffectiveDivision(m).None?
  {
  }

  /** `getGameType()`: "Unknown" without a division, "9" for the nine-ball
      divisions, "8" for the eight-ball ones and "N/A" for any other. */
  function GameType(m: Match): string {
    match EffectiveDivision(m)
    case None => "Unknown"
    case Some(d) =>
      if IsNineBallDivision(d) then "9"
      else if IsEightBallDivision(d) then "8"
      else "N/A"
  }

  /** The game type takes one of four values, and each value names one class of
      effective division. */
  lemma GameTypeClassifies(m: Match)
    ensures GameType(m) in {"9", "8", "Unknown", "N/A"}
    ensures GameType(m) == "Unknown" <==> EffectiveDivision(m).None?
    ensures GameType(m) == "9" <==> EffectiveDivision(m).Some? && IsNineBallDivision(EffectiveDivision(m).value)
    ensures GameType(m) == "8" <==> EffectiveDivision(m).Some? && IsEightBallDivision(EffectiveDivision(m).value)
  {
  }

  /** Because a new match's division is MIXED_EIGHT, it reads as eight-ball
      whatever its season's division is. */
  lemma NewMatchIsEightBall(home: Option<Team>, away: Option<Team>, date: Option<DateTime>)
    ensures GameType(NewMatch(home, away, date)) == "8"
  {
  }

  /** `getStatus()` at time `now`: PENDING when the match date has passed without
      a result, the stored status (possibly null) otherwise. */
  function DisplayStatus(m: Match, now: DateTime): Option<Status> {
    if m.matchDate.Some? && Before(m.matchDate.value, now) && !HasResults(m) then Some(Pending)
    else m.status
  }

  /** The status override: PENDING exactly in the overdue-without-result case,
      whatever is stored; in every other case the stored status unchanged. The
      reported status never differs from the stored one except by reading PENDING. */
  lemma StatusOverride(m: Match, now: DateTime)
    ensures m.matchDate.Some? && Before(m.matchDate.value, now) && !HasResults(m) ==> DisplayStatus(m, now) == Some(Pending)
    ensures !(m.matchDate.Some? && Before(m.matchDate.value, now) && !HasResults(m)) ==> DisplayStatus(m, now) == m.status
    ensures DisplayStatus(m, now) == m.status || DisplayStatus(m, now) == Some(Pending)
    ensures HasResults(m) ==> DisplayStatus(m, now) == m.status
  {
  }

  /** Once an unplayed match reads PENDING because its date has passed, it reads
      PENDING at every later time as well. */
  lemma OverduePendingPersists(m: Match, now: DateTime, later: DateTime)
    requires m.matchDate.Some? && Before(m.matchDate.value, now) && !HasResults(m)
    requires !Before(later, now)
    ensures DisplayStatus(m, later) == Some(Pending)
  {
  }

  /** `getDefaultMatchDate()` at time `now`: today at hour 7 without a date,
      hour 7 of the match day when the stored hour is the midnight sentinel, and
      the match date itself otherwise. */
  function DefaultMatchDate(m: Match, now: DateTime): DateTime {
    if m.matchDate.None? then WithHour(now, 7)
    else if m.matchDate.value.hour == 0 then WithHour(m.matchDate.value, 7)
    else m.matchDate.value
  }

  /** The default date always carries a time (never hour 0), differs from the
      match date at most in the hour, and changes it only when the hour is 0. */
  lemma DefaultMatchDateHasTime(m: Match, now: DateTime)
    ensures DefaultMatchDate(m, now).hour != 0
    ensures m.matchDate.None? ==>
      DefaultMatchDate(m, now).epochDay == now.epochDay && DefaultMatchDate(m, now).hour == 7
    ensures m.matchDate.Some? ==> WithHour(DefaultMatchDate(m, now), m.matchDate.value.hour) == m.matchDate.value
    ensures m.matchDate.Some? ==> (DefaultMatchDate(m, now) == m.matchDate.value <==> m.matchDate.value.hour != 0)
  {
  }

  /** `getTime()`: "19:00" when the stored hour is the midnight sentinel, and
      otherwise the time of day rendered by `formatTime`. */
  function TimeLabel(m: Match, formatTime: DateTime -> string): string
    requires m.matchDate.Some?
  {
    if m.matchDate.value.hour == 0 then "19:00" else formatTime(m.matchDate.value)
  }

  /** The display time falls back to "19:00" exactly when the default date moves
      the match to hour 7: both read hour 0 as "no time set". */
  lemma TimeLabelAgreesWithDefaultDate(m: Match, now: DateTime, formatTime: DateTime -> string)
    requires m.matchDate.Some?
    requires formatTime(m.matchDate.value) != "19:00"
    ensures TimeLabel(m, formatTime) == "19:00" <==> DefaultMatchDate(m, now) != m.matchDate.value
  {
  }

  /** `sortAcc()`: compares two matches by their dates. */
  function CompareByDate(m1: Match, m2: Match): int
    requires m1.matchDate.Some? && m2.matchDate.Some?
  {
    Compare(m1.matchDate.value, m2.matchDate.value)
  }

  /** The ascending comparator is a total preorder on matches: zero exactly for
      equal dates, antisymmetric in sign, and transitive. */
  lemma SortAccIsTotalPreorder(m1: Match, m2: Match, m3: Match)
    requires m1.matchDate.Some? && m2.matchDate.Some? && m3.matchDate.Some?
    ensures CompareByDate(m1, m2) == 0 <==> m1.matchDate == m2.matchDate
    ensures CompareByDate(m1, m2) == -CompareByDate(m2, m1)
    ensures CompareByDate(m1, m2) < 0 <==> Before(m1.matchDate.value, m2.matchDate.value)
    ensures CompareByDate(m1, m2) <= 0 && CompareByDate(m2, m3) <= 0 ==> CompareByDate(m1, m3) <= 0
  {
  }
}
