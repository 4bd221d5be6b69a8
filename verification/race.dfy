/** The race a match is played to, and the two challenge users of a challenge
    match. The handicap lookup and the race table are external functions and
    enter as parameters. */
module Race {
  import opened Domain
  import opened MatchState

  /** `getRace()`: in challenge mode, the race of the two challenge users'
      handicaps in the match's season, or "" when either user is missing; outside
      challenge mode, the manual override when it is non-empty, else "". */
  function RaceOf(m: Match, handicapOf: (User, Option<Season>) -> Handicap, race: (Handicap, Handicap) -> string): string {
    if IsChallenge(m) then
      if m.home.None? || m.home.value.challengeUser.None? then ""
      else if m.away.None? || m.away.value.challengeUser.None? then ""
      else
        var h := handicapOf(m.home.value.challengeUser.value, EffectiveSeason(m));
        var a := handicapOf(m.away.value.challengeUser.value, EffectiveSeason(m));
        race(h, a)
    else if m.race.Some? && m.race.value != "" then m.race.value
    else ""
  }

  /** `getChallenger()`: the home challenge user in challenge mode, else null. */
  function Challenger(m: Match): Option<User> {
    if IsChallenge(m) then m.home.value.challengeUser else None
  }

  /** `getOpponent()`: the away challenge user in challenge mode, else null. */
  function Opponent(m: Match): Option<User>
    requires IsChallenge(m) ==> m.away.Some?
  {
    if IsChallenge(m) then m.away.value.challengeUser else None
  }

  /** The three-way precedence: in challenge mode the race comes from the
      challenger's and the opponent's handicaps (or is "" when either of them, or
      the away team, is missing)
      and the override is ignored; outside challenge mode it is the override
      (null reads as "") and the handicaps are ignored. */
  lemma RacePrecedence(m: Match, handicapOf: (User, Option<Season>) -> Handicap, race: (Handicap, Handicap) -> string,
                       override: Option<string>, handicapOf': (User, Option<Season>) -> Handicap,
                       race': (Handicap, Handicap) -> string)
    ensures IsChallenge(m) && m.away.Some? && Challenger(m).Some? && Opponent(m).Some? ==>
      RaceOf(m, handicapOf, race) ==
        race(handicapOf(Challenger(m).value, EffectiveSeason(m)), handicapOf(Opponent(m).value, EffectiveSeason(m)))
    ensures IsChallenge(m) && (Challenger(m).None? || m.away.None? || Opponent(m).None?) ==> RaceOf(m, handicapOf, race) == ""
    ensures IsChallenge(m) && m.away.None? ==> RaceOf(m, handicapOf, race) == ""
    ensures IsChallenge(m) ==> RaceOf(m.(race := override), handicapOf, race) == RaceOf(m, handicapOf, race)
    ensures !IsChallenge(m) ==> RaceOf(m, handicapOf, race) == (if m.race.Some? then m.race.value else "")
    ensures !IsChallenge(m) ==> RaceOf(m, handicapOf, race) == RaceOf(m, handicapOf', race')
  {
  }

  /** Outside challenge mode, an override of "7" is the race. */
  lemma OverrideIsTheRace(m: Match, handicapOf: (User, Option<Season>) -> Handicap, race: (Handicap, Handicap) -> string)
    requires !IsChallenge(m)
    ensures RaceOf(m.(race := Some("7")), handicapOf, race) == "7"
  {
  }

  /** Outside challenge mode there is neither a challenger nor an opponent. */
  lemma NoChallengeUsersOutsideChallenge(m: Match)
    requires !IsChallenge(m)
    ensures Challenger(m).None? && Opponent(m).None?
  {
  }
}
