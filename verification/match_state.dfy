/** The state of one league match between a home and an away team, as a value.
    Every derived query of the match is a function of this value. */
module MatchState {
  import opened Domain

  /** The fields of a match that its rules read. Nullable Java fields are `Option`. */
  datatype Match = Match(
    home: Option<Team>,
    away: Option<Team>,
    matchDate: Option<DateTime>,
    division: Option<Division>,
    homeRacks: Int32,
    awayRacks: Int32,
    setHomeWins: Int32,
    setAwayWins: Int32,
    homeForfeits: Int32,
    awayForfeits: Int32,
    status: Option<Status>,
    homeNotAvailable: set<string>,
    awayNotAvailable: set<string>,
    race: Option<string>,
    referenceUser: Option<User>)

  /** A match as the entity's constructors leave it: division MIXED_EIGHT, every
      counter 0, no status, no unavailable members and an empty race override. */
  function NewMatch(home: Option<Team>, away: Option<Team>, matchDate: Option<DateTime>): Match {
    Match(home, away, matchDate, Some(MixedEight), 0, 0, 0, 0, 0, 0, None, {}, {}, Some(""), None)
  }

  /** `getSeason()`: the home team's season, or null without a home team. */
  function EffectiveSeason(m: Match): Option<Season> {
    if m.home.Some? then m.home.value.season else None
  }

  /** `getDivision()`: the match's own division, falling back to the season's
      division only when the match's is null. */
  function EffectiveDivision(m: Match): Option<Division> {
    if m.division.None? && EffectiveSeason(m).Some? then EffectiveSeason(m).value.division
    else m.division
  }

  /** `isChallenge()`: the season exists and is played in challenge mode. */
  predicate IsChallenge(m: Match) {
    EffectiveSeason(m).Some? && EffectiveSeason(m).value.challenge
  }

  /** The state after `addHomeNotAvailable(id)`. */
  function WithHomeUnavailable(m: Match, id: string): Match {
    m.(homeNotAvailable := m.homeNotAvailable + {id})
  }

  /** The state after `removeHomeNotAvailable(id)`. */
  function WithHomeAvailable(m: Match, id: string): Match {
    m.(homeNotAvailable := m.homeNotAvailable - {id})
  }

  /** The state after `addAwayNotAvailable(id)`. */
  function WithAwayUnavailable(m: Match, id: string): Match {
    m.(awayNotAvailable := m.awayNotAvailable + {id})
  }

  /** The state after `removeAwayNotAvailable(id)`. */
  function WithAwayAvailable(m: Match, id: string): Match {
    m.(awayNotAvailable := m.awayNotAvailable - {id})
  }
}
