# League match result engine, in Dafny

This project models `TeamMatch`, the entity of a pool league application that
stands for one scheduled match between a home and an away team. Under its
persistence plumbing the entity holds a small rule engine:

- **Results** (`Results`): whether a match has a result (`isHasResults`), whether it
  was a forfeit, who won (`isWinner`, `getWinner`, `getLoser`) — with the set-wins
  tiebreak of the NINE_BALL_TUESDAYS division taken from the team's *own* season —
  the per-team rack and set getters, the winner/loser rack and set getters that
  report null for "no result yet", and the `score()` / `getScore()` strings.
- **Availability** (`Availability`): the two "not available" member-id sets and the
  four roster filters that split each team's roster by them.
- **Race** (`Race`): challenge-mode race from the two challenge users' handicaps,
  else the manual override, else "".
- **Classification and schedule** (`Schedule`): effective division and game type,
  the PENDING status override, the midnight "no time set" convention of
  `getDefaultMatchDate` and `getTime`, and the `sortAcc` date order.
- **Identity** (`Identity`): `hasTeam`, `hasBothTeams`, `isSameMatch`, `hasUser`,
  `getOpponentTeam`.
- **The entity** (`Entity.TeamMatch`): a class whose fields are the match's fields;
  the add/remove operations change the two id sets in place and the setters
  overwrite one field each. `Snapshot()` turns the object into a `MatchState.Match`
  value, and every derived query is a function of that value.

Supporting modules: `Domain` (teams, seasons, users, divisions, statuses,
date-times, nullable references as `Option`, Java's 32-bit `int` and its
wrap-around addition) and `Text` (decimal rendering of integers and a parser
that reads a "W-L" score back, used to state round trips).

Modelling choices:

- Java `null` is `None`. Teams, seasons and users are equal when their ids are.
- Score counters are `Int32`. `homeRacks + awayRacks` in `isHasResults` wraps
  around as Java's `int` does, and `OverflowingRacksHideResults` shows the effect.
- "Now" is a parameter of `DisplayStatus` and `DefaultMatchDate`. The handicap
  lookup, the race table and the time-of-day formatter are function parameters.
- A date-time is a day, an hour and the nanoseconds into the hour, ordered
  lexicographically, which is all the rules read of it.

Behaviour of the code that a reader might not expect, all of it modelled as written:

- The NINE_BALL_TUESDAYS tiebreak is chosen by the season division of the team
  passed to `isWinner`, not by the match's effective division.
- A recorded but tied result (3-3) has no winner at all (`TiedResultHasNoWinner`).
- When the two teams' seasons disagree about NINE_BALL_TUESDAYS, both sides can
  be winners at once (`DisagreeingSeasonsCrownBoth`).
- `getLoserSetLoses` has no result guard and never returns null.
- The winner/loser rack and set getters pick the side by racks alone, so they
  can disagree with `getWinner` in NINE_BALL_TUESDAYS (`ScoreGettersIgnoreSetTiebreak`).

## Model

| member | source | states |
|---|---|---|
| `Domain.Add32` | src/main/java/com/society/leagues/client/api/domain/TeamMatch.java:314 | Java `int` addition: the exact sum when it fits in 32 bits, and always a value congruent to the sum modulo 2^32 |
| `Domain.Compare` | src/main/java/com/society/leagues/client/api/domain/TeamMatch.java:519 | the sign of `compareTo` on date-times: -1, 0 or 1; 0 exactly for equal dates; negative exactly when the first is before the second |
| `Text.IntToDecimal` | src/main/java/com/society/leagues/client/api/domain/TeamMatch.java:210-212 | the decimal text of a counter denotes it: for n ≥ 0 all digits with value n, for n < 0 a '-' followed by digits with value -n; no leading zero except for 0 itself |
| `Results.NewMatchHasNoResults` | src/main/java/com/society/leagues/client/api/domain/TeamMatch.java:308-315 | a freshly constructed 0-0 match has no result |
| `Results.HasResultsIffRacksRecorded` | src/main/java/com/society/leagues/client/api/domain/TeamMatch.java:308-315 | with non-negative racks whose sum fits in an `int`, a match has results exactly when some rack is recorded; the forfeit clauses add no case |
| `Results.OverflowingRacksHideResults` | src/main/java/com/society/leagues/client/api/domain/TeamMatch.java:314 | rack counts whose sum overflows `int` make a match with racks on both sides read as having no result |
| `Results.PerTeamGettersSplitTheMatch` | src/main/java/com/society/leagues/client/api/domain/TeamMatch.java:278-323 | `getRacks`/`getOpponentRacks` and `getSetWins`/`getSetLoses` of the home team and of any other team mirror each other, and a side's racks plus its opponent's are all racks |
| `Results.IsWinnerComparesOwnTallies` | src/main/java/com/society/leagues/client/api/domain/TeamMatch.java:258-276 | a null team never wins; a team wins exactly when its own set wins beat its set losses (its season is NINE_BALL_TUESDAYS and the sets differ) or else when its racks beat its opponent's racks |
| `Results.SetsDecideNineBallTuesdays` | src/main/java/com/society/leagues/client/api/domain/TeamMatch.java:258-276 | in NINE_BALL_TUESDAYS, racks 5-7 with sets 3-1 make home the winner and not away |
| `Results.OutsiderJudgedAsAway` | src/main/java/com/society/leagues/client/api/domain/TeamMatch.java:270-275 | any team that is not home is judged exactly as the away team, when their seasons agree on the tiebreak rule |
| `Results.AtMostOneWinner` | src/main/java/com/society/leagues/client/api/domain/TeamMatch.java:258-276 | for distinct teams whose seasons agree on the tiebreak rule, home and away are never both winners; a full tie has no winner; unequal racks and unequal sets give one |
| `Results.DisagreeingSeasonsCrownBoth` | src/main/java/com/society/leagues/client/api/domain/TeamMatch.java:263-275 | when only home's season is NINE_BALL_TUESDAYS, both sides can be winners at once |
| `Results.TiedResultHasNoWinner` | src/main/java/com/society/leagues/client/api/domain/TeamMatch.java:258-315 | a 3-3 match (sets 0-0) has a result but neither side is a winner, whatever the teams' seasons |
| `Results.WinnerAndLoserAreTheTwoSides` | src/main/java/com/society/leagues/client/api/domain/TeamMatch.java:377-390 | `getWinner` and `getLoser` are home and away one each; a match home does not win (a tie included) names away as winner and home as loser; for agreeing distinct teams the loser never wins |
| `Results.RackGettersSplitTheRacks` | src/main/java/com/society/leagues/client/api/domain/TeamMatch.java:363-375 | winner and loser racks are null exactly without a result; otherwise they are the larger and the smaller rack count, winner ≥ loser, summing to all racks |
| `Results.SetGettersFollowTheRackWinner` | src/main/java/com/society/leagues/client/api/domain/TeamMatch.java:325-346 | three set getters are null exactly without a result; otherwise they are the rack winner's and rack loser's set tallies, winner's wins = loser's losses and vice versa; `getLoserSetLoses` always answers |
| `Results.ScoreGettersIgnoreSetTiebreak` | src/main/java/com/society/leagues/client/api/domain/TeamMatch.java:325-390 | in NINE_BALL_TUESDAYS at racks 5-7 and sets 3-1 the winner is home while the "winner" racks (7) and set wins (1) are away's |
| `Results.RackWinnerIsWinnerOutsideTuesdays` | src/main/java/com/society/leagues/client/api/domain/TeamMatch.java:363-390 | outside NINE_BALL_TUESDAYS, with a result and unequal racks, home is winner (loser) exactly when the winner (loser) racks are home's |
| `Results.ForfeitIsAResult` | src/main/java/com/society/leagues/client/api/domain/TeamMatch.java:429-431 | a forfeit always has a result, with loser racks 0 and positive winner racks |
| `Results.ScoreLineReadsBack` | src/main/java/com/society/leagues/client/api/domain/TeamMatch.java:210-212 | `score()` of non-negative racks reads back as (home racks, away racks) |
| `Results.ScoreReadsBack` | src/main/java/com/society/leagues/client/api/domain/TeamMatch.java:392-397 | `getScore()` is non-null exactly in challenge mode with a result, and then reads back as (winner racks, loser racks) |
| `Availability.SelectKeepsOrder` | src/main/java/com/society/leagues/client/api/domain/TeamMatch.java:84-113 | filtering a roster in two pieces gives the two filtered pieces in order: the filters keep roster order |
| `Availability.SelectCounts` | src/main/java/com/society/leagues/client/api/domain/TeamMatch.java:84-113 | a filter keeps every occurrence of a member on its side of the id set and none of the others |
| `Availability.RosterPartition` | src/main/java/com/society/leagues/client/api/domain/TeamMatch.java:84-113 | the available and unavailable lists partition the roster (as multisets), each member in exactly the list its id's membership decides |
| `Availability.SelectAfterAdd` | src/main/java/com/society/leagues/client/api/domain/TeamMatch.java:67-69 | filtering by a set with one more id equals filtering the available list once more by that id |
| `Availability.SelectAfterRemove` | src/main/java/com/society/leagues/client/api/domain/TeamMatch.java:70-72 | filtering by a set with one id less removes exactly that id's members from the unavailable list |
| `Availability.HomeRosterPartition` | src/main/java/com/society/leagues/client/api/domain/TeamMatch.java:84-105 | `homeAvailable()` and `homeNotAvailable()` split the home roster by `homeNotAvailable` |
| `Availability.AwayRosterPartition` | src/main/java/com/society/leagues/client/api/domain/TeamMatch.java:91-113 | `awayAvailable()` and `awayNotAvailable()` split the away roster by `awayNotAvailable` |
| `Availability.AddHomeUnavailableHidesMember` | src/main/java/com/society/leagues/client/api/domain/TeamMatch.java:67-69 | after `addHomeNotAvailable(id)` the home available list loses exactly that id's members and the unavailable list gains them; the away side is unchanged |
| `Availability.RemoveHomeUnavailableRestoresMember` | src/main/java/com/society/leagues/client/api/domain/TeamMatch.java:70-72 | after `removeHomeNotAvailable(id)` that id's home members move back to the available list; the away side is unchanged |
| `Availability.AddAwayUnavailableHidesMember` | src/main/java/com/society/leagues/client/api/domain/TeamMatch.java:73-75 | the away counterpart of adding an id; the home side is unchanged |
| `Availability.RemoveAwayUnavailableRestoresMember` | src/main/java/com/society/leagues/client/api/domain/TeamMatch.java:76-78 | the away counterpart of removing an id; the home side is unchanged |
| `Availability.UpdatesAreIdempotent` | src/main/java/com/society/leagues/client/api/domain/TeamMatch.java:67-78 | each add and remove is idempotent, and removing an id that was absent before the add restores the match |
| `Schedule.EffectiveDivisionFallsBack` | src/main/java/com/society/leagues/client/api/domain/TeamMatch.java:214-219 | the match's own division wins; only a null one falls back to the home season's division, and without a season it stays null |
| `Schedule.GameTypeClassifies` | src/main/java/com/society/leagues/client/api/domain/TeamMatch.java:135-151 | the game type is one of "9", "8", "Unknown", "N/A": "Unknown" exactly without a division, "9" exactly for the nine-ball divisions, "8" exactly for the eight-ball ones |
| `Schedule.NewMatchIsEightBall` | src/main/java/com/society/leagues/client/api/domain/TeamMatch.java:35 | a new match's MIXED_EIGHT default makes it eight-ball whatever its season says |
| `Schedule.StatusOverride` | src/main/java/com/society/leagues/client/api/domain/TeamMatch.java:127-133 | PENDING whenever the date is set, before now and there is no result; the stored status (possibly null) otherwise; a match with results always reports its stored status |
| `Schedule.OverduePendingPersists` | src/main/java/com/society/leagues/client/api/domain/TeamMatch.java:127-133 | an unplayed match that reads PENDING at one time reads PENDING at every later time |
| `Schedule.DefaultMatchDateHasTime` | src/main/java/com/society/leagues/client/api/domain/TeamMatch.java:191-197 | the default date never has hour 0; without a date it is today at 7; with one it differs at most in the hour, and only when the hour is 0 |
| `Schedule.TimeLabelAgreesWithDefaultDate` | src/main/java/com/society/leagues/client/api/domain/TeamMatch.java:465-471 | when the formatter does not itself render the stored time as "19:00", `getTime()` shows "19:00" exactly when the default date moves the match off midnight (a match really set at 19:00 also shows "19:00" with its date unchanged) |
| `Schedule.SortAccIsTotalPreorder` | src/main/java/com/society/leagues/client/api/domain/TeamMatch.java:515-522 | the ascending comparator is 0 exactly for equal dates, antisymmetric, agrees with `isBefore`, and transitive |
| `Identity.HasTeamIsTheParticipants` | src/main/java/com/society/leagues/client/api/domain/TeamMatch.java:250-255 | with both sides set, home and away are in the match, null and third teams are not; `hasBothTeams` ignores argument order |
| `Identity.SameMatchIsSameDateAndPair` | src/main/java/com/society/leagues/client/api/domain/TeamMatch.java:524-534 | two matches are the same exactly when dates are equal and their unordered team-id pairs are equal; the relation is symmetric and false for differing dates |
| `Identity.OpponentIsTheOtherSide` | src/main/java/com/society/leagues/client/api/domain/TeamMatch.java:356-361 | when exactly one roster holds the reference user, the opponent team is one of the two sides and is the one whose roster does not hold that user (if both rosters hold it, the source returns away) |
| `Race.RacePrecedence` | src/main/java/com/society/leagues/client/api/domain/TeamMatch.java:399-427 | challenge mode: race of the challenger's and opponent's handicaps, or "" if either challenge user or the away team is missing, override ignored; otherwise: the override (null as ""), handicaps ignored |
| `Race.OverrideIsTheRace` | src/main/java/com/society/leagues/client/api/domain/TeamMatch.java:409-410 | outside challenge mode an override of "7" is the race |
| `Race.NoChallengeUsersOutsideChallenge` | src/main/java/com/society/leagues/client/api/domain/TeamMatch.java:415-427 | outside challenge mode there is no challenger and no opponent |
| `Entity.TeamMatch.constructor` | src/main/java/com/society/leagues/client/api/domain/TeamMatch.java:35-62 | the new object holds the two teams and the date with every field at its declared default |
| `Entity.TeamMatch.Blank` | src/main/java/com/society/leagues/client/api/domain/TeamMatch.java:64-65 | the new object has no teams and no date and every field at its declared default |
| `Entity.TeamMatch.AddHomeNotAvailable` | src/main/java/com/society/leagues/client/api/domain/TeamMatch.java:67-69 | inserts the id into the home set in place; every other field is unchanged |
| `Entity.TeamMatch.RemoveHomeNotAvailable` | src/main/java/com/society/leagues/client/api/domain/TeamMatch.java:70-72 | deletes the id from the home set in place; every other field is unchanged |
| `Entity.TeamMatch.AddAwayNotAvailable` | src/main/java/com/society/leagues/client/api/domain/TeamMatch.java:73-75 | inserts the id into the away set in place; every other field is unchanged |
| `Entity.TeamMatch.RemoveAwayNotAvailable` | src/main/java/com/society/leagues/client/api/domain/TeamMatch.java:76-78 | deletes the id from the away set in place; every other field is unchanged |
| `Entity.TeamMatch.SetHomeNotAvailable` | src/main/java/com/society/leagues/client/api/domain/TeamMatch.java:115-117 | replaces the whole home set; nothing else changes |
| `Entity.TeamMatch.SetAwayNotAvailable` | src/main/java/com/society/leagues/client/api/domain/TeamMatch.java:123-125 | replaces the whole away set; nothing else changes |
| `Entity.TeamMatch.SetDivision` | src/main/java/com/society/leagues/client/api/domain/TeamMatch.java:153-155 | overwrites the division only |
| `Entity.TeamMatch.SetStatus` | src/main/java/com/society/leagues/client/api/domain/TeamMatch.java:157-159 | overwrites the stored status only |
| `Entity.TeamMatch.SetHome` | src/main/java/com/society/leagues/client/api/domain/TeamMatch.java:169-171 | overwrites the home team only |
| `Entity.TeamMatch.SetAway` | src/main/java/com/society/leagues/client/api/domain/TeamMatch.java:177-179 | overwrites the away team only |
| `Entity.TeamMatch.SetMatchDate` | src/main/java/com/society/leagues/client/api/domain/TeamMatch.java:199-201 | overwrites the match date only |
| `Entity.TeamMatch.SetAwayRacks` | src/main/java/com/society/leagues/client/api/domain/TeamMatch.java:233-235 | overwrites the away racks only |
| `Entity.TeamMatch.SetHomeRacks` | src/main/java/com/society/leagues/client/api/domain/TeamMatch.java:241-243 | overwrites the home racks only |
| `Entity.TeamMatch.SetSetAwayWins` | src/main/java/com/society/leagues/client/api/domain/TeamMatch.java:296-298 | overwrites the away set wins only |
| `Entity.TeamMatch.SetSetHomeWins` | src/main/java/com/society/leagues/client/api/domain/TeamMatch.java:304-306 | overwrites the home set wins only |
| `Entity.TeamMatch.SetHomeForfeits` | src/main/java/com/society/leagues/client/api/domain/TeamMatch.java:453-455 | overwrites the home forfeits only |
| `Entity.TeamMatch.SetAwayForfeits` | src/main/java/com/society/leagues/client/api/domain/TeamMatch.java:461-463 | overwrites the away forfeits only |
| `Entity.TeamMatch.SetRace` | src/main/java/com/society/leagues/client/api/domain/TeamMatch.java:491-493 | overwrites the race override only |

## Left out

- Serialization, view and persistence annotations, validation constraints and imports (lines 4-24): plumbing with no logic.
- The fallback in `getMatchDate` that parses separate date and time strings (186): library parsing. The model's match date is the stored date-time field, and the transient `date`/`time` fields and their setters are not modelled.
- `getDate` and the time-of-day text of `getTime` (466-476): library formatting. `TimeLabel` takes the formatter as a parameter.
- `LocalDateTime.now()` in `getStatus` and `getDefaultMatchDate`: the current time is a parameter.
- `Handicap.race` and `User.getHandicap`: not part of this model; they are function parameters of `RaceOf`.
- `Team`, `Season` and `User` equality: not part of this model; equality is id equality.
- `isNine`: `Season.isNine` is not part of this model.
- `Schedule.SortAccIsTotalPreorder`: only the sign of `LocalDateTime.compareTo` is modelled, which is all a `Comparator` promises; the magnitude of the date difference it returns is not.
- The `TeamMatch(String id)` constructor, the inherited id, `toString`, and the plain getters and setters of `matchNumber`, `hasPlayerResults`, `forfeits`, `handicapRacks` and `referenceUser`: no logic. `referenceUser` is a field of the match value so that `getOpponentTeam` can be stated.
- Plain field getters (`getHome`, `getHomeRacks`, `getSetHomeLost`, `getHomeNotAvailable`, ...): they return a field of `MatchState.Match`.
- Null score counters: the boxed `Integer` fields are modelled as non-null `Int32`, so the exception a null counter raises is not modelled.
- Reference aliasing: `setHomeNotAvailable`/`getHomeNotAvailable` share the caller's `HashSet`. The model copies set values, so later changes through another reference are not captured.
- Null fields the source dereferences without a check throw there; the model states those calls only where the field is set: `Identity.IsSameMatch` needs the other match's date, this match's home team and, wherever it is read, its away team (525-532); `Availability.HomeAvailable`/`HomeUnavailable` need the home team and `AwayAvailable`/`AwayUnavailable` the away team (85-109); `Identity.HasUser` needs the home team, and the away team when the user is not on the home roster (246); `Identity.OpponentTeam` needs the home team when a reference user is set (360); `Race.Opponent` needs the away team in challenge mode (424); `Schedule.TimeLabel` needs the match date (467); `Schedule.CompareByDate` needs both match dates (519). The exception itself is not modelled.
- A null team passed to `getRacks`, `getOpponentRacks`, `getSetWins` or `getSetLoses` throws in the source; those functions take a non-null `Team`.
- Division and status enums: only the constants the match logic names are distinct; every other division constant is `OtherDivision`, and every status other than PENDING is `OtherStatus`.
