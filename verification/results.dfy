/** Who won a match, whether it has a result at all, and the score getters that
    report "no result yet" as null. */
module Results {
  import opened Domain
  import opened MatchState
  import opened Text

  /** `isHasResults()`: a side whose positive racks equal its forfeits has a
      result; otherwise the 32-bit sum of the racks must be positive. */
  predicate HasResults(m: Match) {
    if m.homeRacks > 0 && m.homeRacks == m.homeForfeits then true
    else if m.awayRacks > 0 && m.awayRacks == m.awayForfeits then true
    else Add32(m.homeRacks, m.awayRacks) > 0
  }

  lemma NewMatchHasNoResults(home: Option<Team>, away: Option<Team>, date: Option<DateTime>)
    ensures !HasResults(NewMatch(home, away, date))
  {
  }

  /** With non-negative racks whose sum fits in an `int`, the forfeit clauses add
      no case: a match has results exactly when some rack has been recorded. */
  lemma HasResultsIffRacksRecorded(m: Match)
    requires m.homeRacks >= 0 && m.awayRacks >= 0
    requires m.homeRacks as int + m.awayRacks as int <= MaxInt32
    ensures HasResults(m) <==> m.homeRacks > 0 || m.awayRacks > 0
  {
  }

  /** Rack counts whose sum overflows an `int` make the final clause wrap to a
      negative number: both sides have racks, yet the match reads as unplayed. */
  lemma OverflowingRacksHideResults()
    ensures var m := NewMatch(None, None, None).(homeRacks := 0x4000_0000, awayRacks := 0x4000_0000);
            m.homeRacks > 0 && m.awayRacks > 0 && !HasResults(m)
  {
  }

  /** `isForfeit()`: exactly one side has no racks while the other has some. */
  predicate IsForfeit(m: Match) {
    (m.homeRacks == 0 && m.awayRacks > 0) || (m.awayRacks == 0 && m.homeRacks > 0)
  }

  /** Whether a team's own season is the NINE_BALL_TUESDAYS division, the one
      division in which set wins decide the winner. */
  predicate PlaysNineBallTuesdays(t: Team) {
    t.season.Some? && t.season.value.division == Some(NineBallTuesdays)
  }

  /** `isWinner(t)`: null never wins. The home team (by id) compares set wins
      when its own season is NINE_BALL_TUESDAYS and the set tallies differ, and
      racks otherwise; every other team is judged as the away side. */
  predicate IsWinner(m: Match, t: Option<Team>) {
    if t.None? then false
    else if TeamEquals(t.value, m.home) then
      if PlaysNineBallTuesdays(t.value) && m.setAwayWins != m.setHomeWins then m.setHomeWins > m.setAwayWins
      else m.homeRacks > m.awayRacks
    else
      if PlaysNineBallTuesdays(t.value) && m.setAwayWins != m.setHomeWins then m.setAwayWins > m.setHomeWins
      else m.awayRacks > m.homeRacks
  }

  /** `getRacks(t)`: the racks of the side `t` plays. */
  function RacksOf(m: Match, t: Team): Int32 {
    if TeamEquals(t, m.home) then m.homeRacks else m.awayRacks
  }

  /** `getOpponentRacks(t)`: the racks of the other side. */
  function OpponentRacksOf(m: Match, t: Team): Int32 {
    if TeamEquals(t, m.home) then m.awayRacks else m.homeRacks
  }

  /** `getSetWins(t)`. */
  function SetWinsOf(m: Match, t: Team): Int32 {
    if TeamEquals(t, m.home) then m.setHomeWins else m.setAwayWins
  }

  /** `getSetLoses(t)`: the sets the other side won. */
  function SetLosesOf(m: Match, t: Team): Int32 {
    if TeamEquals(t, m.home) then m.setAwayWins else m.setHomeWins
  }

  /** The per-team getters split the match between the two sides: one side's
      own tally is the other side's opponent tally, and a side's racks plus its
      opponent's racks are all the racks of the match. */
  lemma PerTeamGettersSplitTheMatch(m: Match, t: Team, u: Team)
    requires TeamEquals(t, m.home) && !TeamEquals(u, m.home)
    ensures RacksOf(m, t) == OpponentRacksOf(m, u) && RacksOf(m, u) == OpponentRacksOf(m, t)
    ensures SetWinsOf(m, t) == SetLosesOf(m, u) && SetWinsOf(m, u) == SetLosesOf(m, t)
    ensures RacksOf(m, t) as int + OpponentRacksOf(m, t) as int == m.homeRacks as int + m.awayRacks as int
    ensures RacksOf(m, u) == m.awayRacks && SetWinsOf(m, u) == m.setAwayWins
  {
  }

  /** Whatever side it plays, a team wins when its own deciding tally beats its
      opponent's: sets when its season is NINE_BALL_TUESDAYS and the set tallies
      differ, racks otherwise. A null team never wins. */
  lemma IsWinnerComparesOwnTallies(m: Match, t: Team)
    ensures IsWinner(m, Some(t)) <==>
      if PlaysNineBallTuesdays(t) && SetWinsOf(m, t) != SetLosesOf(m, t)
      then SetWinsOf(m, t) > SetLosesOf(m, t)
      else RacksOf(m, t) > OpponentRacksOf(m, t)
    ensures !IsWinner(m, None)
  {
  }

  /** The example of the nine-ball Tuesdays rule: losing the racks 5-7 but
      winning the sets 3-1, the home team wins. */
  lemma SetsDecideNineBallTuesdays(s: Season, h: Team, a: Team)
    requires s.division == Some(NineBallTuesdays) && h.season == Some(s) && a.season == Some(s) && h.id != a.id
    ensures var m := NewMatch(Some(h), Some(a), None).(homeRacks := 5, awayRacks := 7, setHomeWins := 3, setAwayWins := 1);
            IsWinner(m, Some(h)) && !IsWinner(m, Some(a))
  {
  }

  /** A team that is not the home team is judged exactly as the away team would
      be, when both seasons agree on the NINE_BALL_TUESDAYS rule. */
  lemma OutsiderJudgedAsAway(m: Match, t: Team)
    requires m.away.Some? && !TeamEquals(t, m.home) && !TeamEquals(m.away.value, m.home)
    requires PlaysNineBallTuesdays(t) == PlaysNineBallTuesdays(m.away.value)
    ensures IsWinner(m, Some(t)) == IsWinner(m, m.away)
  {
  }

  /** Two distinct teams whose seasons agree on the NINE_BALL_TUESDAYS rule are
      never both winners; when the deciding tally is tied neither wins, and
      otherwise exactly one does. */
  lemma AtMostOneWinner(m: Match)
    requires m.home.Some? && m.away.Some? && m.home.value.id != m.away.value.id
    requires PlaysNineBallTuesdays(m.home.value) == PlaysNineBallTuesdays(m.away.value)
    ensures !(IsWinner(m, m.home) && IsWinner(m, m.away))
    ensures m.homeRacks == m.awayRacks && m.setHomeWins == m.setAwayWins ==>
              !IsWinner(m, m.home) && !IsWinner(m, m.away)
    ensures m.homeRacks != m.awayRacks && m.setHomeWins != m.setAwayWins ==>
              IsWinner(m, m.home) || IsWinner(m, m.away)
  {
  }

  /** When only the home team's season is NINE_BALL_TUESDAYS, both sides can win
      at once: home on sets 3-1, away on racks 7-5. */
  lemma DisagreeingSeasonsCrownBoth(s: Season, h: Team, a: Team)
    requires s.division == Some(NineBallTuesdays) && h.season == Some(s) && a.season == None && h.id != a.id
    ensures var m := NewMatch(Some(h), Some(a), None).(homeRacks := 5, awayRacks := 7, setHomeWins := 3, setAwayWins := 1);
            IsWinner(m, Some(h)) && IsWinner(m, Some(a))
  {
  }

  /** A recorded but tied result (3-3, sets 0-0) has a result and no winner, in
      every division. */
  lemma TiedResultHasNoWinner(h: Team, a: Team)
    requires h.id != a.id
    ensures var m := NewMatch(Some(h), Some(a), None).(homeRacks := 3, awayRacks := 3);
            HasResults(m) && !IsWinner(m, Some(h)) && !IsWinner(m, Some(a))
  {
  }

  /** `getWinner()`: home if it wins, otherwise away. */
  function Winner(m: Match): Option<Team> {
    if IsWinner(m, m.home) then m.home else m.away
  }

  /** `getLoser()`: away if home wins, otherwise home. */
  function Loser(m: Match): Option<Team> {
    if IsWinner(m, m.home) then m.away else m.home
  }

  /** Winner and loser are always the two sides, one each; a match the home team
      does not win (a tie included) names away as the winner and home as the
      loser. For two distinct teams whose seasons agree on the NINE_BALL_TUESDAYS
      rule, the loser is never a winner. */
  lemma WinnerAndLoserAreTheTwoSides(m: Match)
    ensures (Winner(m) == m.home && Loser(m) == m.away) || (Winner(m) == m.away && Loser(m) == m.home)
    ensures Winner(m) == m.home <==> IsWinner(m, m.home) || m.home == m.away
    ensures !IsWinner(m, m.home) ==> Winner(m) == m.away && Loser(m) == m.home
    ensures m.home.Some? && m.away.Some? && m.home.value.id != m.away.value.id
            && PlaysNineBallTuesdays(m.home.value) == PlaysNineBallTuesdays(m.away.value)
            ==> !IsWinner(m, Loser(m))
  {
  }

  /** `getWinnerRacks()`: null without results, else the racks of the side with
      strictly more racks (away on a tie). */
  function WinnerRacks(m: Match): Option<Int32> {
    if !HasResults(m) then None
    else if m.homeRacks > m.awayRacks then Some(m.homeRacks) else Some(m.awayRacks)
  }

  /** `getLoserRacks()`. */
  function LoserRacks(m: Match): Option<Int32> {
    if !HasResults(m) then None
    else if m.homeRacks > m.awayRacks then Some(m.awayRacks) else Some(m.homeRacks)
  }

  /** The rack getters report null exactly when there is no result; otherwise they
      are the larger and the smaller rack count, which together are all racks. */
  lemma RackGettersSplitTheRacks(m: Match)
    ensures WinnerRacks(m).None? <==> !HasResults(m)
    ensures LoserRacks(m).None? <==> !HasResults(m)
    ensures HasResults(m) ==>
      var w, l := WinnerRacks(m).value, LoserRacks(m).value;
      w >= l
      && (w == m.homeRacks || w == m.awayRacks)
      && w >= m.homeRacks && w >= m.awayRacks
      && w as int + l as int == m.homeRacks as int + m.awayRacks as int
  {
  }

  /** `getWinnerSetWins()`: null without results, else the set wins of the side
      ahead on racks (away on a tie). */
  function WinnerSetWins(m: Match): Option<Int32> {
    if !HasResults(m) then None
    else if m.homeRacks > m.awayRacks then Some(m.setHomeWins) else Some(m.setAwayWins)
  }

  /** `getWinnerSetLoses()`. */
  function WinnerSetLoses(m: Match): Option<Int32> {
    if !HasResults(m) then None
    else if m.homeRacks > m.awayRacks then Some(m.setAwayWins) else Some(m.setHomeWins)
  }

  /** `getLoserSetWins()`. */
  function LoserSetWins(m: Match): Option<Int32> {
    if !HasResults(m) then None
    else if m.homeRacks > m.awayRacks then Some(m.setAwayWins) else Some(m.setHomeWins)
  }

  /** `getLoserSetLoses()`: unlike its three siblings it has no result guard and
      never reports null. */
  function LoserSetLoses(m: Match): Int32 {
    if m.homeRacks > m.awayRacks then m.setHomeWins else m.setAwayWins
  }

  /** The set getters follow the rack winner: the winner's set wins and losses are
      the rack winner's own and its opponent's tallies, the loser's are the same
      two numbers swapped, and only `LoserSetLoses` answers without a result. */
  lemma SetGettersFollowTheRackWinner(m: Match)
    ensures WinnerSetWins(m).None? <==> !HasResults(m)
    ensures WinnerSetLoses(m).None? <==> !HasResults(m)
    ensures LoserSetWins(m).None? <==> !HasResults(m)
    ensures HasResults(m) ==>
      WinnerSetWins(m) == Some(LoserSetLoses(m)) && WinnerSetLoses(m) == LoserSetWins(m)
    ensures HasResults(m) && m.homeRacks > m.awayRacks ==>
      WinnerSetWins(m) == Some(m.setHomeWins) && LoserSetWins(m) == Some(m.setAwayWins)
    ensures HasResults(m) && m.homeRacks <= m.awayRacks ==>
      WinnerSetWins(m) == Some(m.setAwayWins) && LoserSetWins(m) == Some(m.setHomeWins)
    ensures LoserSetLoses(m) == m.setHomeWins || LoserSetLoses(m) == m.setAwayWins
  {
  }

  /** The rack and set getters never consult `IsWinner`: in NINE_BALL_TUESDAYS the
      home team can be the winner while the "winner" racks and sets are away's. */
  lemma ScoreGettersIgnoreSetTiebreak(s: Season, h: Team, a: Team)
    requires s.division == Some(NineBallTuesdays) && h.season == Some(s) && a.season == Some(s) && h.id != a.id
    ensures var m := NewMatch(Some(h), Some(a), None).(homeRacks := 5, awayRacks := 7, setHomeWins := 3, setAwayWins := 1);
            Winner(m) == Some(h) && WinnerRacks(m) == Some(7) && WinnerSetWins(m) == Some(1)
  {
  }

  /** Outside NINE_BALL_TUESDAYS the getters and the winner agree: with a result
      and unequal racks, home is the winner exactly when the winner racks are home's. */
  lemma RackWinnerIsWinnerOutsideTuesdays(m: Match)
    requires m.home.Some? && m.away.Some? && m.home.value.id != m.away.value.id
    requires !PlaysNineBallTuesdays(m.home.value)
    requires HasResults(m) && m.homeRacks != m.awayRacks
    ensures Winner(m) == m.home <==> WinnerRacks(m) == Some(m.homeRacks)
    ensures Loser(m) == m.home <==> LoserRacks(m) == Some(m.homeRacks)
  {
  }

  /** A forfeit is a result, won by the side that has racks, with 0 loser racks. */
  lemma ForfeitIsAResult(m: Match)
    requires IsForfeit(m)
    ensures HasResults(m)
    ensures LoserRacks(m) == Some(0) && WinnerRacks(m).value > 0
  {
  }

  /** `score()`: "home-away" with both rack counts in decimal. */
  function ScoreLine(m: Match): string {
    IntToDecimal(m.homeRacks as int) + "-" + IntToDecimal(m.awayRacks as int)
  }

  /** `getScore()`: null outside challenge mode or without a result, else
      "winnerRacks-loserRacks". */
  function Score(m: Match): Option<string> {
    if !IsChallenge(m) then None
    else match WinnerRacks(m)
      case None => None
      case Some(w) => Some(IntToDecimal(w as int) + "-" + IntToDecimal(LoserRacks(m).value as int))
  }

  /** The score line of non-negative racks reads back as (home racks, away racks). */
  lemma ScoreLineReadsBack(m: Match)
    requires m.homeRacks >= 0 && m.awayRacks >= 0
    ensures ParseScore(ScoreLine(m)) == Some((m.homeRacks as nat, m.awayRacks as nat))
  {
    ScoreTextRoundTrip(m.homeRacks as nat, m.awayRacks as nat);
  }

  /** The challenge score exists exactly in challenge mode with a result, and for
      non-negative racks it reads back as (larger racks, smaller racks). */
  lemma ScoreReadsBack(m: Match)
    ensures Score(m).Some? <==> IsChallenge(m) && HasResults(m)
    ensures Score(m).Some? && m.homeRacks >= 0 && m.awayRacks >= 0 ==>
      ParseScore(Score(m).value) == Some((WinnerRacks(m).value as nat, LoserRacks(m).value as nat))
  {
    if Score(m).Some? && m.homeRacks >= 0 && m.awayRacks >= 0 {
      ScoreTextRoundTrip(WinnerRacks(m).value as nat, LoserRacks(m).value as nat);
    }
  }
}
