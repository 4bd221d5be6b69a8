/** The match entity: an object whose fields the setters overwrite and whose two
    "not available" id sets the add/remove operations change in place. Its
    derived queries are the functions of `Results`, `Availability`, `Race`,
    `Schedule` and `Identity` applied to `Snapshot()`. */
module Entity {
  import opened Domain
  import opened MatchState

  class TeamMatch {
    var home: Option<Team>
    var away: Option<Team>
    var matchDate: Option<DateTime>
    var division: Option<Division>
    var homeRacks: Int32
    var awayRacks: Int32
    var setHomeWins: Int32
    var setAwayWins: Int32
    var homeForfeits: Int32
    var awayForfeits: Int32
    var status: Option<Status>
    var homeNotAvailable: set<string>
    var awayNotAvailable: set<string>
    var race: Option<string>
    var referenceUser: Option<User>

    /** The current state of the object as a match value. */
    function Snapshot(): Match
      reads this
    {
      Match(home, away, matchDate, division, homeRacks, awayRacks, setHomeWins, setAwayWins,
            homeForfeits, awayForfeits, status, homeNotAvailable, awayNotAvailable, race, referenceUser)
    }

    /** `TeamMatch(home, away, matchDate)`. */
    constructor (home: Team, away: Team, matchDate: DateTime)
      ensures Snapshot() == NewMatch(Some(home), Some(away), Some(matchDate))
    {
      this.home, this.away, this.matchDate := Some(home), Some(away), Some(matchDate);
      division := Some(MixedEight);
      homeRacks, awayRacks, setHomeWins, setAwayWins := 0, 0, 0, 0;
      homeForfeits, awayForfeits := 0, 0;
      status := None;
      homeNotAvailable, awayNotAvailable := {}, {};
      race := Some("");
      referenceUser := None;
    }

    /** `TeamMatch()`: no teams and no date yet. */
    constructor Blank()
      ensures Snapshot() == NewMatch(None, None, None)
    {
      home, away, matchDate := None, None, None;
      division := Some(MixedEight);
      homeRacks, awayRacks, setHomeWins, setAwayWins := 0, 0, 0, 0;
      homeForfeits, awayForfeits := 0, 0;
      status := None;
      homeNotAvailable, awayNotAvailable := {}, {};
      race := Some("");
      referenceUser := None;
    }

    /** `addHomeNotAvailable(id)`: inserts into the home set; nothing else changes. */
    method AddHomeNotAvailable(id: string)
      modifies this
      ensures homeNotAvailable == old(homeNotAvailable) + {id}
      ensures Snapshot() == WithHomeUnavailable(old(Snapshot()), id)
    {
      homeNotAvailable := homeNotAvailable + {id};
    }

    /** `removeHomeNotAvailable(id)`: deletes from the home set; nothing else changes. */
    method RemoveHomeNotAvailable(id: string)
      modifies this
      ensures homeNotAvailable == old(homeNotAvailable) - {id}
      ensures Snapshot() == WithHomeAvailable(old(Snapshot()), id)
    {
      homeNotAvailable := homeNotAvailable - {id};
    }

    /** `addAwayNotAvailable(id)`: inserts into the away set; nothing else changes. */
    method AddAwayNotAvailable(id: string)
      modifies this
      ensures awayNotAvailable == old(awayNotAvailable) + {id}
      ensures Snapshot() == WithAwayUnavailable(old(Snapshot()), id)
    {
      awayNotAvailable := awayNotAvailable + {id};
    }

    /** `removeAwayNotAvailable(id)`: deletes from the away set; nothing else changes. */
    method RemoveAwayNotAvailable(id: string)
      modifies this
      ensures awayNotAvailable == old(awayNotAvailable) - {id}
      ensures Snapshot() == WithAwayAvailable(old(Snapshot()), id)
    {
      awayNotAvailable := awayNotAvailable - {id};
    }

    /** `setHomeNotAvailable(s)`: replaces the whole home set. */
    method SetHomeNotAvailable(s: set<string>)
      modifies this
      ensures Snapshot() == old(Snapshot()).(homeNotAvailable := s)
    {
      homeNotAvailable := s;
    }

    /** `setAwayNotAvailable(s)`: replaces the whole away set. */
    method SetAwayNotAvailable(s: set<string>)
      modifies this
      ensures Snapshot() == old(Snapshot()).(awayNotAvailable := s)
    {
      awayNotAvailable := s;
    }

    /** `setHome(t)`. */
    method SetHome(t: Option<Team>)
      modifies this
      ensures Snapshot() == old(Snapshot()).(home := t)
    {
      home := t;
    }

    /** `setAway(t)`. */
    method SetAway(t: Option<Team>)
      modifies this
      ensures Snapshot() == old(Snapshot()).(away := t)
    {
      away := t;
    }

    /** `setMatchDate(d)`. */
    method SetMatchDate(d: Option<DateTime>)
      modifies this
      ensures Snapshot() == old(Snapshot()).(matchDate := d)
    {
      matchDate := d;
    }

    /** `setDivision(d)`: null makes the season's division the effective one. */
    method SetDivision(d: Option<Division>)
      modifies this
      ensures Snapshot() == old(Snapshot()).(division := d)
    {
      division := d;
    }

    /** `setStatus(s)`: the stored status, which the reported status may override. */
    method SetStatus(s: Option<Status>)
      modifies this
      ensures Snapshot() == old(Snapshot()).(status := s)
    {
      status := s;
    }

    /** `setHomeRacks(n)`. */
    method SetHomeRacks(n: Int32)
      modifies this
      ensures Snapshot() == old(Snapshot()).(homeRacks := n)
    {
      homeRacks := n;
    }

    /** `setAwayRacks(n)`. */
    method SetAwayRacks(n: Int32)
      modifies this
      ensures Snapshot() == old(Snapshot()).(awayRacks := n)
    {
      awayRacks := n;
    }

    /** `setSetHomeWins(n)`. */
    method SetSetHomeWins(n: Int32)
      modifies this
      ensures Snapshot() == old(Snapshot()).(setHomeWins := n)
    {
      setHomeWins := n;
    }

    /** `setSetAwayWins(n)`. */
    method SetSetAwayWins(n: Int32)
      modifies this
      ensures Snapshot() == old(Snapshot()).(setAwayWins := n)
    {
      setAwayWins := n;
    }

    /** `setHomeForfeits(n)`. */
    method SetHomeForfeits(n: Int32)
      modifies this
      ensures Snapshot() == old(Snapshot()).(homeForfeits := n)
    {
      homeForfeits := n;
    }

    /** `setAwayForfeits(n)`. */
    method SetAwayForfeits(n: Int32)
      modifies this
      ensures Snapshot() == old(Snapshot()).(awayForfeits := n)
    {
      awayForfeits := n;
    }

    /** `setRace(r)`: the manual race override. */
    method SetRace(r: Option<string>)
      modifies this
      ensures Snapshot() == old(Snapshot()).(race := r)
    {
      race := r;
    }
  }
}
