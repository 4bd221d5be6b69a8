/** Roster availability: each side's "not available" id set splits that team's
    roster into the members who can play this match and those who cannot. */
module Availability {
  import opened Domain
  import opened MatchState

  /** The members of `roster`, in roster order, whose id is in `out` (when
      `unavailable`) or is not in `out` (otherwise): a stream `filter`. */
  function Select(roster: seq<User>, out: set<string>, unavailable: bool): seq<User> {
    if roster == [] then []
    else (if (roster[0].id in out) == unavailable then [roster[0]] else []) + Select(roster[1..], out, unavailable)
  }

  /** Selecting from a roster in two pieces selects from each piece in turn: the
      selection keeps the roster's order. */
  lemma {:induction false} SelectKeepsOrder(r1: seq<User>, r2: seq<User>, out: set<string>, unavailable: bool)
    ensures Select(r1 + r2, out, unavailable) == Select(r1, out, unavailable) + Select(r2, out, unavailable)
  {
    if r1 != [] {
      assert (r1 + r2)[0] == r1[0];
      assert (r1 + r2)[1..] == r1[1..] + r2;
      SelectKeepsOrder(r1[1..], r2, out, unavailable);
    } else {
      assert r1 + r2 == r2;
    }
  }

  /** Each member occurs in the selection as often as in the roster when its id
      is on the selected side of `out`, and not at all otherwise. */
  lemma {:induction false} SelectCounts(roster: seq<User>, out: set<string>, unavailable: bool)
    ensures forall u :: multiset(Select(roster, out, unavailable))[u] ==
                        (if (u.id in out) == unavailable then multiset(roster)[u] else 0)
  {
    if roster != [] {
      SelectCounts(roster[1..], out, unavailable);
      assert roster == [roster[0]] + roster[1..];
    }
  }

  /** The available and unavailable lists partition the roster: every member
      lands in exactly one of them, decided by whether its id is in `out`. */
  lemma RosterPartition(roster: seq<User>, out: set<string>)
    ensures forall u :: u in Select(roster, out, false) <==> u in roster && u.id !in out
    ensures forall u :: u in Select(roster, out, true) <==> u in roster && u.id in out
    ensures multiset(Select(roster, out, false)) + multiset(Select(roster, out, true)) == multiset(roster)
  {
    SelectCounts(roster, out, false);
    SelectCounts(roster, out, true);
    assert forall u :: u in Select(roster, out, false) <==> multiset(Select(roster, out, false))[u] > 0;
    assert forall u :: u in Select(roster, out, true) <==> multiset(Select(roster, out, true))[u] > 0;
  }

  /** Marking one more id unavailable removes exactly that id's members from
      an available list, and order is kept. */
  lemma {:induction false} SelectAfterAdd(roster: seq<User>, out: set<string>, id: string)
    ensures Select(roster, out + {id}, false) == Select(Select(roster, out, false), {id}, false)
  {
    if roster != [] {
      var x := roster[0];
      SelectAfterAdd(roster[1..], out, id);
      SelectKeepsOrder(if x.id !in out then [x] else [], Select(roster[1..], out, false), {id}, false);
    }
  }

  /** Making one id available again removes exactly that id's members from an
      unavailable list, and order is kept. */
  lemma {:induction false} SelectAfterRemove(roster: seq<User>, out: set<string>, id: string)
    ensures Select(roster, out - {id}, true) == Select(Select(roster, out, true), {id}, false)
  {
    if roster != [] {
      var x := roster[0];
      SelectAfterRemove(roster[1..], out, id);
      SelectKeepsOrder(if x.id in out then [x] else [], Select(roster[1..], out, true), {id}, false);
    }
  }

  /** `homeAvailable()`: home members whose id is not in `homeNotAvailable`. */
  function HomeAvailable(m: Match): seq<User>
    requires m.home.Some?
  {
    Select(m.home.value.members, m.homeNotAvailable, false)
  }

  /** `homeNotAvailable()`: home members whose id is in `homeNotAvailable`. */
  function HomeUnavailable(m: Match): seq<User>
    requires m.home.Some?
  {
    Select(m.home.value.members, m.homeNotAvailable, true)
  }

  /** `awayAvailable()`. */
  function AwayAvailable(m: Match): seq<User>
    requires m.away.Some?
  {
    Select(m.away.value.members, m.awayNotAvailable, false)
  }

  /** `awayNotAvailable()`. */
  function AwayUnavailable(m: Match): seq<User>
    requires m.away.Some?
  {
    Select(m.away.value.members, m.awayNotAvailable, true)
  }

  /** The home roster is split, order kept, into available and unavailable
      members by the id set `homeNotAvailable`. */
  lemma HomeRosterPartition(m: Match)
    requires m.home.Some?
    ensures forall u :: u in HomeAvailable(m) <==> u in m.home.value.members && u.id !in m.homeNotAvailable
    ensures forall u :: u in HomeUnavailable(m) <==> u in m.home.value.members && u.id in m.homeNotAvailable
    ensures multiset(HomeAvailable(m)) + multiset(HomeUnavailable(m)) == multiset(m.home.value.members)
  {
    RosterPartition(m.home.value.members, m.homeNotAvailable);
  }

  /** The away roster is split the same way by `awayNotAvailable`. */
  lemma AwayRosterPartition(m: Match)
    requires m.away.Some?
    ensures forall u :: u in AwayAvailable(m) <==> u in m.away.value.members && u.id !in m.awayNotAvailable
    ensures forall u :: u in AwayUnavailable(m) <==> u in m.away.value.members && u.id in m.awayNotAvailable
    ensures multiset(AwayAvailable(m)) + multiset(AwayUnavailable(m)) == multiset(m.away.value.members)
  {
    RosterPartition(m.away.value.members, m.awayNotAvailable);
  }

  /** `addHomeNotAvailable(id)` drops exactly the members with that id from the
      home available list and moves them to the unavailable list; the away side
      is untouched. */
  lemma AddHomeUnavailableHidesMember(m: Match, id: string)
    requires m.home.Some?
    ensures var m' := WithHomeUnavailable(m, id);
      && HomeAvailable(m') == Select(HomeAvailable(m), {id}, false)
      && (forall u :: u in HomeUnavailable(m') <==> u in HomeUnavailable(m) || (u in m.home.value.members && u.id == id))
      && m'.away == m.away && m'.awayNotAvailable == m.awayNotAvailable
  {
    SelectAfterAdd(m.home.value.members, m.homeNotAvailable, id);
    RosterPartition(m.home.value.members, m.homeNotAvailable);
    RosterPartition(m.home.value.members, m.homeNotAvailable + {id});
  }

  /** `removeHomeNotAvailable(id)` drops exactly the members with that id from the
      home unavailable list and restores them to the available list; the away
      side is untouched. */
  lemma RemoveHomeUnavailableRestoresMember(m: Match, id: string)
    requires m.home.Some?
    ensures var m' := WithHomeAvailable(m, id);
      && HomeUnavailable(m') == Select(HomeUnavailable(m), {id}, false)
      && (forall u :: u in HomeAvailable(m') <==> u in HomeAvailable(m) || (u in m.home.value.members && u.id == id))
      && m'.away == m.away && m'.awayNotAvailable == m.awayNotAvailable
  {
    SelectAfterRemove(m.home.value.members, m.homeNotAvailable, id);
    RosterPartition(m.home.value.members, m.homeNotAvailable);
    RosterPartition(m.home.value.members, m.homeNotAvailable - {id});
  }

  /** `addAwayNotAvailable(id)`, the away counterpart; the home side is untouched. */
  lemma AddAwayUnavailableHidesMember(m: Match, id: string)
    requires m.away.Some?
    ensures var m' := WithAwayUnavailable(m, id);
      && AwayAvailable(m') == Select(AwayAvailable(m), {id}, false)
      && (forall u :: u in AwayUnavailable(m') <==> u in AwayUnavailable(m) || (u in m.away.value.members && u.id == id))
      && m'.home == m.home && m'.homeNotAvailable == m.homeNotAvailable
  {
    SelectAfterAdd(m.away.value.members, m.awayNotAvailable, id);
    RosterPartition(m.away.value.members, m.awayNotAvailable);
    RosterPartition(m.away.value.members, m.awayNotAvailable + {id});
  }

  /** `removeAwayNotAvailable(id)`, the away counterpart; the home side is untouched. */
  lemma RemoveAwayUnavailableRestoresMember(m: Match, id: string)
    requires m.away.Some?
    ensures var m' := WithAwayAvailable(m, id);
      && AwayUnavailable(m') == Select(AwayUnavailable(m), {id}, false)
      && (forall u :: u in AwayAvailable(m') <==> u in AwayAvailable(m) || (u in m.away.value.members && u.id == id))
      && m'.home == m.home && m'.homeNotAvailable == m.homeNotAvailable
  {
    SelectAfterRemove(m.away.value.members, m.awayNotAvailable, id);
    RosterPartition(m.away.value.members, m.awayNotAvailable);
    RosterPartition(m.away.value.members, m.awayNotAvailable - {id});
  }

  /** The four set updates are idempotent, and removing an id that an add put
      there gives back the match as it was. */
  lemma UpdatesAreIdempotent(m: Match, id: string)
    ensures WithHomeUnavailable(WithHomeUnavailable(m, id), id) == WithHomeUnavailable(m, id)
    ensures WithHomeAvailable(WithHomeAvailable(m, id), id) == WithHomeAvailable(m, id)
    ensures WithAwayUnavailable(WithAwayUnavailable(m, id), id) == WithAwayUnavailable(m, id)
    ensures WithAwayAvailable(WithAwayAvailable(m, id), id) == WithAwayAvailable(m, id)
    ensures id !in m.homeNotAvailable ==> WithHomeAvailable(WithHomeUnavailable(m, id), id) == m
    ensures id !in m.awayNotAvailable ==> WithAwayAvailable(WithAwayUnavailable(m, id), id) == m
  {
  }
}
