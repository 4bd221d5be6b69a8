/** Which teams and users take part in a match, and when two match records
    describe the same fixture. */
module Identity {
  import opened Domain
  import opened MatchState

  /** `hasTeam(t)`: false while either side is unset, otherwise whether `t` is
      (by id) the home or the away team. */
  predicate HasTeam(m: Match, t: Option<Team>) {
    if m.home.None? || m.away.None? then false
    else TeamEquals(m.home.value, t) || TeamEquals(m.away.value, t)
  }

  /** `hasBothTeams(a, b)`. */
  predicate HasBothTeams(m: Match, a: Option<Team>, b: Option<Team>) {
    HasTeam(m, a) && HasTeam(m, b)
  }

  /** Both participants are in the match, null and any third team are not, and
      `HasBothTeams` does not depend on the order of its arguments. */
  lemma HasTeamIsTheParticipants(m: Match, t: Option<Team>, a: Option<Team>, b: Option<Team>)
    ensures m.home.Some? && m.away.Some? ==> HasTeam(m, m.home) && HasTeam(m, m.away)
    ensures HasTeam(m, t) <==> m.home.Some? && m.away.Some? && t.Some?
                               && (t.value.id == m.home.value.id || t.value.id == m.away.value.id)
    ensures !HasTeam(m, None)
    ensures HasBothTeams(m, a, b) == HasBothTeams(m, b, a)
  {
  }

  /** `isSameMatch(t1, t2)`: equal dates and the same two teams in the same or
      the swapped order. The receiver-side dereferences of the source need the
      second date and the first match's teams wherever they are read. */
  predicate IsSameMatch(t1: Match, t2: Match)
    requires t2.matchDate.Some? && t1.home.Some?
    requires TeamEquals(t1.home.value, t2.home) || TeamEquals(t1.home.value, t2.away) ==> t1.away.Some?
  {
    if t2.matchDate != t1.matchDate then false
    else if TeamEquals(t1.home.value, t2.home) && TeamEquals(t1.away.value, t2.away) then true
    else TeamEquals(t1.home.value, t2.away) && TeamEquals(t1.away.value, t2.home)
  }

  /** Two fully set match records are the same match exactly when their dates
      are equal and their unordered pairs of team ids are equal; the relation is
      therefore symmetric. */
  lemma SameMatchIsSameDateAndPair(t1: Match, t2: Match)
    requires t1.matchDate.Some? && t1.home.Some? && t1.away.Some?
    requires t2.matchDate.Some? && t2.home.Some? && t2.away.Some?
    ensures IsSameMatch(t1, t2) <==>
      t1.matchDate == t2.matchDate
      && multiset{t1.home.value.id, t1.away.value.id} == multiset{t2.home.value.id, t2.away.value.id}
    ensures IsSameMatch(t1, t2) == IsSameMatch(t2, t1)
    ensures t1.matchDate != t2.matchDate ==> !IsSameMatch(t1, t2)
  {
  }

  /** `hasUser(u)`: `u` is on either roster; the away roster is read only when
      `u` is not on the home one. */
  predicate HasUser(m: Match, u: User)
    requires m.home.Some? && (u !in m.home.value.members ==> m.away.Some?)
  {
    u in m.home.value.members || u in m.away.value.members
  }

  /** `getOpponentTeam()`: null without a reference user, else the side the
      reference user is not on (away when the user is on the home roster). */
  function OpponentTeam(m: Match): Option<Team>
    requires m.referenceUser.Some? ==> m.home.Some?
  {
    if m.referenceUser.None? then None
    else if m.referenceUser.value in m.home.value.members then m.away
    else m.home
  }

  /** The opponent is the side whose roster does not hold the reference user,
      whenever exactly one roster holds that user. */
  lemma OpponentIsTheOtherSide(m: Match)
    requires m.home.Some? && m.away.Some? && m.referenceUser.Some?
    requires HasUser(m, m.referenceUser.value)
    requires !(m.referenceUser.value in m.home.value.members && m.referenceUser.value in m.away.value.members)
    ensures OpponentTeam(m).Some?
    ensures m.referenceUser.value !in OpponentTeam(m).value.members
    ensures OpponentTeam(m) == m.home || OpponentTeam(m) == m.away
  {
  }
}
