/** The dashboard: the user's active challenges, the statistics and calendar of the selected
    one, and the ten most recent planks, listed after sorting the page's planks newest first
    in place. */
module Dashboard {

  import opened Common
  import opened Sorting
  import opened PlankStats
  import opened Calendar
  import opened Store

  /** How many planks the recent list shows at most. */
  const RecentCount := 10

  /** The date of a stored plank, as a sort key. */
  function DocDate(p: PlankDoc): int
  {
    p.date
  }

  /** Taking the records of one date commutes with turning documents into records. */
  lemma {:induction false} RecordsWithKey(s: seq<PlankDoc>, d: Day)
    ensures WithKey(Records(s), PlankDate, d) == Records(WithKey(s, DocDate, d))
  {
    if s != [] {
      var head := if s[0].date == d then [s[0]] else [];
      assert s == [s[0]] + s[1..];
      RecordsSplit([s[0]], s[1..]);
      RecordsSplit(head, WithKey(s[1..], DocDate, d));
      RecordsWithKey(s[1..], d);
      var r := Records(s);
      assert r[0] == Plank(s[0].date, s[0].duration);
      assert r[1..] == Records(s[1..]);
    }
  }

  class DashboardPage {
    const db: Db
    const user: Id
    var challenges: seq<ChallengeDoc>
    var selectedChallengeId: Id
    var planks: seq<PlankDoc>
    var stats: Option<Stats>

    constructor (db: Db, user: Id)
      ensures this.db == db && this.user == user
      ensures challenges == [] && selectedChallengeId == "" && planks == [] && stats.None?
    {
      this.db := db;
      this.user := user;
      challenges := [];
      selectedChallengeId := "";
      planks := [];
      stats := None;
    }

    /** Loads the user's planks in one challenge and computes the statistics from exactly
        their (date, duration) pairs. */
    method FetchPlanksForChallenge(challengeId: Id, challenge: ChallengeDoc, today: Day)
      modifies this`planks, this`stats
      ensures forall p :: p in planks <==> p in db.planks && p.userId == user && p.challengeId == challengeId
      ensures planks == PlanksOf(db.planks, user, challengeId)
      ensures stats == Some(StatsOf(Records(planks), challenge.startDate, challenge.endDate, today))
    {
      planks := PlanksOf(db.planks, user, challengeId);
      var calculated := CalculatePlankStats(Records(planks), challenge.startDate, challenge.endDate, today);
      stats := Some(calculated);
    }

    /** The challenge ids of the user's memberships, keeping the active ones on the page:
        the same ids, in the same order, as asking the store for active memberships only. */
    method ActiveChallengeIds() returns (ids: seq<Id>)
      ensures ids == ActiveChallengeIdsOf(db.participants, user)
      ensures forall id :: id in ids <==> ActiveMember(db.participants, user, id)
    {
      ids := ChallengeIds(WithStatus(ParticipationsOf(db.participants, user), "active"));
      ActiveIdsTwoStep(db.participants, user);
    }

    /** Loads the challenges of the user's active memberships (filtering their memberships by
        status on the page) and selects the first. With no active membership the page is left
        as it was. */
    method FetchUserData(today: Day)
      modifies this`challenges, this`selectedChallengeId, this`planks, this`stats
      ensures var ids := ActiveChallengeIdsOf(db.participants, user);
        && (ids == [] ==> challenges == old(challenges))
        && (ids != [] ==> challenges == ChallengesByIds(db.challenges, ids))
      ensures ActiveChallengeIdsOf(db.participants, user) != [] ==>
        forall c :: c in challenges ==> c in db.challenges && ActiveMember(db.participants, user, c.id)
      ensures ActiveChallengeIdsOf(db.participants, user) != [] && challenges != [] ==>
        && selectedChallengeId == challenges[0].id
        && planks == PlanksOf(db.planks, user, challenges[0].id)
        && stats == Some(StatsOf(Records(planks), challenges[0].startDate, challenges[0].endDate, today))
      ensures ActiveChallengeIdsOf(db.participants, user) == [] || challenges == [] ==>
        selectedChallengeId == old(selectedChallengeId) && planks == old(planks) && stats == old(stats)
    {
      var ids := ActiveChallengeIds();
      if ids == [] {
        return;
      }
      var challengeData := ChallengesByIds(db.challenges, ids);
      MembershipChallenges(db.participants, db.challenges, user);
      challenges := challengeData;
      if |challengeData| > 0 {
        selectedChallengeId := challengeData[0].id;
        FetchPlanksForChallenge(challengeData[0].id, challengeData[0], today);
      }
    }

    /** Selects another loaded challenge and loads its planks; an unknown id only changes the
        selection. */
    method HandleChallengeChange(challengeId: Id, today: Day)
      modifies this`selectedChallengeId, this`planks, this`stats
      ensures selectedChallengeId == challengeId
      ensures match ChallengeById(challenges, challengeId)
        case Some(c) =>
          planks == PlanksOf(db.planks, user, challengeId) &&
          stats == Some(StatsOf(Records(planks), c.startDate, c.endDate, today))
        case None => planks == old(planks) && stats == old(stats)
    {
      selectedChallengeId := challengeId;
      var challenge := ChallengeById(challenges, challengeId);
      if challenge.Some? {
        FetchPlanksForChallenge(challengeId, challenge.value, today);
      }
    }

    /** The recent list: sorts the page's planks newest first in place (ties keep their
        order) and shows the first ten. Reordering the planks changes neither the
        statistics nor the calendar computed from them. */
    method RecentPlanks() returns (recent: seq<PlankDoc>)
      modifies this`planks
      ensures planks == SortDesc(old(planks), DocDate)
      ensures |recent| == Min(RecentCount, |planks|) && recent == planks[..|recent|]
      ensures SortedDesc(recent, DocDate)
      ensures forall i :: |recent| <= i < |planks| ==> planks[i].date <= recent[|recent| - 1].date
      ensures multiset(planks) == multiset(old(planks))
      ensures multiset(Records(planks)) == multiset(Records(old(planks)))
      ensures forall startDate, endDate, today ::
        StatsOf(Records(planks), startDate, endDate, today) == StatsOf(Records(old(planks)), startDate, endDate, today)
      ensures forall startDate, endDate, today ::
        CalendarOf(Records(planks), startDate, endDate, today) == CalendarOf(Records(old(planks)), startDate, endDate, today)
    {
      var sorted := SortDesc(planks, DocDate);
      SortDescSorted(planks, DocDate);
      RecordsPermutation(sorted, planks);
      forall startDate, endDate, today ensures
        StatsOf(Records(sorted), startDate, endDate, today) == StatsOf(Records(planks), startDate, endDate, today)
      {
        StatsIgnoreOrder(Records(sorted), Records(planks), startDate, endDate, today);
      }
      forall d ensures WithKey(Records(sorted), PlankDate, d) == WithKey(Records(planks), PlankDate, d) {
        SortDescStable(planks, DocDate, d);
        RecordsWithKey(sorted, d);
        RecordsWithKey(planks, d);
      }
      forall startDate, endDate, today ensures
        CalendarOf(Records(sorted), startDate, endDate, today) == CalendarOf(Records(planks), startDate, endDate, today)
      {
        CalendarSameByDate(Records(sorted), Records(planks), startDate, endDate, today);
      }
      planks := sorted;
      recent := planks[..Min(RecentCount, |planks|)];
    }
  }
}
