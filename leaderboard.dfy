/** The leaderboard of one challenge: an entry per active participant built from their
    records, sorted (stably, highest first) on a chosen statistic and ranked 1..N; and the
    fistbump rule — not to yourself, at most once per recipient, challenge and day. */
module Leaderboard {

  import opened Common
  import opened Sorting
  import opened PlankStats
  import opened Store

  datatype SortBy =
    | ByTotalTime | ByLongestPlank | ByDaysCompleted | ByCurrentStreak | ByAverageTime | ByImprovementRate

  /** One row of the board. Only its rank is ever written after it is built; the sorted copy
      holds the very same objects, so ranking it ranks the rows of the unsorted list too. */
  class Entry {
    const userId: Id
    const userName: string
    const userEmail: string
    const daysCompleted: int
    const totalTime: int
    const averageTime: int
    const longestPlank: int
    const currentStreak: int
    const improvementRate: int
    const fistbumpCount: int
    var rank: int

    constructor (p: ParticipantDoc, stats: Stats, improvement: int, fistbumps: int)
      ensures userId == p.userId && userName == p.userName && userEmail == p.userEmail
      ensures daysCompleted == stats.daysCompleted && totalTime == stats.totalTime
      ensures averageTime == stats.averageTime && longestPlank == stats.longestPlank
      ensures currentStreak == stats.currentStreak
      ensures improvementRate == improvement && fistbumpCount == fistbumps
      ensures rank == 0
    {
      userId, userName, userEmail := p.userId, p.userName, p.userEmail;
      daysCompleted, totalTime := stats.daysCompleted, stats.totalTime;
      averageTime, longestPlank := stats.averageTime, stats.longestPlank;
      currentStreak := stats.currentStreak;
      improvementRate, fistbumpCount := improvement, fistbumps;
      rank := 0;
    }
  }

  /** The statistic an entry is sorted on. */
  function Key(sortBy: SortBy): Entry -> int
  {
    match sortBy
    case ByTotalTime => (e: Entry) => e.totalTime
    case ByLongestPlank => (e: Entry) => e.longestPlank
    case ByDaysCompleted => (e: Entry) => e.daysCompleted
    case ByCurrentStreak => (e: Entry) => e.currentStreak
    case ByAverageTime => (e: Entry) => e.averageTime
    case ByImprovementRate => (e: Entry) => e.improvementRate
  }

  /** The entry of participant p: the statistics of their planks in challenge c, their
      improvement and the fistbumps they received there. */
  ghost predicate IsEntryOf(e: Entry, p: ParticipantDoc, c: ChallengeDoc,
                            planks: seq<PlankDoc>, fistbumps: seq<FistbumpDoc>, today: Day)
  {
    var records := Records(PlanksOf(planks, p.userId, c.id));
    var stats := StatsOf(records, c.startDate, c.endDate, today);
    && e.userId == p.userId && e.userName == p.userName && e.userEmail == p.userEmail
    && e.daysCompleted == stats.daysCompleted && e.totalTime == stats.totalTime
    && e.averageTime == stats.averageTime && e.longestPlank == stats.longestPlank
    && e.currentStreak == stats.currentStreak
    && e.improvementRate == Improvement(records)
    && e.fistbumpCount == FistbumpCount(fistbumps, p.userId, c.id)
  }

  /** The rows of the participants, one each and in their order. */
  ghost predicate EntriesOf(data: seq<Entry>, participants: seq<ParticipantDoc>, c: ChallengeDoc,
                            planks: seq<PlankDoc>, fistbumps: seq<FistbumpDoc>, today: Day)
  {
    |data| == |participants| &&
    forall i :: 0 <= i < |data| ==> IsEntryOf(data[i], participants[i], c, planks, fistbumps, today)
  }

  datatype FistbumpOutcome =
    | NotAllowed    // nobody signed in, or no challenge selected: nothing happens
    | SelfBump      // "You can't fistbump yourself"
    | AlreadyGiven  // "You already fistbumped ... today"
    | Sent          // "Fistbump sent to ..."

  class LeaderboardPage {
    const db: Db
    /** The signed-in user, if any. */
    const user: Option<Id>
    var challenges: seq<ChallengeDoc>
    var selectedChallengeId: Id
    var leaderboard: seq<Entry>
    var sortBy: SortBy

    ghost predicate Valid()
      reads this
    {
      Distinct(leaderboard)
    }

    /** The rows as the last fetch built them, before sorting. */
    ghost var rows: seq<Entry>

    /** The board shows the rows of challenge c's active participants, one each, sorted on the
        current key and ranked 1..N. */
    ghost predicate ShowsBoardOf(c: ChallengeDoc, today: Day)
      reads this, db, leaderboard
    {
      && EntriesOf(rows, ActiveParticipantsOf(db.participants, c.id), c, db.planks, db.fistbumps, today)
      && leaderboard == SortDesc(rows, Key(sortBy))
      && forall i :: 0 <= i < |leaderboard| ==> leaderboard[i].rank == i + 1
    }

    constructor (db: Db, user: Option<Id>, challenges: seq<ChallengeDoc>, selectedChallengeId: Id)
      ensures this.db == db && this.user == user
      ensures this.challenges == challenges && this.selectedChallengeId == selectedChallengeId
      ensures leaderboard == [] && sortBy == ByTotalTime
      ensures Valid()
    {
      this.db := db;
      this.user := user;
      this.challenges := challenges;
      this.selectedChallengeId := selectedChallengeId;
      leaderboard := [];
      sortBy := ByTotalTime;
      rows := [];
    }

    /** Sorts a copy of the rows highest first on the chosen statistic, keeping tied rows in
        their order, numbers them 1..N in that order and shows the copy. */
    method SortLeaderboard(data: seq<Entry>, sortField: SortBy)
      requires Distinct(data)
      modifies this`leaderboard, data
      ensures leaderboard == SortDesc(data, Key(sortField))
      ensures multiset(leaderboard) == multiset(data)
      ensures SortedDesc(leaderboard, Key(sortField))
      ensures forall v :: WithKey(leaderboard, Key(sortField), v) == WithKey(data, Key(sortField), v)
      ensures forall i :: 0 <= i < |leaderboard| ==> leaderboard[i].rank == i + 1
      ensures Valid()
    {
      var sorted := SortDesc(data, Key(sortField));
      DistinctPermutation(data, sorted);
      SortDescSorted(data, Key(sortField));
      forall v ensures WithKey(sorted, Key(sortField), v) == WithKey(data, Key(sortField), v) {
        SortDescStable(data, Key(sortField), v);
      }
      for i := 0 to |sorted|
        invariant forall j :: 0 <= j < i ==> sorted[j].rank == j + 1
      {
        assert sorted[i] in multiset(data);
        sorted[i].rank := i + 1;
      }
      leaderboard := sorted;
    }

    /** A new sort key re-sorts the rows already loaded; nothing is fetched. */
    method HandleSortChange(newSortBy: SortBy)
      requires Valid()
      modifies this`sortBy, this`leaderboard, leaderboard
      ensures Valid()
      ensures sortBy == newSortBy
      ensures leaderboard == SortDesc(old(leaderboard), Key(newSortBy))
      ensures forall i :: 0 <= i < |leaderboard| ==> leaderboard[i].rank == i + 1
    {
      sortBy := newSortBy;
      SortLeaderboard(leaderboard, newSortBy);
    }

    /** The row of one participant of challenge c. */
    method BuildEntry(p: ParticipantDoc, c: ChallengeDoc, today: Day) returns (e: Entry)
      ensures fresh(e) && e.rank == 0
      ensures IsEntryOf(e, p, c, db.planks, db.fistbumps, today)
    {
      var records := Records(PlanksOf(db.planks, p.userId, c.id));
      var stats := CalculatePlankStats(records, c.startDate, c.endDate, today);
      var improvement := Improvement(records);
      var fistbumpCount := FistbumpCount(db.fistbumps, p.userId, c.id);
      e := new Entry(p, stats, improvement, fistbumpCount);
    }

    /** One fresh row per participant, in the participants' order. */
    method BuildEntries(participants: seq<ParticipantDoc>, c: ChallengeDoc, today: Day)
      returns (data: seq<Entry>)
      ensures EntriesOf(data, participants, c, db.planks, db.fistbumps, today)
      ensures forall i :: 0 <= i < |data| ==> fresh(data[i])
      ensures Distinct(data)
    {
      data := [];
      for i := 0 to |participants|
        invariant |data| == i
        invariant forall j :: 0 <= j < i ==> IsEntryOf(data[j], participants[j], c, db.planks, db.fistbumps, today)
        invariant forall j :: 0 <= j < i ==> fresh(data[j])
        invariant Distinct(data)
      {
        var e := BuildEntry(participants[i], c, today);
        data := data + [e];
      }
    }

    /** Builds one row per active participant of challenge c, in store order, and shows them
        sorted on the current key. */
    method FetchLeaderboard(c: ChallengeDoc, today: Day)
      modifies this`leaderboard, this`rows
      ensures ShowsBoardOf(c, today) && Valid()
      ensures forall i :: 0 <= i < |rows| ==> fresh(rows[i])
    {
      var data := BuildEntries(ActiveParticipantsOf(db.participants, c.id), c, today);
      SortLeaderboard(data, sortBy);
      rows := data;
    }

    /** Loads the challenges of the signed-in user's active memberships and shows the board of
        the first. With no active membership the page is left as it was. */
    method FetchUserChallenges(today: Day)
      requires user.Some?
      modifies this`challenges, this`selectedChallengeId, this`leaderboard, this`rows
      ensures var ids := ActiveChallengeIdsOf(db.participants, user.value);
        && (ids == [] ==> challenges == old(challenges) && selectedChallengeId == old(selectedChallengeId)
                          && leaderboard == old(leaderboard))
        && (ids != [] ==> challenges == ChallengesByIds(db.challenges, ids))
      ensures ActiveChallengeIdsOf(db.participants, user.value) != [] ==>
        forall c :: c in challenges ==> c in db.challenges && ActiveMember(db.participants, user.value, c.id)
      ensures ActiveChallengeIdsOf(db.participants, user.value) != [] && challenges != [] ==>
        selectedChallengeId == challenges[0].id && ShowsBoardOf(challenges[0], today) && Valid()
      ensures challenges == [] ==> selectedChallengeId == old(selectedChallengeId) && leaderboard == old(leaderboard)
    {
      var ids := ActiveChallengeIdsOf(db.participants, user.value);
      if ids == [] {
        return;
      }
      var challengeData := ChallengesByIds(db.challenges, ids);
      MembershipChallenges(db.participants, db.challenges, user.value);
      challenges := challengeData;
      if |challengeData| > 0 {
        selectedChallengeId := challengeData[0].id;
        FetchLeaderboard(challengeData[0], today);
      }
    }

    /** Selects another loaded challenge and shows its board; an unknown id only changes the
        selection. */
    method HandleChallengeChange(challengeId: Id, today: Day)
      modifies this`selectedChallengeId, this`leaderboard, this`rows
      ensures selectedChallengeId == challengeId
      ensures match ChallengeById(challenges, challengeId)
        case Some(c) => ShowsBoardOf(c, today) && Valid()
        case None => leaderboard == old(leaderboard)
    {
      selectedChallengeId := challengeId;
      var challenge := ChallengeById(challenges, challengeId);
      if challenge.Some? {
        FetchLeaderboard(challenge.value, today);
      }
    }

    /** Sends a fistbump from the signed-in user to toUserId in the selected challenge, dated
        today, unless it is to themselves or one was already sent today; then refreshes the
        board. */
    method GiveFistbump(toUserId: Id, today: Day) returns (outcome: FistbumpOutcome)
      modifies db`fistbumps, this`leaderboard, this`rows
      ensures outcome == NotAllowed <==> user.None? || selectedChallengeId == ""
      ensures outcome == SelfBump <==> user.Some? && selectedChallengeId != "" && toUserId == user.value
      ensures outcome == AlreadyGiven <==>
        user.Some? && selectedChallengeId != "" && toUserId != user.value &&
        FistbumpGivenOn(old(db.fistbumps), user.value, toUserId, selectedChallengeId, today)
      ensures outcome == Sent ==>
        db.fistbumps == old(db.fistbumps) + [FistbumpDoc(user.value, toUserId, selectedChallengeId, today)]
      ensures outcome != Sent ==> db.fistbumps == old(db.fistbumps) && leaderboard == old(leaderboard)
      ensures outcome == Sent ==>
        FistbumpCount(db.fistbumps, toUserId, selectedChallengeId) ==
        FistbumpCount(old(db.fistbumps), toUserId, selectedChallengeId) + 1
      ensures outcome in {Sent, AlreadyGiven} ==>
        FistbumpGivenOn(db.fistbumps, user.value, toUserId, selectedChallengeId, today)
      ensures outcome == Sent && ChallengeById(challenges, selectedChallengeId).Some? ==>
        ShowsBoardOf(ChallengeById(challenges, selectedChallengeId).value, today) && Valid()
      ensures outcome == Sent && ChallengeById(challenges, selectedChallengeId).None? ==> leaderboard == old(leaderboard)
      ensures Valid() || leaderboard == old(leaderboard)
    {
      if user.None? || selectedChallengeId == "" {
        return NotAllowed;
      }
      var from := user.value;
      if toUserId == from {
        return SelfBump;
      }
      if FistbumpGivenOn(db.fistbumps, from, toUserId, selectedChallengeId, today) {
        return AlreadyGiven;
      }
      var bump := FistbumpDoc(from, toUserId, selectedChallengeId, today);
      FistbumpCountAppend(db.fistbumps, bump, toUserId, selectedChallengeId);
      db.AddFistbump(bump);
      assert bump in db.fistbumps;
      outcome := Sent;
      var challenge := ChallengeById(challenges, selectedChallengeId);
      if challenge.Some? {
        FetchLeaderboard(challenge.value, today);
      }
    }
  }
}
