/** The record-plank page: the signed-in user picks one of their running challenges, starts
    the timer unless they already have a plank stored for today, and on stopping stores a
    plank of at least 10 seconds dated today. */
module RecordPlank {

  import opened Common
  import opened Store
  import opened Timer

  /** The shortest plank the page stores, in seconds. */
  const MinimumSeconds := 10

  /** The challenges running on `today`: started on or before it and ending on or after it,
      in their given order. */
  function ActiveChallenges(docs: seq<ChallengeDoc>, today: Day): (r: seq<ChallengeDoc>)
    ensures forall c :: c in r <==> c in docs && c.startDate <= today <= c.endDate
    ensures |r| <= |docs|
  {
    if docs == [] then []
    else
      var last := docs[|docs| - 1];
      assert forall c :: c in docs <==> c in docs[..|docs| - 1] || c == last;
      ActiveChallenges(docs[..|docs| - 1], today)
      + (if last.startDate <= today <= last.endDate then [last] else [])
  }

  /** The error banner of the page. */
  datatype Message = NoMessage | SelectChallenge | TooShort

  /** The challenges offered are exactly the running challenges the user is an active member
      of. */
  lemma {:induction false} OfferedChallenges(participants: seq<ParticipantDoc>, challenges: seq<ChallengeDoc>,
                                             userId: Id, today: Day)
    requires UniqueIds(challenges)
    ensures var offered := ActiveChallenges(ChallengesByIds(challenges, ActiveChallengeIdsOf(participants, userId)), today);
      forall c :: c in offered <==>
        c in challenges && c.startDate <= today <= c.endDate && ActiveMember(participants, userId, c.id)
  {
    var ids := ActiveChallengeIdsOf(participants, userId);
    var byIds := ChallengesByIds(challenges, ids);
    forall c | c in challenges && c.startDate <= today <= c.endDate && ActiveMember(participants, userId, c.id)
      ensures c in byIds
    {
      assert c.id in ids;
      var d :| d in byIds && d.id == c.id;
      assert d == c;
    }
  }

  class RecordPlankPage {
    const db: Db
    /** The signed-in user; the page renders nothing without one. */
    const user: Id
    var challenges: seq<ChallengeDoc>
    var selectedChallenge: Id
    var alreadyRecorded: bool
    var showTimer: bool
    var completed: bool
    var recordedDuration: nat
    var error: Message

    constructor (db: Db, user: Id)
      ensures this.db == db && this.user == user
      ensures challenges == [] && selectedChallenge == ""
      ensures !alreadyRecorded && !showTimer && !completed && recordedDuration == 0
      ensures error == NoMessage
    {
      this.db := db;
      this.user := user;
      challenges := [];
      selectedChallenge := "";
      alreadyRecorded, showTimer, completed := false, false, false;
      recordedDuration := 0;
      error := NoMessage;
    }

    /** Loads the user's running challenges; when there is exactly one it is selected. A user
        with no active membership leaves the page as it was. */
    method FetchUserChallenges(today: Day)
      modifies this`challenges, this`selectedChallenge
      ensures var ids := ActiveChallengeIdsOf(db.participants, user);
        ids != [] ==> challenges == ActiveChallenges(ChallengesByIds(db.challenges, ids), today)
      ensures ActiveChallengeIdsOf(db.participants, user) == [] ==>
        challenges == old(challenges) && selectedChallenge == old(selectedChallenge)
      ensures ActiveChallengeIdsOf(db.participants, user) != [] ==>
        forall c :: c in challenges ==>
          c in db.challenges && c.startDate <= today <= c.endDate && ActiveMember(db.participants, user, c.id)
      ensures ActiveChallengeIdsOf(db.participants, user) != [] && |challenges| == 1 ==>
        selectedChallenge == challenges[0].id
      ensures |challenges| != 1 ==> selectedChallenge == old(selectedChallenge)
    {
      var ids := ActiveChallengeIdsOf(db.participants, user);
      if ids == [] {
        return;
      }
      var active := ActiveChallenges(ChallengesByIds(db.challenges, ids), today);
      challenges := active;
      if |active| == 1 {
        selectedChallenge := active[0].id;
      }
    }

    /** Picks a challenge from the drop-down. */
    method Select(challengeId: Id)
      modifies this`selectedChallenge
      ensures selectedChallenge == challengeId
    {
      selectedChallenge := challengeId;
    }

    /** Shows the timer, unless no challenge is selected (an error) or a plank is already
        stored for the selected challenge today (the "already recorded" screen). */
    method HandleStartTimer(today: Day)
      modifies this`error, this`alreadyRecorded, this`showTimer
      ensures selectedChallenge == "" ==>
        error == SelectChallenge && alreadyRecorded == old(alreadyRecorded) && showTimer == old(showTimer)
      ensures selectedChallenge != "" ==> error == old(error)
      ensures selectedChallenge != "" && HasPlankOn(db.planks, user, selectedChallenge, today) ==>
        alreadyRecorded && showTimer == old(showTimer)
      ensures selectedChallenge != "" && !HasPlankOn(db.planks, user, selectedChallenge, today) ==>
        showTimer && alreadyRecorded == old(alreadyRecorded)
    {
      if selectedChallenge == "" {
        error := SelectChallenge;
        return;
      }
      if HasPlankOn(db.planks, user, selectedChallenge, today) {
        alreadyRecorded := true;
        return;
      }
      showTimer := true;
    }

    /** The timer stopped after `duration` seconds: under the minimum it is refused with an
        error and nothing is stored; otherwise one plank dated today is stored for the
        selected challenge and the completion screen shows its duration. */
    method HandleTimerComplete(duration: int, today: Day)
      modifies db`planks, this`error, this`recordedDuration, this`completed
      ensures duration < MinimumSeconds ==>
        error == TooShort && db.planks == old(db.planks) &&
        recordedDuration == old(recordedDuration) && completed == old(completed)
      ensures duration >= MinimumSeconds ==>
        db.planks == old(db.planks) + [PlankDoc(user, selectedChallenge, today, duration)] &&
        error == NoMessage && recordedDuration == duration && completed
      ensures duration >= MinimumSeconds ==>
        HasPlankOn(db.planks, user, selectedChallenge, today) &&
        PlanksOf(db.planks, user, selectedChallenge) ==
          PlanksOf(old(db.planks), user, selectedChallenge) + [PlankDoc(user, selectedChallenge, today, duration)]
      ensures forall u, c :: u != user || c != selectedChallenge ==>
        PlanksOf(db.planks, u, c) == PlanksOf(old(db.planks), u, c)
    {
      if duration < MinimumSeconds {
        error := TooShort;
        return;
      }
      error := NoMessage;
      var doc := PlankDoc(user, selectedChallenge, today, duration);
      forall u, c ensures PlanksOf(db.planks + [doc], u, c) ==
        PlanksOf(db.planks, u, c) + (if u == user && c == selectedChallenge then [doc] else [])
      {
        PlanksOfAppend(db.planks, doc, u, c);
      }
      db.AddPlank(doc);
      assert doc in db.planks;
      recordedDuration := duration;
      completed := true;
    }
  }

  /** Stop & Save on the running timer hands its elapsed time to the page. The timer's
      minimum-time hint was showing exactly when the page refuses the plank and stores
      nothing. */
  method StopAndSave(page: RecordPlankPage, t: PlankTimer, today: Day) returns (duration: int)
    requires t.Valid() && t.ShowsStop()
    modifies t, page.db`planks, page`error, page`recordedDuration, page`completed
    ensures duration == old(t.elapsedTime) && !t.isRunning
    ensures old(t.ShowsMinimumHint()) <==> page.db.planks == old(page.db.planks)
    ensures old(t.ShowsMinimumHint()) ==> page.error == TooShort
    ensures !old(t.ShowsMinimumHint()) ==> page.completed && page.recordedDuration == duration
  {
    duration := t.Stop();
    page.HandleTimerComplete(duration, today);
  }

  /** Once a plank has been stored, starting the timer again the same day for the same
      challenge lands on the "already recorded" screen instead of the timer. */
  method RecordThenRestart(db: Db, user: Id, challengeId: Id, duration: int, today: Day)
    returns (page: RecordPlankPage)
    requires challengeId != "" && duration >= MinimumSeconds
    modifies db
    ensures page.alreadyRecorded && !page.showTimer && page.completed
    ensures db.planks == old(db.planks) + [PlankDoc(user, challengeId, today, duration)]
  {
    page := new RecordPlankPage(db, user);
    page.Select(challengeId);
    page.HandleTimerComplete(duration, today);
    assert page.selectedChallenge == challengeId && page.completed;
    assert HasPlankOn(db.planks, user, challengeId, today);
    page.HandleStartTimer(today);
  }
}
