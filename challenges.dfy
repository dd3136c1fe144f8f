/** The browse-challenges page: every challenge, newest start date first, optionally
    narrowed to one stored status, with a join button that adds the signed-in user as an
    active participant unless they already are one. */
module Challenges {

  import opened Common
  import opened Sorting
  import opened Store

  datatype FilterType = All | ActiveOnly | UpcomingOnly

  /** The stored status a filter other than All keeps. */
  function StatusName(filter: FilterType): string
  {
    match filter
    case All => ""
    case ActiveOnly => "active"
    case UpcomingOnly => "upcoming"
  }

  /** The sort key of the list: the start date (newest first when sorted descending). */
  function StartDate(c: ChallengeDoc): int
  {
    c.startDate
  }

  /** The challenges whose stored status is `status`, in their given order. */
  function StatusIs(docs: seq<ChallengeDoc>, status: string): (r: seq<ChallengeDoc>)
    ensures forall c :: c in r <==> c in docs && c.status == status
    ensures |r| <= |docs|
  {
    if docs == [] then []
    else
      var last := docs[|docs| - 1];
      assert forall c :: c in docs <==> c in docs[..|docs| - 1] || c == last;
      StatusIs(docs[..|docs| - 1], status) + (if last.status == status then [last] else [])
  }

  /** Filtering distributes over concatenation, so the kept challenges stay in list order. */
  lemma {:induction false} StatusIsSplit(a: seq<ChallengeDoc>, b: seq<ChallengeDoc>, status: string)
    ensures StatusIs(a + b, status) == StatusIs(a, status) + StatusIs(b, status)
    decreases |b|
  {
    if b == [] {
      assert a + b == a;
    } else {
      var n := |b| - 1;
      assert (a + b)[..|a + b| - 1] == a + b[..n];
      StatusIsSplit(a, b[..n], status);
    }
  }

  /** The list under a filter: everything for All, otherwise exactly the challenges with that
      status. */
  function FilteredChallenges(challenges: seq<ChallengeDoc>, filter: FilterType): (r: seq<ChallengeDoc>)
    ensures filter == All ==> r == challenges
    ensures filter != All ==> forall c :: c in r <==> c in challenges && c.status == StatusName(filter)
  {
    if filter == All then challenges else StatusIs(challenges, StatusName(filter))
  }

  /** Filtering a list that is newest first keeps it newest first. */
  lemma FilteredStaysSorted(challenges: seq<ChallengeDoc>, filter: FilterType)
    requires SortedDesc(challenges, StartDate)
    ensures SortedDesc(FilteredChallenges(challenges, filter), StartDate)
  {
    if filter != All {
      StatusIsSorted(challenges, StatusName(filter));
    }
  }

  lemma {:induction false} StatusIsSorted(docs: seq<ChallengeDoc>, status: string)
    requires SortedDesc(docs, StartDate)
    ensures SortedDesc(StatusIs(docs, status), StartDate)
  {
    if docs != [] {
      var n := |docs| - 1;
      var front := StatusIs(docs[..n], status);
      assert SortedDesc(docs[..n], StartDate);
      StatusIsSorted(docs[..n], status);
      if docs[n].status == status {
        var r := front + [docs[n]];
        forall i, j | 0 <= i < j < |r| ensures StartDate(r[i]) >= StartDate(r[j]) {
          assert r[i] == front[i];
          if j == |front| {
            assert front[i] in docs[..n];
            var k :| 0 <= k < n && docs[..n][k] == front[i];
            assert docs[k] == r[i] && docs[n] == r[j];
          } else {
            assert r[j] == front[j];
          }
        }
        assert StatusIs(docs, status) == r;
      }
    }
  }

  /** The signed-in user as the authentication service describes them. */
  datatype User = User(uid: Id, email: string, displayName: string)

  /** The name stored on a membership: the display name, or the e-mail when there is none. */
  function NameOf(user: User): (name: string)
    ensures user.displayName != "" ==> name == user.displayName
    ensures user.displayName == "" ==> name == user.email
  {
    if user.displayName != "" then user.displayName else user.email
  }

  datatype Message = NoMessage | AlreadyJoined | Joined

  class ChallengesPage {
    const db: Db
    const user: Option<User>
    var challenges: seq<ChallengeDoc>
    var participants: seq<ParticipantDoc>
    var filter: FilterType
    var message: Message

    constructor (db: Db, user: Option<User>)
      ensures this.db == db && this.user == user
      ensures challenges == [] && participants == [] && filter == All && message == NoMessage
    {
      this.db := db;
      this.user := user;
      challenges := [];
      participants := [];
      filter := All;
      message := NoMessage;
    }

    /** Whether the loaded memberships include the challenge. */
    predicate IsUserJoined(challengeId: Id)
      reads this
    {
      exists p | p in participants :: p.challengeId == challengeId
    }

    /** Loads every challenge, newest start date first (ties in store order), and the user's
        active memberships. */
    method FetchData()
      modifies this`challenges, this`participants
      ensures challenges == SortDesc(db.challenges, StartDate)
      ensures SortedDesc(challenges, StartDate) && multiset(challenges) == multiset(db.challenges)
      ensures forall v :: WithKey(challenges, StartDate, v) == WithKey(db.challenges, StartDate, v)
      ensures user.Some? ==> participants == WithStatus(ParticipationsOf(db.participants, user.value.uid), "active")
      ensures user.Some? ==> forall id :: IsUserJoined(id) <==> ActiveMember(db.participants, user.value.uid, id)
      ensures user.None? ==> participants == old(participants)
    {
      challenges := SortDesc(db.challenges, StartDate);
      SortDescSorted(db.challenges, StartDate);
      forall v ensures WithKey(challenges, StartDate, v) == WithKey(db.challenges, StartDate, v) {
        SortDescStable(db.challenges, StartDate, v);
      }
      if user.Some? {
        participants := WithStatus(ParticipationsOf(db.participants, user.value.uid), "active");
        forall id ensures IsUserJoined(id) <==> ActiveMember(db.participants, user.value.uid, id) {
          if ActiveMember(db.participants, user.value.uid, id) {
            var p :| p in db.participants && p.userId == user.value.uid && p.status == "active" && p.challengeId == id;
            assert p in participants;
          }
        }
      }
    }

    /** Joins the challenge: refused when the loaded memberships already include it;
        otherwise one active membership is stored and the page reloads. */
    method HandleJoinChallenge(challengeId: Id)
      modifies db`participants, this`challenges, this`participants, this`message
      ensures user.None? ==>
        db.participants == old(db.participants) && message == old(message) &&
        challenges == old(challenges) && participants == old(participants)
      ensures user.Some? && old(IsUserJoined(challengeId)) ==>
        message == AlreadyJoined && db.participants == old(db.participants) &&
        challenges == old(challenges) && participants == old(participants)
      ensures user.Some? && !old(IsUserJoined(challengeId)) ==>
        var u := user.value;
        db.participants == old(db.participants) + [ParticipantDoc(u.uid, NameOf(u), u.email, challengeId, "active")] &&
        message == Joined && IsUserJoined(challengeId) &&
        challenges == SortDesc(db.challenges, StartDate) &&
        participants == WithStatus(ParticipationsOf(db.participants, u.uid), "active")
    {
      if user.None? {
        return;
      }
      if IsUserJoined(challengeId) {
        message := AlreadyJoined;
        return;
      }
      var u := user.value;
      var doc := ParticipantDoc(u.uid, NameOf(u), u.email, challengeId, "active");
      db.AddParticipant(doc);
      assert doc in db.participants;
      FetchData();
      message := Joined;
    }
  }

  /** Joining twice stores at most one membership: the second attempt is refused, and the
      first stores one exactly when the user was not yet an active member. */
  method JoinTwice(db: Db, user: User, challengeId: Id) returns (page: ChallengesPage)
    modifies db`participants
    ensures page.message == AlreadyJoined
    ensures old(ActiveMember(db.participants, user.uid, challengeId)) ==> db.participants == old(db.participants)
    ensures !old(ActiveMember(db.participants, user.uid, challengeId)) ==>
      db.participants == old(db.participants) + [ParticipantDoc(user.uid, NameOf(user), user.email, challengeId, "active")]
  {
    page := new ChallengesPage(db, Some(user));
    page.FetchData();
    page.HandleJoinChallenge(challengeId);
    page.HandleJoinChallenge(challengeId);
  }
}
