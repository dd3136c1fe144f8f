/** The document store the pages read and append to. Each collection is a sequence of
    documents in the order the store returns them; a query is a filter over it and `addDoc`
    appends one document. */
module Store {

  import opened Common
  import opened PlankStats

  type Id = string

  /** A document of the `planks` collection: one timed plank of one user in one challenge. */
  datatype PlankDoc = PlankDoc(userId: Id, challengeId: Id, date: Day, duration: nat)

  /** A document of the `participants` collection: a user's membership of a challenge. */
  datatype ParticipantDoc = ParticipantDoc(
    userId: Id, userName: string, userEmail: string, challengeId: Id, status: string)

  /** A document of the `challenges` collection, with its document id. */
  datatype ChallengeDoc = ChallengeDoc(
    id: Id, title: string, description: string, startDate: Day, endDate: Day,
    rules: Option<string>, status: string, adminId: Option<Id>)

  /** A document of the `fistbumps` collection: one encouragement sent on one day. */
  datatype FistbumpDoc = FistbumpDoc(fromUserId: Id, toUserId: Id, challengeId: Id, date: Day)

  class Db {
    var planks: seq<PlankDoc>
    var participants: seq<ParticipantDoc>
    var challenges: seq<ChallengeDoc>
    var fistbumps: seq<FistbumpDoc>

    constructor ()
      ensures planks == [] && participants == [] && challenges == [] && fistbumps == []
    {
      planks := [];
      participants := [];
      challenges := [];
      fistbumps := [];
    }

    method AddPlank(doc: PlankDoc)
      modifies this`planks
      ensures planks == old(planks) + [doc]
    {
      planks := planks + [doc];
    }

    method AddParticipant(doc: ParticipantDoc)
      modifies this`participants
      ensures participants == old(participants) + [doc]
    {
      participants := participants + [doc];
    }

    method AddChallenge(doc: ChallengeDoc)
      modifies this`challenges
      ensures challenges == old(challenges) + [doc]
    {
      challenges := challenges + [doc];
    }

    method AddFistbump(doc: FistbumpDoc)
      modifies this`fistbumps
      ensures fistbumps == old(fistbumps) + [doc]
    {
      fistbumps := fistbumps + [doc];
    }
  }

  // ---------------------------------------------------------------------------------------
  // Queries. Each keeps the store's order; each is defined from the last document back so
  // that appending a document extends the answer at its end.
  // ---------------------------------------------------------------------------------------

  /** The planks of one user in one challenge. */
  function PlanksOf(docs: seq<PlankDoc>, userId: Id, challengeId: Id): (r: seq<PlankDoc>)
    ensures forall p :: p in r <==> p in docs && p.userId == userId && p.challengeId == challengeId
    ensures |r| <= |docs|
  {
    if docs == [] then []
    else
      var last := docs[|docs| - 1];
      assert forall p :: p in docs <==> p in docs[..|docs| - 1] || p == last;
      PlanksOf(docs[..|docs| - 1], userId, challengeId)
      + (if last.userId == userId && last.challengeId == challengeId then [last] else [])
  }

  /** Storing one more plank adds it to its owner's list for its challenge, at the end, and
      changes no other list. */
  lemma PlanksOfAppend(docs: seq<PlankDoc>, doc: PlankDoc, userId: Id, challengeId: Id)
    ensures PlanksOf(docs + [doc], userId, challengeId) ==
      PlanksOf(docs, userId, challengeId) + (if doc.userId == userId && doc.challengeId == challengeId then [doc] else [])
  {
    assert (docs + [doc])[..|docs|] == docs;
  }

  /** Whether a plank for that user, challenge and day is stored. */
  predicate HasPlankOn(docs: seq<PlankDoc>, userId: Id, challengeId: Id, date: Day)
  {
    exists p | p in docs :: p.userId == userId && p.challengeId == challengeId && p.date == date
  }

  /** A plank is already recorded on a day exactly when the user's planks in the challenge
      include one of that date. */
  lemma HasPlankOnPlanksOf(docs: seq<PlankDoc>, userId: Id, challengeId: Id, date: Day)
    ensures HasPlankOn(docs, userId, challengeId, date) <==>
      exists p :: p in PlanksOf(docs, userId, challengeId) && p.date == date
  {
  }

  /** The (date, duration) pairs the statistics and the calendar work on. */
  function Records(docs: seq<PlankDoc>): seq<Plank>
  {
    seq(|docs|, i requires 0 <= i < |docs| => Plank(docs[i].date, docs[i].duration))
  }

  /** Reordering the documents reorders their records the same way. */
  lemma {:induction false} RecordsPermutation(a: seq<PlankDoc>, b: seq<PlankDoc>)
    requires multiset(a) == multiset(b)
    ensures multiset(Records(a)) == multiset(Records(b))
    decreases |a|
  {
    if a != [] {
      var i := PermutationTail(a, b);
      RecordsPermutation(a[1..], b[..i] + b[i + 1..]);
      RecordsRemove(b, i);
      assert a == [a[0]] + a[1..];
      RecordsSplit([a[0]], a[1..]);
    }
  }

  lemma RecordsRemove(b: seq<PlankDoc>, i: nat)
    requires i < |b|
    ensures multiset(Records(b)) ==
      multiset(Records(b[..i] + b[i + 1..])) + multiset{Plank(b[i].date, b[i].duration)}
  {
    assert b == b[..i] + [b[i]] + b[i + 1..];
    RecordsRemoveParts(b[..i], b[i], b[i + 1..]);
  }

  lemma RecordsRemoveParts(pre: seq<PlankDoc>, x: PlankDoc, post: seq<PlankDoc>)
    ensures multiset(Records(pre + [x] + post)) ==
      multiset(Records(pre + post)) + multiset{Plank(x.date, x.duration)}
  {
    RecordsSplit(pre + [x], post);
    RecordsSplit(pre, [x]);
    RecordsSplit(pre, post);
    assert Records([x]) == [Plank(x.date, x.duration)];
  }

  lemma RecordsSplit(a: seq<PlankDoc>, b: seq<PlankDoc>)
    ensures Records(a + b) == Records(a) + Records(b)
  {
    assert |Records(a + b)| == |Records(a) + Records(b)|;
    forall i | 0 <= i < |a + b| ensures Records(a + b)[i] == (Records(a) + Records(b))[i] {
      if i < |a| {
        assert (a + b)[i] == a[i];
      } else {
        assert (a + b)[i] == b[i - |a|];
      }
    }
  }

  /** The challenge ids of a user's active memberships, in store order. */
  function ActiveChallengeIdsOf(docs: seq<ParticipantDoc>, userId: Id): (r: seq<Id>)
    ensures forall id :: id in r <==>
      exists p :: p in docs && p.userId == userId && p.status == "active" && p.challengeId == id
  {
    if docs == [] then []
    else
      var last := docs[|docs| - 1];
      var init := docs[..|docs| - 1];
      assert forall p :: p in docs <==> p in init || p == last;
      ActiveChallengeIdsOf(init, userId)
      + (if last.userId == userId && last.status == "active" then [last.challengeId] else [])
  }

  /** Whether the user has an active membership of the challenge. */
  ghost predicate ActiveMember(participants: seq<ParticipantDoc>, userId: Id, challengeId: Id)
  {
    exists p :: p in participants && p.userId == userId && p.status == "active" && p.challengeId == challengeId
  }

  /** No two challenge documents share an id (document ids are unique in the store). */
  ghost predicate UniqueIds(docs: seq<ChallengeDoc>)
  {
    forall c, d :: c in docs && d in docs && c.id == d.id ==> c == d
  }

  /** All memberships of one user, whatever their status, in store order. */
  function ParticipationsOf(docs: seq<ParticipantDoc>, userId: Id): (r: seq<ParticipantDoc>)
    ensures forall p :: p in r <==> p in docs && p.userId == userId
  {
    if docs == [] then []
    else
      var last := docs[|docs| - 1];
      assert forall p :: p in docs <==> p in docs[..|docs| - 1] || p == last;
      ParticipationsOf(docs[..|docs| - 1], userId) + (if last.userId == userId then [last] else [])
  }

  /** The memberships with the given status, in their given order. */
  function WithStatus(docs: seq<ParticipantDoc>, status: string): (r: seq<ParticipantDoc>)
    ensures forall p :: p in r <==> p in docs && p.status == status
  {
    if docs == [] then []
    else
      var last := docs[|docs| - 1];
      assert forall p :: p in docs <==> p in docs[..|docs| - 1] || p == last;
      WithStatus(docs[..|docs| - 1], status) + (if last.status == status then [last] else [])
  }

  /** The challenge id of each membership. */
  function ChallengeIds(docs: seq<ParticipantDoc>): (r: seq<Id>)
    ensures |r| == |docs|
    ensures forall i :: 0 <= i < |docs| ==> r[i] == docs[i].challengeId
  {
    if docs == [] then [] else ChallengeIds(docs[..|docs| - 1]) + [docs[|docs| - 1].challengeId]
  }

  /** Filtering by status distributes over concatenation, so it keeps the order of the rest. */
  lemma {:induction false} WithStatusSplit(a: seq<ParticipantDoc>, b: seq<ParticipantDoc>, status: string)
    ensures WithStatus(a + b, status) == WithStatus(a, status) + WithStatus(b, status)
    decreases |b|
  {
    if b == [] {
      assert a + b == a;
    } else {
      var n := |b| - 1;
      assert (a + b)[..|a + b| - 1] == a + b[..n];
      WithStatusSplit(a, b[..n], status);
    }
  }

  lemma ChallengeIdsSplit(a: seq<ParticipantDoc>, b: seq<ParticipantDoc>)
    ensures ChallengeIds(a + b) == ChallengeIds(a) + ChallengeIds(b)
  {
    assert |ChallengeIds(a + b)| == |ChallengeIds(a) + ChallengeIds(b)|;
    forall i | 0 <= i < |a + b| ensures ChallengeIds(a + b)[i] == (ChallengeIds(a) + ChallengeIds(b))[i] {
      if i < |a| {
        assert (a + b)[i] == a[i];
      } else {
        assert (a + b)[i] == b[i - |a|];
      }
    }
  }

  /** The two-step filter on a store with one more document at the end. */
  lemma TwoStepLast(docs: seq<ParticipantDoc>, userId: Id)
    requires docs != []
    ensures var last := docs[|docs| - 1];
      ChallengeIds(WithStatus(ParticipationsOf(docs, userId), "active")) ==
      ChallengeIds(WithStatus(ParticipationsOf(docs[..|docs| - 1], userId), "active")) +
      (if last.userId == userId && last.status == "active" then [last.challengeId] else [])
  {
    var n := |docs| - 1;
    var init, last := docs[..n], docs[n];
    var mine := if last.userId == userId then [last] else [];
    var kept := if last.userId == userId && last.status == "active" then [last] else [];
    var front := WithStatus(ParticipationsOf(init, userId), "active");
    assert WithStatus(mine, "active") == kept by {
      if mine != [] {
        assert mine[..0] == [];
      }
    }
    assert ChallengeIds(kept) == (if kept == [] then [] else [last.challengeId]) by {
      if kept != [] {
        assert kept[..0] == [];
      }
    }
    calc {
      ChallengeIds(WithStatus(ParticipationsOf(docs, userId), "active"));
      ChallengeIds(WithStatus(ParticipationsOf(init, userId) + mine, "active"));
      { WithStatusSplit(ParticipationsOf(init, userId), mine, "active"); }
      ChallengeIds(front + kept);
      { ChallengeIdsSplit(front, kept); }
      ChallengeIds(front) + ChallengeIds(kept);
    }
  }

  /** Filtering the user's memberships by status and taking their challenge ids gives the
      same ids, in the same order, as querying the active memberships directly. */
  lemma {:induction false} ActiveIdsTwoStep(docs: seq<ParticipantDoc>, userId: Id)
    ensures ChallengeIds(WithStatus(ParticipationsOf(docs, userId), "active")) == ActiveChallengeIdsOf(docs, userId)
  {
    if docs != [] {
      TwoStepLast(docs, userId);
      ActiveIdsTwoStep(docs[..|docs| - 1], userId);
    }
  }

  /** The active members of one challenge, in store order. */
  function ActiveParticipantsOf(docs: seq<ParticipantDoc>, challengeId: Id): (r: seq<ParticipantDoc>)
    ensures forall p :: p in r <==> p in docs && p.challengeId == challengeId && p.status == "active"
    ensures |r| <= |docs|
  {
    if docs == [] then []
    else
      var last := docs[|docs| - 1];
      assert forall p :: p in docs <==> p in docs[..|docs| - 1] || p == last;
      ActiveParticipantsOf(docs[..|docs| - 1], challengeId)
      + (if last.challengeId == challengeId && last.status == "active" then [last] else [])
  }

  /** The document with the given id, if there is one (the first, should ids repeat). */
  function ChallengeById(docs: seq<ChallengeDoc>, id: Id): (r: Option<ChallengeDoc>)
    ensures r.Some? ==> r.value in docs && r.value.id == id
    ensures r.None? ==> forall c :: c in docs ==> c.id != id
  {
    if docs == [] then None
    else if docs[0].id == id then Some(docs[0])
    else ChallengeById(docs[1..], id)
  }

  /** The documents of a list of ids, skipping ids with no document, in the order of the ids. */
  function ChallengesByIds(docs: seq<ChallengeDoc>, ids: seq<Id>): (r: seq<ChallengeDoc>)
    ensures |r| <= |ids|
    ensures forall c :: c in r ==> c in docs && c.id in ids
    ensures forall id :: id in ids && (exists c :: c in docs && c.id == id) ==> exists c :: c in r && c.id == id
  {
    if ids == [] then []
    else
      var rest := ChallengesByIds(docs, ids[1..]);
      assert forall id :: id in ids <==> id == ids[0] || id in ids[1..];
      match ChallengeById(docs, ids[0])
      case None => rest
      case Some(c) => [c] + rest
  }

  /** The document of an id, as a list: one element when it exists, none otherwise. */
  function DocOf(docs: seq<ChallengeDoc>, id: Id): seq<ChallengeDoc>
  {
    match ChallengeById(docs, id)
    case None => []
    case Some(c) => [c]
  }

  /** One more id adds its document, if it has one, at the end: the documents come in the
      order of their ids. */
  lemma {:induction false} ChallengesByIdsAppend(docs: seq<ChallengeDoc>, ids: seq<Id>, id: Id)
    ensures ChallengesByIds(docs, ids + [id]) == ChallengesByIds(docs, ids) + DocOf(docs, id)
  {
    if ids == [] {
      assert ids + [id] == [id];
      assert ([id])[1..] == [];
    } else {
      assert (ids + [id])[0] == ids[0];
      assert (ids + [id])[1..] == ids[1..] + [id];
      ChallengesByIdsAppend(docs, ids[1..], id);
    }
  }

  /** When every id has a document, the i-th document loaded is the one of the i-th id. */
  lemma {:induction false} ChallengesByIdsInOrder(docs: seq<ChallengeDoc>, ids: seq<Id>)
    requires forall i :: 0 <= i < |ids| ==> ChallengeById(docs, ids[i]).Some?
    ensures |ChallengesByIds(docs, ids)| == |ids|
    ensures forall i :: 0 <= i < |ids| ==>
      ChallengesByIds(docs, ids)[i] == ChallengeById(docs, ids[i]).value && ChallengesByIds(docs, ids)[i].id == ids[i]
  {
    if ids != [] {
      var rest := ids[1..];
      forall i | 0 <= i < |rest| ensures ChallengeById(docs, rest[i]).Some? {
        assert rest[i] == ids[i + 1];
      }
      ChallengesByIdsInOrder(docs, rest);
      assert ChallengeById(docs, ids[0]).Some?;
      var c := ChallengeById(docs, ids[0]).value;
      var r := ChallengesByIds(docs, ids);
      assert r == [c] + ChallengesByIds(docs, rest);
      forall i | 0 <= i < |ids| ensures r[i] == ChallengeById(docs, ids[i]).value && r[i].id == ids[i] {
        if i > 0 {
          assert ids[i] == rest[i - 1];
          assert r[i] == ChallengesByIds(docs, rest)[i - 1];
        }
      }
    }
  }

  /** Every challenge loaded for a user's active memberships is stored and is one they are an
      active member of. */
  lemma MembershipChallenges(participants: seq<ParticipantDoc>, challenges: seq<ChallengeDoc>, userId: Id)
    ensures forall c :: c in ChallengesByIds(challenges, ActiveChallengeIdsOf(participants, userId)) ==>
      c in challenges && ActiveMember(participants, userId, c.id)
  {
  }

  /** The number of fistbumps one user has received in one challenge. */
  function FistbumpCount(docs: seq<FistbumpDoc>, toUserId: Id, challengeId: Id): (n: nat)
    ensures n <= |docs|
  {
    if docs == [] then 0
    else
      var last := docs[|docs| - 1];
      FistbumpCount(docs[..|docs| - 1], toUserId, challengeId)
      + (if last.toUserId == toUserId && last.challengeId == challengeId then 1 else 0)
  }

  /** Storing a fistbump raises its recipient's count in its challenge by one and leaves
      every other count alone. */
  lemma FistbumpCountAppend(docs: seq<FistbumpDoc>, doc: FistbumpDoc, toUserId: Id, challengeId: Id)
    ensures FistbumpCount(docs + [doc], toUserId, challengeId) ==
      FistbumpCount(docs, toUserId, challengeId) + (if doc.toUserId == toUserId && doc.challengeId == challengeId then 1 else 0)
  {
    assert (docs + [doc])[..|docs|] == docs;
  }

  /** The count is the number of stored fistbumps that match, position by position. */
  lemma {:induction false} FistbumpCountMatches(docs: seq<FistbumpDoc>, toUserId: Id, challengeId: Id)
    ensures FistbumpCount(docs, toUserId, challengeId) == |MatchingPositions(docs, toUserId, challengeId)|
  {
    if docs != [] {
      var n := |docs| - 1;
      FistbumpCountMatches(docs[..n], toUserId, challengeId);
      MatchingPositionsLast(docs, toUserId, challengeId);
    }
  }

  /** The positions of the stored fistbumps to that recipient in that challenge. */
  ghost function MatchingPositions(docs: seq<FistbumpDoc>, toUserId: Id, challengeId: Id): set<int>
  {
    set i | 0 <= i < |docs| && docs[i].toUserId == toUserId && docs[i].challengeId == challengeId
  }

  lemma MatchingPositionsLast(docs: seq<FistbumpDoc>, toUserId: Id, challengeId: Id)
    requires docs != []
    ensures var n := |docs| - 1;
      var before := MatchingPositions(docs[..n], toUserId, challengeId);
      n !in before &&
      MatchingPositions(docs, toUserId, challengeId) ==
        before + (if docs[n].toUserId == toUserId && docs[n].challengeId == challengeId then {n} else {})
  {
    var n := |docs| - 1;
    assert forall i :: 0 <= i < n ==> docs[..n][i] == docs[i];
  }

  /** Whether that sender already sent that recipient a fistbump in that challenge on that day. */
  predicate FistbumpGivenOn(docs: seq<FistbumpDoc>, fromUserId: Id, toUserId: Id, challengeId: Id, date: Day)
  {
    exists f | f in docs ::
      f.fromUserId == fromUserId && f.toUserId == toUserId && f.challengeId == challengeId && f.date == date
  }

  /** Storing a fistbump makes the same-day check fire for exactly its own sender, recipient,
      challenge and day, and leaves the check unchanged for every other combination. */
  lemma FistbumpGivenOnAppend(docs: seq<FistbumpDoc>, bump: FistbumpDoc,
                              fromUserId: Id, toUserId: Id, challengeId: Id, date: Day)
    ensures FistbumpGivenOn(docs + [bump], fromUserId, toUserId, challengeId, date) <==>
      FistbumpGivenOn(docs, fromUserId, toUserId, challengeId, date) ||
      bump == FistbumpDoc(fromUserId, toUserId, challengeId, date)
  {
    assert forall f :: f in docs + [bump] <==> f in docs || f == bump;
  }
}
