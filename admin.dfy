/** The admin overview's badge for each challenge: Active while today lies in its window,
    Upcoming before it starts, Completed otherwise. */
module Admin {

  import opened Common
  import opened Store

  predicate IsActive(c: ChallengeDoc, today: Day)
  {
    c.startDate <= today && c.endDate >= today
  }

  predicate IsUpcoming(c: ChallengeDoc, today: Day)
  {
    c.startDate > today
  }

  predicate IsCompleted(c: ChallengeDoc, today: Day)
  {
    c.endDate < today
  }

  datatype Badge = ActiveBadge | UpcomingBadge | CompletedBadge

  /** The badge shown: Active takes precedence over Upcoming, and anything else is
      Completed. */
  function BadgeOf(c: ChallengeDoc, today: Day): (b: Badge)
    ensures b == ActiveBadge <==> c.startDate <= today <= c.endDate
    ensures b == UpcomingBadge <==> today < c.startDate
    ensures b == CompletedBadge <==> c.startDate <= today && c.endDate < today
  {
    if IsActive(c, today) then ActiveBadge
    else if IsUpcoming(c, today) then UpcomingBadge
    else CompletedBadge
  }

  /** For a challenge that does not end before it starts, exactly one of the three
      classifications holds and the badge names it. */
  lemma ExactlyOneClass(c: ChallengeDoc, today: Day)
    requires c.startDate <= c.endDate
    ensures IsActive(c, today) || IsUpcoming(c, today) || IsCompleted(c, today)
    ensures !(IsActive(c, today) && IsUpcoming(c, today))
    ensures !(IsActive(c, today) && IsCompleted(c, today))
    ensures !(IsUpcoming(c, today) && IsCompleted(c, today))
    ensures BadgeOf(c, today) == CompletedBadge <==> IsCompleted(c, today)
  {
  }

  /** A challenge that ends before it starts is never active; between its end and its start
      it is both upcoming and completed, and the badge says Upcoming. */
  lemma InvertedWindow(c: ChallengeDoc, today: Day)
    requires c.endDate < c.startDate
    ensures !IsActive(c, today)
    ensures c.endDate < today < c.startDate ==>
      IsUpcoming(c, today) && IsCompleted(c, today) && BadgeOf(c, today) == UpcomingBadge
  {
  }

  /** As the days pass a challenge's badge only moves forward: Upcoming, then Active, then
      Completed. */
  lemma BadgeProgresses(c: ChallengeDoc, today: Day, later: Day)
    requires today <= later
    ensures BadgeOf(c, today) == ActiveBadge ==> BadgeOf(c, later) != UpcomingBadge
    ensures BadgeOf(c, today) == CompletedBadge ==> BadgeOf(c, later) == CompletedBadge
  {
  }
}
