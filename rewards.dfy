/** The badge shelf (`RewardsSection`): six badges, each unlocked by a rule over the journey,
    shown as an unlocked list and a locked list. */
module Rewards {
  import Journey
  import Seqs

  datatype Badge = Badge(id: string, name: string, description: string, unlocked: bool)

  /** The six badges, in display order, with their unlock rules evaluated on `s`. The halfway
      rule compares with half the plan length as a JavaScript number. */
  function AllBadges(s: Journey.JourneyState): (bs: seq<Badge>)
    ensures |bs| == 6
    ensures [bs[0].id, bs[1].id, bs[2].id, bs[3].id, bs[4].id, bs[5].id]
         == ["first_day", "streak_5", "streak_10", "halfway", "accuracy_80", "all_subjects"]
    ensures bs[0].unlocked <==> |s.completedDays| >= 1
    ensures bs[1].unlocked <==> s.streak >= 5
    ensures bs[2].unlocked <==> s.streak >= 10
    ensures bs[3].unlocked <==> 2 * |s.completedDays| >= Journey.TotalDays(s.goalDuration)
    ensures bs[4].unlocked <==> s.totalAccuracy >= 80.0
    ensures bs[5].unlocked <==> |s.selectedSubjects| >= 3
  {
    [ Badge("first_day", "First Step", "Completed Day 1", |s.completedDays| >= 1),
      Badge("streak_5", "5-Day Streak", "5 consecutive days", s.streak >= 5),
      Badge("streak_10", "10-Day Warrior", "10 consecutive days", s.streak >= 10),
      Badge("halfway", "Halfway Hero", "50% journey completed",
            |s.completedDays| as real >= Journey.TotalDays(s.goalDuration) as real / 2.0),
      Badge("accuracy_80", "Accuracy Champ", "80%+ accuracy", s.totalAccuracy >= 80.0),
      Badge("all_subjects", "Multi-Tasker", "Completed all subjects", |s.selectedSubjects| >= 3) ]
  }

  predicate IsUnlocked(b: Badge) {
    b.unlocked
  }

  predicate IsLocked(b: Badge) {
    !b.unlocked
  }

  /** `badges.filter(b => b.unlocked)`. */
  function Unlocked(bs: seq<Badge>): (r: seq<Badge>)
    ensures forall b :: b in r <==> b in bs && b.unlocked
  {
    Seqs.Filter(bs, IsUnlocked)
  }

  /** `badges.filter(b => !b.unlocked)`. */
  function Locked(bs: seq<Badge>): (r: seq<Badge>)
    ensures forall b :: b in r <==> b in bs && !b.unlocked
  {
    Seqs.Filter(bs, IsLocked)
  }

  /** The earned badges, in display order; "Badges Earned: n / 6" counts them. */
  function UnlockedBadges(s: Journey.JourneyState): (r: seq<Badge>)
    ensures forall b :: b in r <==> b in AllBadges(s) && b.unlocked
    ensures Seqs.Subsequence(r, AllBadges(s)) && |r| <= 6
  {
    SplitByUnlocked(AllBadges(s));
    Unlocked(AllBadges(s))
  }

  /** The badges still to earn, in display order: six minus the earned ones. */
  function LockedBadges(s: Journey.JourneyState): (r: seq<Badge>)
    ensures forall b :: b in r <==> b in AllBadges(s) && !b.unlocked
    ensures Seqs.Subsequence(r, AllBadges(s)) && |r| == 6 - |UnlockedBadges(s)|
  {
    SplitByUnlocked(AllBadges(s));
    Locked(AllBadges(s))
  }

  /** Any badge list splits into its unlocked and locked parts, each in display order. */
  lemma SplitByUnlocked(bs: seq<Badge>)
    ensures multiset(Unlocked(bs)) + multiset(Locked(bs)) == multiset(bs)
    ensures |Unlocked(bs)| + |Locked(bs)| == |bs|
    ensures Seqs.Subsequence(Unlocked(bs), bs)
    ensures Seqs.Subsequence(Locked(bs), bs)
  {
    Seqs.FilterPartition(bs, IsUnlocked, IsLocked);
    Seqs.FilterIsSubsequence(bs, IsUnlocked);
    Seqs.FilterIsSubsequence(bs, IsLocked);
  }

  /** The two lists split the six badges: together they hold each badge once, each keeps the
      display order, and "Badges Earned: n / 6" plus the locked count make six. */
  lemma BadgesPartition(s: Journey.JourneyState)
    ensures multiset(UnlockedBadges(s)) + multiset(LockedBadges(s)) == multiset(AllBadges(s))
    ensures |UnlockedBadges(s)| + |LockedBadges(s)| == 6
    ensures Seqs.Subsequence(UnlockedBadges(s), AllBadges(s))
    ensures Seqs.Subsequence(LockedBadges(s), AllBadges(s))
  {
    SplitByUnlocked(AllBadges(s));
  }

  /** The ten-day badge cannot be held without the five-day one. */
  lemma StreakBadgesNested(s: Journey.JourneyState)
    ensures AllBadges(s)[2].unlocked ==> AllBadges(s)[1].unlocked
  {
  }

  /** Before any day is done, with a short streak, low accuracy and fewer than three subjects,
      no badge is unlocked; in particular none is at the start of a journey. */
  lemma NoBadgeBeforeProgress(s: Journey.JourneyState)
    requires |s.completedDays| == 0 && s.streak < 5 && s.totalAccuracy < 80.0 && |s.selectedSubjects| < 3
    ensures UnlockedBadges(s) == []
  {
    var bs := AllBadges(s);
    assert !bs[0].unlocked && !bs[1].unlocked && !bs[2].unlocked;
    assert !bs[3].unlocked && !bs[4].unlocked && !bs[5].unlocked;
    assert forall i :: 0 <= i < |bs| ==> IsLocked(bs[i]);
    Seqs.FilterAll(bs, IsLocked);
    SplitByUnlocked(bs);
  }
}
