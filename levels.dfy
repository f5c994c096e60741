/** The performance ladder of the dashboard banner (`WelcomeBanner`): a score picks one of
    fifteen level names, its tier and the tier's colour. */
module Levels {
  import opened Wrappers
  import Seqs

  datatype Tier = Expert | Advanced | Intermediate | Beginner

  datatype LevelInfo = LevelInfo(tier: Tier, name: string, color: string)

  /** The gradient shared by every level of a tier. */
  function TierColor(t: Tier): string {
    match t
    case Expert => "from-purple-500 to-pink-500"
    case Advanced => "from-blue-500 to-cyan-500"
    case Intermediate => "from-green-500 to-emerald-500"
    case Beginner => "from-orange-500 to-amber-500"
  }

  /** `getLevelInfo`: the first threshold the score reaches decides; below 10 (negative scores
      included) the level is Novice. */
  function GetLevelInfo(score: real): (info: LevelInfo)
    ensures info.tier == Expert <==> score >= 80.0
    ensures info.tier == Advanced <==> 60.0 <= score < 80.0
    ensures info.tier == Intermediate <==> 40.0 <= score < 60.0
    ensures info.tier == Beginner <==> score < 40.0
    ensures info.color == TierColor(info.tier)
    ensures score >= 90.0 ==> info.name == "Legend"
    ensures score < 10.0 ==> info.name == "Novice"
  {
    if score >= 90.0 then LevelInfo(Expert, "Legend", "from-purple-500 to-pink-500")
    else if score >= 85.0 then LevelInfo(Expert, "Phoenix", "from-purple-500 to-pink-500")
    else if score >= 80.0 then LevelInfo(Expert, "Ace", "from-purple-500 to-pink-500")
    else if score >= 75.0 then LevelInfo(Advanced, "Champion", "from-blue-500 to-cyan-500")
    else if score >= 70.0 then LevelInfo(Advanced, "Conqueror", "from-blue-500 to-cyan-500")
    else if score >= 65.0 then LevelInfo(Advanced, "Titan", "from-blue-500 to-cyan-500")
    else if score >= 60.0 then LevelInfo(Advanced, "Maverick", "from-blue-500 to-cyan-500")
    else if score >= 55.0 then LevelInfo(Intermediate, "Rising Star", "from-green-500 to-emerald-500")
    else if score >= 50.0 then LevelInfo(Intermediate, "Gladiator", "from-green-500 to-emerald-500")
    else if score >= 45.0 then LevelInfo(Intermediate, "Challenger", "from-green-500 to-emerald-500")
    else if score >= 40.0 then LevelInfo(Intermediate, "Warrior", "from-green-500 to-emerald-500")
    else if score >= 30.0 then LevelInfo(Beginner, "Pathfinder", "from-orange-500 to-amber-500")
    else if score >= 20.0 then LevelInfo(Beginner, "Starter", "from-orange-500 to-amber-500")
    else if score >= 10.0 then LevelInfo(Beginner, "Seeker", "from-orange-500 to-amber-500")
    else LevelInfo(Beginner, "Novice", "from-orange-500 to-amber-500")
  }

  /** The banner's `performanceLevel`, 45 when the prop is absent. */
  function BannerLevel(performanceLevel: Option<real>): (info: LevelInfo)
    ensures performanceLevel.None? ==> info == GetLevelInfo(45.0)
    ensures performanceLevel.Some? ==> info == GetLevelInfo(performanceLevel.value)
  {
    GetLevelInfo(performanceLevel.GetOr(45.0))
  }

  /** One rung of the ladder: from `threshold` upwards, this level. */
  datatype Rung = Rung(threshold: real, tier: Tier, name: string)

  /** The ladder as data, highest rung first; the level below the last rung is Novice. */
  const Ladder: seq<Rung> := [
    Rung(90.0, Expert, "Legend"), Rung(85.0, Expert, "Phoenix"), Rung(80.0, Expert, "Ace"),
    Rung(75.0, Advanced, "Champion"), Rung(70.0, Advanced, "Conqueror"), Rung(65.0, Advanced, "Titan"),
    Rung(60.0, Advanced, "Maverick"), Rung(55.0, Intermediate, "Rising Star"),
    Rung(50.0, Intermediate, "Gladiator"), Rung(45.0, Intermediate, "Challenger"),
    Rung(40.0, Intermediate, "Warrior"), Rung(30.0, Beginner, "Pathfinder"),
    Rung(20.0, Beginner, "Starter"), Rung(10.0, Beginner, "Seeker")
  ]

  const Floor := LevelInfo(Beginner, "Novice", "from-orange-500 to-amber-500")

  /** Climb down the rungs until the score reaches one. */
  function FirstRung(rungs: seq<Rung>, score: real): LevelInfo
    decreases |rungs|
  {
    if rungs == [] then Floor
    else if score >= rungs[0].threshold then LevelInfo(rungs[0].tier, rungs[0].name, TierColor(rungs[0].tier))
    else FirstRung(rungs[1..], score)
  }

  /** Thresholds strictly fall from the top rung down. */
  predicate Descending(rungs: seq<Rung>) {
    forall i, j :: 0 <= i < j < |rungs| ==> rungs[j].threshold < rungs[i].threshold
  }

  /** The rung a score stops at: it reaches rung `k` and misses the one above it. */
  lemma {:induction false} FirstRungAt(rungs: seq<Rung>, score: real, k: nat)
    requires Descending(rungs)
    requires k < |rungs| && score >= rungs[k].threshold
    requires k > 0 ==> score < rungs[k - 1].threshold
    ensures FirstRung(rungs, score) == LevelInfo(rungs[k].tier, rungs[k].name, TierColor(rungs[k].tier))
    decreases k
  {
    if k > 0 {
      assert score < rungs[0].threshold;
      FirstRungAt(rungs[1..], score, k - 1);
    }
  }

  /** A score below every rung gets the floor level. */
  lemma {:induction false} FirstRungBelowAll(rungs: seq<Rung>, score: real)
    requires Descending(rungs)
    requires |rungs| > 0 ==> score < rungs[|rungs| - 1].threshold
    ensures FirstRung(rungs, score) == Floor
    decreases |rungs|
  {
    if rungs != [] {
      assert score < rungs[0].threshold;
      FirstRungBelowAll(rungs[1..], score);
    }
  }

  lemma LadderDescending()
    ensures Descending(Ladder)
  {
  }

  /** The Expert rungs of the chain and of the ladder agree. */
  lemma ExpertIsLadder(score: real)
    requires 80.0 <= score
    ensures GetLevelInfo(score) == FirstRung(Ladder, score)
  {
    LadderDescending();
    if score >= 90.0 {
      FirstRungAt(Ladder, score, 0);
    } else if score >= 85.0 {
      FirstRungAt(Ladder, score, 1);
    } else {
      FirstRungAt(Ladder, score, 2);
    }
  }

  /** The Advanced rungs agree. */
  lemma AdvancedIsLadder(score: real)
    requires 60.0 <= score < 80.0
    ensures GetLevelInfo(score) == FirstRung(Ladder, score)
  {
    LadderDescending();
    if score >= 75.0 {
      FirstRungAt(Ladder, score, 3);
    } else if score >= 70.0 {
      FirstRungAt(Ladder, score, 4);
    } else if score >= 65.0 {
      FirstRungAt(Ladder, score, 5);
    } else {
      FirstRungAt(Ladder, score, 6);
    }
  }

  /** The Intermediate rungs agree. */
  lemma IntermediateIsLadder(score: real)
    requires 40.0 <= score < 60.0
    ensures GetLevelInfo(score) == FirstRung(Ladder, score)
  {
    LadderDescending();
    if score >= 55.0 {
      FirstRungAt(Ladder, score, 7);
    } else if score >= 50.0 {
      FirstRungAt(Ladder, score, 8);
    } else if score >= 45.0 {
      FirstRungAt(Ladder, score, 9);
    } else {
      FirstRungAt(Ladder, score, 10);
    }
  }

  /** The upper Beginner rungs agree. */
  lemma BeginnerIsLadder(score: real)
    requires 20.0 <= score < 40.0
    ensures GetLevelInfo(score) == FirstRung(Ladder, score)
  {
    LadderDescending();
    if score >= 30.0 {
      FirstRungAt(Ladder, score, 11);
    } else {
      FirstRungAt(Ladder, score, 12);
    }
  }

  /** The last rung and the floor agree. */
  lemma FloorIsLadder(score: real)
    requires score < 20.0
    ensures GetLevelInfo(score) == FirstRung(Ladder, score)
  {
    LadderDescending();
    if score >= 10.0 {
      FirstRungAt(Ladder, score, 13);
    } else {
      FirstRungBelowAll(Ladder, score);
    }
  }

  /** The if-chain is the ladder read top down: the first rung reached wins. */
  lemma GetLevelInfoIsLadder(score: real)
    ensures GetLevelInfo(score) == FirstRung(Ladder, score)
  {
    if score >= 80.0 {
      ExpertIsLadder(score);
    } else if score >= 60.0 {
      AdvancedIsLadder(score);
    } else if score >= 40.0 {
      IntermediateIsLadder(score);
    } else if score >= 20.0 {
      BeginnerIsLadder(score);
    } else {
      FloorIsLadder(score);
    }
  }

  function TierRank(t: Tier): nat {
    match t
    case Beginner => 0
    case Intermediate => 1
    case Advanced => 2
    case Expert => 3
  }

  /** A higher score never lands in a lower tier. */
  lemma TierMonotone(a: real, b: real)
    requires a <= b
    ensures TierRank(GetLevelInfo(a).tier) <= TierRank(GetLevelInfo(b).tier)
  {
  }

  /** The fifteen level names, from the top. */
  function LevelNames(): (names: seq<string>)
    ensures |names| == 15
    ensures forall i :: 0 <= i < |Ladder| ==> names[i] == Ladder[i].name
    ensures names[|Ladder|] == Floor.name
  {
    seq(|Ladder|, i requires 0 <= i < |Ladder| => Ladder[i].name) + [Floor.name]
  }

  /** No two rungs share a name, and none is called like the floor. */
  lemma LadderNamesDistinct()
    ensures forall i, j :: 0 <= i < j < |Ladder| ==> Ladder[i].name != Ladder[j].name
    ensures forall i :: 0 <= i < |Ladder| ==> Ladder[i].name != Floor.name
  {
  }

  /** The level a ladder lookup gives is a rung's or the floor's. */
  lemma {:induction false} FirstRungNamed(rungs: seq<Rung>, score: real)
    ensures FirstRung(rungs, score) == Floor
      || exists k :: 0 <= k < |rungs| && FirstRung(rungs, score).name == rungs[k].name
    decreases |rungs|
  {
    if rungs != [] && score < rungs[0].threshold {
      FirstRungNamed(rungs[1..], score);
      if FirstRung(rungs[1..], score) != Floor {
        var k :| 0 <= k < |rungs[1..]| && FirstRung(rungs[1..], score).name == rungs[1..][k].name;
        assert rungs[k + 1] == rungs[1..][k];
      }
    }
  }

  /** A ladder lookup lands on one of the fifteen names. */
  lemma LadderLevelNamed(score: real)
    ensures FirstRung(Ladder, score).name in LevelNames()
  {
    var names := LevelNames();
    FirstRungNamed(Ladder, score);
    if FirstRung(Ladder, score) == Floor {
      assert names[14] == FirstRung(Ladder, score).name;
    } else {
      var k :| 0 <= k < |Ladder| && FirstRung(Ladder, score).name == Ladder[k].name;
      assert names[k] == FirstRung(Ladder, score).name;
    }
  }

  /** The fifteen names are all different. */
  lemma LevelNamesDistinct()
    ensures Seqs.NoDup(LevelNames())
  {
    LadderNamesDistinct();
  }

  /** Every score gets one of the fifteen names, and the names are all different. */
  lemma FifteenDistinctNames(score: real)
    ensures GetLevelInfo(score).name in LevelNames()
    ensures Seqs.NoDup(LevelNames())
  {
    LevelNamesDistinct();
    GetLevelInfoIsLadder(score);
    LadderLevelNamed(score);
  }

  /** The banner without a score shows Challenger, an Intermediate level. */
  lemma DefaultBanner()
    ensures BannerLevel(None) == LevelInfo(Intermediate, "Challenger", "from-green-500 to-emerald-500")
  {
  }
}
