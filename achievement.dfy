/**
 * The reward table of the browser app: the popup shown at streak milestones
 * and the lookup `getAchievementData`, which picks the highest milestone
 * reached (greater-or-equal semantics).
 */
module Achievement {
  datatype Descriptor = Descriptor(title: string, message: string, color: string, borderColor: string)

  /** The streak values at which a correct answer raises the popup (exact match). */
  const Thresholds: set<int> := {7, 39, 59, 72, 272}

  const Tier272 := Descriptor("Congratulation!", "272問連続正解達成！全てを知っている貴方には脱帽します。", "#FF00FF", "magenta")
  const Tier72 := Descriptor("Congratulation!", "72問連続正解達成！貴方なら軍団長になれるでしょう！", "#FF0000", "red")
  const Tier59 := Descriptor("Congratulation!", "59問連続正解！ここまで生き残ったことに涙が止まりません！", "#9932CC", "purple")
  const Tier39 := Descriptor("Congratulation!", "39問連続正解！ここまで勝利し続けていただき、感謝しかありません！", "#1E90FF", "blue")
  const Tier7 := Descriptor("Congratulation!", "7問連続正解！貴方の幸運は戦巧者にふさわしい！", "#32CD32", "green")

  /** The descriptor of "no popup". */
  const Empty := Descriptor("", "", "transparent", "transparent")

  /** The reward table, one entry per milestone. */
  const Tiers: map<int, Descriptor> := map[272 := Tier272, 72 := Tier72, 59 := Tier59, 39 := Tier39, 7 := Tier7]

  /** The reward for a streak: thresholds are tried from the highest down, with `>=`. */
  function GetAchievementData(streak: int): (d: Descriptor)
    ensures d == Empty <==> streak < 7
    ensures d.title == "" <==> streak < 7
    ensures d.color == "transparent" <==> streak < 7
  {
    if streak >= 272 then Tier272
    else if streak >= 72 then Tier72
    else if streak >= 59 then Tier59
    else if streak >= 39 then Tier39
    else if streak >= 7 then Tier7
    else Empty
  }

  /** `t` is the largest milestone not above `streak`. */
  ghost predicate IsHighestReached(t: int, streak: int) {
    t in Thresholds && t <= streak && forall u :: u in Thresholds && u <= streak ==> u <= t
  }

  /** The lookup returns exactly the tier of the highest milestone reached. */
  lemma LookupIsHighestReached(streak: int, t: int)
    requires IsHighestReached(t, streak)
    ensures t in Tiers && GetAchievementData(streak) == Tiers[t]
  {
  }

  /** Every streak of at least 7 reaches some milestone, and the lookup agrees with it. */
  lemma HighestReachedExists(streak: int) returns (t: int)
    requires streak >= 7
    ensures IsHighestReached(t, streak) && GetAchievementData(streak) == Tiers[t]
  {
    t := if streak >= 272 then 272 else if streak >= 72 then 72
         else if streak >= 59 then 59 else if streak >= 39 then 39 else 7;
    LookupIsHighestReached(streak, t);
  }

  /** The popup gate: a new streak raises the popup only when it is exactly a milestone. */
  predicate RaisesPopup(newStreak: int) {
    newStreak in Thresholds
  }

  /**
   * Whenever the gate raises the popup, the lookup finds the tier of that very milestone,
   * so the popup never shows the empty descriptor.
   */
  lemma GateAgreesWithLookup(streak: int)
    requires RaisesPopup(streak)
    ensures streak in Tiers && GetAchievementData(streak) == Tiers[streak]
    ensures GetAchievementData(streak).message != ""
  {
  }

  /**
   * Between milestones the two disagree: any streak of at least 7 that is not itself a
   * milestone raises nothing, though the lookup yields a non-empty tier.
   */
  lemma GateIsStricterThanLookup(streak: int)
    requires streak >= 7 && streak !in Thresholds
    ensures !RaisesPopup(streak) && GetAchievementData(streak) != Empty
  {
  }

  /** For instance 8 raises nothing, though the lookup yields the 7 tier. */
  lemma StreakEightRaisesNothing()
    ensures !RaisesPopup(8) && GetAchievementData(8) == Tier7
  {
    GateIsStricterThanLookup(8);
  }
}
