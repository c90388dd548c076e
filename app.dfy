/**
 * The browser quiz component: its view state, the answer/streak transitions,
 * the per-question reset, the advance action, the popup, the option colouring
 * and the session-storage rules for the streak.
 */
module QuizApp {
  import opened Wrappers
  import opened Protocol
  import Achievement
  import Decimal

  /** The session-storage key under which the streak is kept. */
  const StreakKey := "correctStreak"

  /** The background an option button gets. */
  datatype Colour = Uncoloured | LightGreen | LightCoral

  /** Colouring rule for the option at `index`, given the selection and the answer. */
  function OptionColour(index: int, selected: Option<int>, answerIndex: int): (c: Colour)
    ensures selected.None? ==> c == Uncoloured
    ensures selected.Some? && index == answerIndex ==> c == LightGreen
    ensures c == LightCoral <==> selected == Some(index) && index != answerIndex
    ensures c == Uncoloured <==> selected.None? || (selected != Some(index) && index != answerIndex)
  {
    if selected.None? then Uncoloured
    else
      var isSelected := index == selected.value;
      var isAnswer := index == answerIndex;
      if isSelected && isAnswer then LightGreen
      else if isSelected && !isAnswer then LightCoral
      else if isAnswer then LightGreen
      else Uncoloured
  }

  /**
   * Once an option of a well-formed question is selected, exactly the answer is green,
   * and a red option exists exactly when the selection is wrong, and it is the selection.
   */
  lemma ColouringAfterSelection(q: Quiz, s: int)
    requires q.WellFormed() && 0 <= s < |q.options|
    ensures (set i | 0 <= i < |q.options| && OptionColour(i, Some(s), q.answerIndex) == LightGreen) == {q.answerIndex}
    ensures (set i | 0 <= i < |q.options| && OptionColour(i, Some(s), q.answerIndex) == LightCoral)
            == if s == q.answerIndex then {} else {s}
  {
  }

  /** The streak the load-on-mount rule leaves: a non-empty stored string is parsed, otherwise nothing changes. */
  function LoadedStreak(saved: Option<string>, current: nat): (n: nat)
    requires saved.Some? ==> Decimal.IsDecimal(saved.value)
    ensures saved.None? || saved.value == "" ==> n == current
  {
    if saved.Some? && saved.value != "" then Decimal.ParseDecimal(saved.value) else current
  }

  /** A streak that was written is read back unchanged. */
  lemma LoadedStreakRoundTrip(n: nat, current: nat)
    ensures LoadedStreak(Some(Decimal.ToDecimal(n)), current) == n
  {
  }

  /** The persist rule: the streak is written when positive or when nothing is stored yet. */
  predicate ShouldPersist(streak: nat, saved: Option<string>) {
    streak > 0 || saved.None?
  }

  /** In particular a zero streak never overwrites a stored value. */
  lemma ZeroNeverOverwrites(saved: Option<string>)
    ensures ShouldPersist(0, saved) <==> saved.None?
  {
  }

  class App {
    var quiz: Option<Quiz>
    var selectedIndex: Option<int>
    var isCorrect: Option<bool>
    var correctStreak: nat
    var quizNumber: nat
    var showAchievement: bool
    /** The browser's session storage. */
    var storage: map<string, string>

    /** What the component's state keeps true between events. */
    ghost predicate Valid()
      reads this
    {
      (showAchievement ==> Achievement.RaisesPopup(correctStreak)) &&
      (selectedIndex.None? ==> isCorrect.None?) &&
      (selectedIndex.Some? ==>
         quiz.Some? && isCorrect == Some(selectedIndex.value == quiz.value.answerIndex)) &&
      StreakKey in storage && Decimal.IsDecimal(storage[StreakKey])
    }

    /** After the storage effect has run, a positive streak is what storage holds. */
    ghost predicate StorageInSync()
      reads this
      requires Valid()
    {
      correctStreak > 0 ==> Decimal.ParseDecimal(storage[StreakKey]) == correctStreak
    }

    /** The options are enabled only while nothing is selected. */
    predicate OptionsEnabled()
      reads this
    {
      selectedIndex.None?
    }

    /** An option button exists at `index` and can be clicked. */
    predicate CanClick(index: int)
      reads this
    {
      quiz.Some? && 0 <= index < |quiz.value.options| && OptionsEnabled()
    }

    /** The advance button is offered only once the answer has been judged. */
    predicate CanAdvance()
      reads this
    {
      isCorrect.Some?
    }

    /** The colour currently shown on the option at `index`. */
    function ColourAt(index: int): Colour
      reads this
      requires quiz.Some?
    {
      OptionColour(index, selectedIndex, quiz.value.answerIndex)
    }

    /**
     * The popup's content, shown only while the popup flag is up; the gate and the
     * lookup agree there, so it is the tier of the current streak and its message is not empty.
     */
    function PopupData(): (d: Achievement.Descriptor)
      reads this
      requires Valid() && showAchievement
      ensures correctStreak in Achievement.Tiers && d == Achievement.Tiers[correctStreak]
      ensures d.message != "" && d.title != ""
    {
      Achievement.GateAgreesWithLookup(correctStreak);
      Achievement.GetAchievementData(correctStreak)
    }

    /** `getStorageItem`: the stored streak string, if any. */
    function StoredStreak(): (r: Option<string>)
      reads this
    {
      Get(storage, StreakKey)
    }

    /**
     * Page load: the initial state, then the two mount effects in their order.
     * The persist effect of the first render still sees the streak 0, so it writes
     * only when nothing is stored; the loaded streak then triggers one more persist.
     */
    constructor (saved: map<string, string>)
      requires StreakKey in saved ==> Decimal.IsDecimal(saved[StreakKey])
      ensures Valid() && StorageInSync()
      ensures quiz.None? && selectedIndex.None? && isCorrect.None?
      ensures quizNumber == 0 && !showAchievement
      ensures correctStreak == LoadedStreak(Get(saved, StreakKey), 0)
      ensures storage ==
        if StreakKey !in saved then saved[StreakKey := "0"]
        else if correctStreak > 0 then saved[StreakKey := Decimal.ToDecimal(correctStreak)]
        else saved
    {
      quiz := None;
      selectedIndex := None;
      isCorrect := None;
      correctStreak := 0;
      quizNumber := 0;
      showAchievement := false;
      storage := saved;
      new;
      var stored := StoredStreak();
      PersistStreak();
      correctStreak := LoadedStreak(stored, 0);
      if correctStreak != 0 {
        PersistStreak();
        Decimal.ParseToDecimal(correctStreak);
      }
    }

    /** The effect that saves the streak whenever it changes. */
    method PersistStreak()
      requires StreakKey in storage ==> Decimal.IsDecimal(storage[StreakKey])
      modifies this`storage
      ensures storage ==
        if ShouldPersist(correctStreak, old(StoredStreak()))
        then old(storage)[StreakKey := Decimal.ToDecimal(correctStreak)]
        else old(storage)
      ensures StreakKey in storage && Decimal.IsDecimal(storage[StreakKey])
    {
      if correctStreak > 0 || StoredStreak().None? {
        storage := storage[StreakKey := Decimal.ToDecimal(correctStreak)];
      }
    }

    /** A question arrived: it replaces the current one and clears the selection; the streak stays. */
    method QuizLoaded(q: Quiz)
      requires Valid()
      modifies this`quiz, this`selectedIndex, this`isCorrect
      ensures Valid() && (old(StorageInSync()) ==> StorageInSync())
      ensures quiz == Some(q) && selectedIndex.None? && isCorrect.None?
      ensures q.WellFormed() ==> CanClick(q.answerIndex)
    {
      quiz := Some(q);
      selectedIndex := None;
      isCorrect := None;
    }

    /** `handleClick`: record the selection, judge it, update the streak and the popup flag. */
    method HandleClick(index: int)
      requires Valid() && CanClick(index)
      modifies this`selectedIndex, this`isCorrect, this`correctStreak, this`showAchievement
      ensures Valid()
      ensures selectedIndex == Some(index)
      ensures isCorrect == Some(index == quiz.value.answerIndex)
      ensures correctStreak == if index == quiz.value.answerIndex then old(correctStreak) + 1 else 0
      ensures showAchievement <==> index == quiz.value.answerIndex && correctStreak in Achievement.Thresholds
      ensures forall i :: !CanClick(i)
      ensures CanAdvance()
    {
      selectedIndex := Some(index);
      var correct := index == quiz.value.answerIndex;
      isCorrect := Some(correct);
      if correct {
        var newStreak := correctStreak + 1;
        correctStreak := newStreak;
        if newStreak in Achievement.Thresholds {
          showAchievement := true;
        } else {
          showAchievement := false;
        }
      } else {
        correctStreak := 0;
        showAchievement := false;
      }
    }

    /**
     * A click together with the storage effect it triggers (the effect runs only when the
     * streak changed). A correct answer stores the new streak; a miss leaves storage alone.
     */
    method Answer(index: int)
      requires Valid() && StorageInSync() && CanClick(index)
      modifies this`selectedIndex, this`isCorrect, this`correctStreak, this`showAchievement, this`storage
      ensures Valid() && StorageInSync()
      ensures selectedIndex == Some(index) && isCorrect == Some(index == quiz.value.answerIndex)
      ensures correctStreak == if index == quiz.value.answerIndex then old(correctStreak) + 1 else 0
      ensures showAchievement <==> index == quiz.value.answerIndex && Achievement.RaisesPopup(correctStreak)
      ensures storage ==
        if index == quiz.value.answerIndex
        then old(storage)[StreakKey := Decimal.ToDecimal(correctStreak)]
        else old(storage)
    {
      var before := correctStreak;
      HandleClick(index);
      if correctStreak != before {
        PersistStreak();
        Decimal.ParseToDecimal(correctStreak);
      }
    }

    /** The advance button: ask for the next question. */
    method Advance()
      requires Valid() && CanAdvance()
      modifies this`quizNumber
      ensures Valid() && (old(StorageInSync()) ==> StorageInSync())
      ensures quizNumber == old(quizNumber) + 1
    {
      quizNumber := quizNumber + 1;
    }

    /** The popup's close button. */
    method ClosePopup()
      requires Valid()
      modifies this`showAchievement
      ensures Valid() && (old(StorageInSync()) ==> StorageInSync())
      ensures !showAchievement
    {
      showAchievement := false;
    }
  }

  /**
   * A reload restores a positive streak that was in sync with storage: the new page
   * starts from the same streak without a new correct answer.
   */
  method ReloadRestoresStreak(app: App) returns (reloaded: App)
    requires app.Valid() && app.StorageInSync() && app.correctStreak > 0
    ensures reloaded.correctStreak == app.correctStreak
  {
    reloaded := new App(app.storage);
  }

  /**
   * Because a zero streak is not written over a stored value, a reload after a miss
   * brings back the streak from before the miss.
   */
  method ReloadAfterMiss(app: App, wrong: int) returns (reloaded: App)
    requires app.Valid() && app.StorageInSync() && app.correctStreak > 0
    requires app.CanClick(wrong) && wrong != app.quiz.value.answerIndex
    modifies app
    ensures app.correctStreak == 0
    ensures reloaded.correctStreak == old(app.correctStreak)
  {
    app.Answer(wrong);
    reloaded := new App(app.storage);
  }

  /**
   * Three options with the answer in the middle: a wrong click on the first one
   * colours it red and the answer green, resets the streak and offers the advance button.
   */
  method ThreeOptionsScenario(saved: map<string, string>)
    requires StreakKey in saved ==> Decimal.IsDecimal(saved[StreakKey])
  {
    var app := new App(saved);
    app.QuizLoaded(Quiz("audio", ["A", "B", "C"], 1, None, None));
    assert app.CanClick(0);
    app.Answer(0);
    assert app.isCorrect == Some(false) && app.correctStreak == 0 && !app.showAchievement;
    assert app.ColourAt(0) == LightCoral && app.ColourAt(1) == LightGreen && app.ColourAt(2) == Uncoloured;
    assert !app.CanClick(1) && app.CanAdvance();
    app.Advance();
    assert app.quizNumber == 1;
  }

  /** The seventh correct answer in a row raises the popup with the 7 tier; the eighth raises nothing. */
  method SeventhCorrectAnswer(app: App, q1: Quiz, q2: Quiz)
    requires app.Valid() && app.StorageInSync() && app.correctStreak == 6
    requires q1.WellFormed() && q2.WellFormed()
    modifies app
  {
    app.QuizLoaded(q1);
    app.Answer(q1.answerIndex);
    assert app.correctStreak == 7 && app.showAchievement;
    assert app.PopupData() == Achievement.Tier7;
    app.ClosePopup();
    app.Advance();
    app.QuizLoaded(q2);
    app.Answer(q2.answerIndex);
    assert app.correctStreak == 8 && !app.showAchievement;
  }
}
