/**
 * The two button handlers of the progression engine (index.js, the `done`
 * and `skip` actions): each loads the caller's profile, updates points,
 * streak, last action and level, and saves it back.
 */
module Progression {
  import opened Optional
  import opened Levels
  import opened UserModel

  const REWARD := 10
  const STREAK_REWARD := 15
  /** The streak, counted after the increment, from which a completion earns the larger reward. */
  const STREAK_BONUS_FROM := 3
  const PENALTY := 10
  const REPEAT_SKIP_PENALTY := 20

  /** What a `done` press produces. */
  datatype DoneOutcome =
    | DoneWithoutProfile        // no stored profile: the user is told to restart
    | AlreadyCompletedToday     // today's task was already credited: nothing changes
    | Completed(saved: Profile, reward: int, levelUp: bool)

  /** What a `skip` press produces. */
  datatype SkipOutcome =
    | SkipWithoutProfile
    | Skipped(saved: Profile, penalty: int, levelDropped: bool)

  /**
   * The `done` transition on the profile findOne returned. A completion is
   * refused when none was found or when today's task is already credited;
   * otherwise the streak grows by one, the reward (larger from the third day
   * of a streak) is added, the day is marked complete, and the level is
   * recomputed and compared with the stored one.
   */
  function CompleteTask(stored: Option<Profile>, today: Day): (r: DoneOutcome)
    ensures r.DoneWithoutProfile? <==> stored.None?
    ensures r.AlreadyCompletedToday? <==> stored.Some? && stored.value.taskCompletedToday
    ensures r.Completed? ==>
      var before := stored.value;
      && r.saved.streak == before.streak + 1
      && r.reward == (if r.saved.streak >= STREAK_BONUS_FROM then STREAK_REWARD else REWARD)
      && r.saved.points == before.points + r.reward
      && r.saved.lastAction == Some(Done)
      && r.saved.taskCompletedToday && r.saved.lastTaskDate == Some(today)
      && r.saved.level == LevelFor(r.saved.points)
      && (r.levelUp <==> r.saved.level > before.level)
      && r.saved.telegramId == before.telegramId && SameAnswers(r.saved, before)
      && r.saved.timezone == before.timezone
    ensures r.Completed? && Consistent(stored.value) ==> Consistent(r.saved)
  {
    match stored
    case None => DoneWithoutProfile
    case Some(user) =>
      if user.taskCompletedToday then AlreadyCompletedToday
      else
        var streak := user.streak + 1;
        var reward := if streak >= STREAK_BONUS_FROM then STREAK_REWARD else REWARD;
        var points := user.points + reward;
        var level := LevelFor(points);
        Completed(
          user.(streak := streak, points := points, lastAction := Some(Done),
                taskCompletedToday := true, lastTaskDate := Some(today), level := level),
          reward, level > user.level)
  }

  /**
   * The `skip` transition. Always accepted on a found profile: the penalty
   * doubles when the previous action was also a skip, points are clamped at
   * zero, the streak is cut, and the level is recomputed and compared with
   * the stored one. The day's completion flag and date are left alone.
   */
  function SkipTask(stored: Option<Profile>): (r: SkipOutcome)
    ensures r.SkipWithoutProfile? <==> stored.None?
    ensures r.Skipped? ==>
      var before := stored.value;
      && (r.penalty == REPEAT_SKIP_PENALTY <==> before.lastAction == Some(Skip))
      && r.penalty in {PENALTY, REPEAT_SKIP_PENALTY}
      && r.saved.points >= 0
      && (before.points >= r.penalty ==> r.saved.points == before.points - r.penalty)
      && (before.points < r.penalty ==> r.saved.points == 0)
      && r.saved.streak == 0 && r.saved.lastAction == Some(Skip)
      && r.saved.level == LevelFor(r.saved.points)
      && (r.levelDropped <==> r.saved.level < before.level)
      && r.saved.taskCompletedToday == before.taskCompletedToday
      && r.saved.lastTaskDate == before.lastTaskDate
      && r.saved.telegramId == before.telegramId && SameAnswers(r.saved, before)
      && r.saved.timezone == before.timezone
    ensures r.Skipped? ==> Consistent(r.saved)
  {
    match stored
    case None => SkipWithoutProfile
    case Some(user) =>
      var penalty := if user.lastAction == Some(Skip) then REPEAT_SKIP_PENALTY else PENALTY;
      var points := if user.points - penalty > 0 then user.points - penalty else 0;
      var level := LevelFor(points);
      Skipped(
        user.(points := points, streak := 0, lastAction := Some(Skip), level := level),
        penalty, level < user.level)
  }

  /**
   * A completion on a consistent profile raises the points and never lowers
   * the level; the level-up message fires exactly when the level rises, and
   * then by exactly one.
   */
  lemma CompletionRaisesStanding(p: Profile, today: Day)
    requires Consistent(p) && !p.taskCompletedToday
    ensures var r := CompleteTask(Some(p), today);
      && r.Completed?
      && r.saved.points > p.points
      && r.saved.level >= p.level
      && (r.levelUp <==> r.saved.level == p.level + 1)
  {
    var r := CompleteTask(Some(p), today);
    LevelForStep(p.points, r.reward);
  }

  /**
   * A skip on a consistent profile never raises the level; the drop message
   * fires exactly when the level falls, and then by exactly one.
   */
  lemma SkipNeverRaisesLevel(p: Profile)
    requires Consistent(p)
    ensures var r := SkipTask(Some(p));
      && r.Skipped?
      && r.saved.points <= p.points
      && r.saved.level <= p.level
      && (r.levelDropped <==> r.saved.level == p.level - 1)
  {
    var r := SkipTask(Some(p));
    LevelForStep(r.saved.points, p.points - r.saved.points);
  }

  /** A second completion before the day is reset is refused and changes nothing. */
  lemma DoubleCompletionRefused(p: Profile, today: Day, later: Day)
    requires CompleteTask(Some(p), today).Completed?
    ensures CompleteTask(Some(CompleteTask(Some(p), today).saved), later) == AlreadyCompletedToday
  {
  }

  /** Two skips in a row: the second costs the larger penalty. */
  lemma RepeatedSkipEscalates(p: Profile)
    ensures var first := SkipTask(Some(p));
      && first.Skipped?
      && SkipTask(Some(first.saved)).Skipped?
      && SkipTask(Some(first.saved)).penalty == REPEAT_SKIP_PENALTY
  {
  }

  /** skip, done, skip: the completion in between brings the penalty back to the base one. */
  lemma CompletionClearsSkipEscalation(p: Profile, today: Day)
    requires !p.taskCompletedToday
    ensures var first := SkipTask(Some(p));
      && first.Skipped?
      && CompleteTask(Some(first.saved), today).Completed?
      && SkipTask(Some(CompleteTask(Some(first.saved), today).saved)).penalty == PENALTY
  {
  }

  /**
   * A freshly defaulted profile (as the onboarding upsert inserts it) accepts
   * its first completion, and its first skip costs the base penalty and
   * leaves it at zero points.
   */
  lemma FreshProfileFirstActions(id: Id, today: Day)
    ensures CompleteTask(Some(NewProfile(id)), today).Completed?
    ensures SkipTask(Some(NewProfile(id))).penalty == PENALTY
    ensures SkipTask(Some(NewProfile(id))).saved.points == 0
  {
  }

  /**
   * The `done` handler: load the profile, refuse a missing one or a day
   * already completed, otherwise update the loaded record field by field as
   * the handler does, recompute the level, and save it.
   */
  method HandleDone(store: ProfileStore, id: Id, today: Day) returns (outcome: DoneOutcome)
    requires store.Valid()
    modifies store
    ensures store.Valid()
    ensures outcome == CompleteTask(old(store.FindOne(id)), today)
    ensures store.records == if outcome.Completed? then old(store.records)[id := outcome.saved] else old(store.records)
    ensures store.order == old(store.order)
  {
    var found := store.FindOne(id);
    if found.None? {
      return DoneWithoutProfile;
    }
    var user := found.value;
    if user.taskCompletedToday {
      return AlreadyCompletedToday;
    }
    user := user.(streak := user.streak + 1);
    var reward := if user.streak >= STREAK_BONUS_FROM then STREAK_REWARD else REWARD;
    user := user.(points := user.points + reward);
    user := user.(lastAction := Some(Done));
    user := user.(taskCompletedToday := true, lastTaskDate := Some(today));
    var oldLevel := user.level;
    var level := CalculateLevel(user.points);
    user := user.(level := level);
    store.Save(user);
    outcome := Completed(user, reward, user.level > oldLevel);
  }

  /**
   * The `skip` handler: load the profile, refuse a missing one, otherwise
   * apply the penalty with the clamp, cut the streak, recompute the level,
   * and save.
   */
  method HandleSkip(store: ProfileStore, id: Id) returns (outcome: SkipOutcome)
    requires store.Valid()
    modifies store
    ensures store.Valid()
    ensures outcome == SkipTask(old(store.FindOne(id)))
    ensures store.records == if outcome.Skipped? then old(store.records)[id := outcome.saved] else old(store.records)
    ensures store.order == old(store.order)
  {
    var found := store.FindOne(id);
    if found.None? {
      return SkipWithoutProfile;
    }
    var user := found.value;
    var penalty := if user.lastAction == Some(Skip) then REPEAT_SKIP_PENALTY else PENALTY;
    user := user.(points := if 0 > user.points - penalty then 0 else user.points - penalty);
    user := user.(streak := 0);
    user := user.(lastAction := Some(Skip));
    var oldLevel := user.level;
    var level := CalculateLevel(user.points);
    user := user.(level := level);
    store.Save(user);
    outcome := Skipped(user, penalty, user.level < oldLevel);
  }
}
