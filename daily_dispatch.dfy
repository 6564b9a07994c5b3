/**
 * The scheduled daily run (daily.js): fetch every stored profile and, for
 * each in turn, send it a generated task, clear its completion flag and
 * stamp the day. Task generation and sending are outside the model; the run
 * reports which identities it sent to.
 */
module DailyDispatch {
  import opened Optional
  import opened Levels
  import opened UserModel
  import opened Progression

  /**
   * What the run writes on one profile: the day is not completed and the
   * task date is today. Nothing else changes.
   */
  function StartDay(p: Profile, today: Day): (r: Profile)
    ensures !r.taskCompletedToday && r.lastTaskDate == Some(today)
    ensures SameStanding(r, p) && SameAnswers(r, p)
    ensures r.telegramId == p.telegramId && r.timezone == p.timezone
    ensures Consistent(p) ==> Consistent(r)
  {
    p.(taskCompletedToday := false, lastTaskDate := Some(today))
  }

  /**
   * The run. Every profile is visited once, in enumeration order, whatever
   * its last task date: there is no same-day guard, so a second run on the
   * same day sends to everyone again.
   */
  method RunDailyDispatch(store: ProfileStore, today: Day) returns (sentTo: seq<Id>)
    requires store.Valid()
    modifies store
    ensures store.Valid()
    ensures sentTo == old(store.order)
    ensures store.order == old(store.order)
    ensures store.records.Keys == old(store.records).Keys
    ensures forall id :: id in old(store.records) ==> store.records[id] == StartDay(old(store.records)[id], today)
    ensures forall id :: id in store.records ==> !store.records[id].taskCompletedToday
  {
    var users := store.FindAll();
    sentTo := [];
    for i := 0 to |users|
      invariant store.Valid()
      invariant store.order == old(store.order)
      invariant store.records.Keys == old(store.records).Keys
      invariant sentTo == store.order[..i]
      invariant forall k :: 0 <= k < |users| ==> users[k] == old(store.records)[store.order[k]]
      invariant forall k :: 0 <= k < i ==> store.records[store.order[k]] == StartDay(old(store.records)[store.order[k]], today)
      invariant forall k :: i <= k < |store.order| ==> store.records[store.order[k]] == old(store.records)[store.order[k]]
    {
      var user := users[i];
      // the task for `user` is generated and sent here
      sentTo := sentTo + [user.telegramId];
      user := user.(taskCompletedToday := false);
      user := user.(lastTaskDate := Some(today));
      assert store.order[i] in old(store.records) && user.telegramId == store.order[i];
      store.Save(user);
    }
    forall id | id in old(store.records)
      ensures store.records[id] == StartDay(old(store.records)[id], today)
    {
      var k :| 0 <= k < |store.order| && store.order[k] == id;
    }
  }

  /**
   * The run is what re-opens completion: a profile that refuses `done`
   * because today's task was already credited accepts it after the run.
   */
  lemma RunReopensCompletion(p: Profile, today: Day, later: Day)
    requires p.taskCompletedToday
    ensures CompleteTask(Some(p), later) == AlreadyCompletedToday
    ensures CompleteTask(Some(StartDay(p, today)), later).Completed?
  {
  }

  /**
   * The streak bonus over four days: from a fresh profile, one completion a
   * day with the daily run in between earns 10, 10, 15 and 15 points, so the
   * totals are 10, 20, 35 and 50, and the fourth completion reaches level 2.
   */
  lemma StreakBonusTrace(id: Id, day: Day)
    ensures
      var r1 := CompleteTask(Some(NewProfile(id)), day);
      && r1.Completed? && r1.saved.points == 10 && r1.saved.streak == 1 && r1.saved.level == 1
      && var r2 := CompleteTask(Some(StartDay(r1.saved, day + 1)), day + 1);
      && r2.Completed? && r2.saved.points == 20 && r2.saved.streak == 2 && r2.saved.level == 1
      && var r3 := CompleteTask(Some(StartDay(r2.saved, day + 2)), day + 2);
      && r3.Completed? && r3.saved.points == 35 && r3.saved.streak == 3 && r3.saved.level == 1
      && var r4 := CompleteTask(Some(StartDay(r3.saved, day + 3)), day + 3);
      && r4.Completed? && r4.saved.points == 50 && r4.saved.streak == 4 && r4.saved.level == 2
      && r4.reward == STREAK_REWARD && r4.levelUp
  {
    LevelForThresholds(50);
  }
}
