/**
 * The stored user profile (models/User.js): its fields, the defaults a newly
 * inserted profile starts with, and the store the handlers read and write,
 * keyed by the chat identity.
 */
module UserModel {
  import opened Optional
  import opened Levels

  /** The chat identity; it keys both the onboarding sessions and the stored profiles. */
  type Id = int

  /** A calendar stamp, only ever assigned from the clock and never inspected. */
  type Day = int

  /** The two button actions recorded in `lastAction`. */
  datatype Action = Done | Skip

  /** One stored profile; the fields without a default are absent until written. */
  datatype Profile = Profile(
    telegramId: Id,
    goal: Option<string>,
    deadline: Option<string>,
    time: Option<string>,
    style: Option<string>,
    points: int,
    level: int,
    streak: int,
    lastAction: Option<Action>,
    lastTaskDate: Option<Day>,
    taskCompletedToday: bool,
    timezone: string)

  const DEFAULT_TIMEZONE: string := "Asia/Tashkent"

  /**
   * The progression state every profile keeps: points never negative, the
   * level the one the points earn, and a streak only while the last action
   * was a completion.
   */
  predicate Consistent(p: Profile) {
    && p.points >= 0
    && p.streak >= 0
    && p.level == LevelFor(p.points)
    && (p.lastAction != Some(Done) ==> p.streak == 0)
  }

  /** The gamification fields agree. */
  predicate SameStanding(a: Profile, b: Profile) {
    a.points == b.points && a.level == b.level && a.streak == b.streak && a.lastAction == b.lastAction
  }

  /** The four onboarding answers agree. */
  predicate SameAnswers(a: Profile, b: Profile) {
    a.goal == b.goal && a.deadline == b.deadline && a.time == b.time && a.style == b.style
  }

  /** The schema defaults for a profile inserted under `id`. */
  function NewProfile(id: Id): (p: Profile)
    ensures p.telegramId == id
    ensures p.points == 0 && p.level == 1 && p.streak == 0
    ensures p.lastAction == None && !p.taskCompletedToday && p.lastTaskDate == None
    ensures p.goal == None && p.deadline == None && p.time == None && p.style == None
    ensures Consistent(p)
  {
    Profile(id, None, None, None, None, 0, 1, 0, None, None, false, DEFAULT_TIMEZONE)
  }

  /**
   * What the onboarding upsert leaves stored under `id`: the four answers are
   * written over the existing profile, or over a freshly defaulted one when
   * there is none; nothing else is touched.
   */
  function UpsertAnswers(existing: Option<Profile>, id: Id,
                         goal: Option<string>, deadline: Option<string>,
                         time: Option<string>, style: Option<string>): (p: Profile)
    ensures p.telegramId == id
    ensures p.goal == goal && p.deadline == deadline && p.time == time && p.style == style
    ensures existing.Some? ==> SameStanding(p, existing.value)
    ensures existing.Some? ==> p.taskCompletedToday == existing.value.taskCompletedToday
    ensures existing.Some? ==> p.lastTaskDate == existing.value.lastTaskDate && p.timezone == existing.value.timezone
    ensures existing.None? ==> SameStanding(p, NewProfile(id)) && !p.taskCompletedToday && p.lastTaskDate == None
    ensures existing.Some? && Consistent(existing.value) ==> Consistent(p)
    ensures existing.None? ==> Consistent(p)
  {
    var base := match existing case Some(e) => e case None => NewProfile(id);
    base.(telegramId := id, goal := goal, deadline := deadline, time := time, style := style)
  }

  /** The profiles of `records` listed in the order of `ids`. */
  function ProfilesInOrder(ids: seq<Id>, records: map<Id, Profile>): (users: seq<Profile>)
    requires forall i :: 0 <= i < |ids| ==> ids[i] in records
    ensures |users| == |ids|
    ensures forall i :: 0 <= i < |ids| ==> users[i] == records[ids[i]]
  {
    if ids == [] then [] else [records[ids[0]]] + ProfilesInOrder(ids[1..], records)
  }

  /**
   * The profile collection. `records` maps each identity to its profile, and
   * `order` is the order in which a full query enumerates them (insertion
   * order); each identity appears in it once.
   */
  class ProfileStore {
    var records: map<Id, Profile>
    var order: seq<Id>

    ghost predicate Valid()
      reads this
    {
      && (forall i, j :: 0 <= i < j < |order| ==> order[i] != order[j])
      && (forall id :: id in records <==> id in order)
      && (forall id :: id in records ==> records[id].telegramId == id && Consistent(records[id]))
    }

    constructor ()
      ensures Valid()
      ensures records == map[] && order == []
    {
      records := map[];
      order := [];
    }

    /** findOne by identity. */
    function FindOne(id: Id): (r: Option<Profile>)
      reads this
      ensures r.Some? <==> id in records
      ensures r.Some? ==> r.value == records[id]
    {
      if id in records then Some(records[id]) else None
    }

    /** find(): every stored profile, in enumeration order. */
    function FindAll(): (users: seq<Profile>)
      reads this
      requires Valid()
      ensures |users| == |order|
      ensures forall i :: 0 <= i < |order| ==> order[i] in records && users[i] == records[order[i]]
    {
      assert forall i :: 0 <= i < |order| ==> order[i] in order;
      ProfilesInOrder(order, records)
    }

    /** save(): write a loaded profile back over the stored one with the same identity. */
    method Save(p: Profile)
      requires Valid()
      requires p.telegramId in records && Consistent(p)
      modifies this
      ensures Valid()
      ensures records == old(records)[p.telegramId := p]
      ensures order == old(order)
    {
      records := records[p.telegramId := p];
    }

    /** findOneAndUpdate with upsert: write the four answers, inserting a defaulted profile if absent. */
    method Upsert(id: Id, goal: Option<string>, deadline: Option<string>,
                  time: Option<string>, style: Option<string>)
      requires Valid()
      modifies this
      ensures Valid()
      ensures records == old(records)[id := UpsertAnswers(old(FindOne(id)), id, goal, deadline, time, style)]
      ensures order == if id in old(records) then old(order) else old(order) + [id]
    {
      var existing := FindOne(id);
      records := records[id := UpsertAnswers(existing, id, goal, deadline, time, style)];
      if existing.None? {
        order := order + [id];
      }
    }
  }
}
