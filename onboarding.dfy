/**
 * The onboarding step machine (index.js, the in-memory `users` map, the start
 * command and the text handler). /start puts an identity at step 1; each text
 * message stores its text verbatim as the answer the step asks for and moves
 * on; the fourth answer moves the session to the sentinel step 999 and
 * upserts the answers into the profile store.
 */
module Onboarding {
  import opened Optional
  import opened UserModel

  /** The step a session is left at once its four answers are collected. */
  const FINISHED := 999

  /** One entry of the in-memory session map: the step and the answers so far. */
  datatype Session = Session(
    step: int,
    goal: Option<string>,
    deadline: Option<string>,
    time: Option<string>,
    style: Option<string>)

  /** What /start stores: step 1 and no answers. */
  function StartSession(): (s: Session)
    ensures s.step == 1 && WellFormed(s)
    ensures s.goal == None && s.deadline == None && s.time == None && s.style == None
  {
    Session(1, None, None, None, None)
  }

  /**
   * The sessions the handlers can produce: at step k exactly the answers of
   * the steps before k are present, and at FINISHED all four are.
   */
  predicate WellFormed(s: Session) {
    && s.step in {1, 2, 3, 4, FINISHED}
    && (s.goal.Some? <==> s.step >= 2)
    && (s.deadline.Some? <==> s.step >= 3)
    && (s.time.Some? <==> s.step >= 4)
    && (s.style.Some? <==> s.step == FINISHED)
  }

  /**
   * One text message on a session: steps 1 to 4 store the text as the goal,
   * deadline, daily time or style and move on; any other step is left as it is.
   */
  function Advance(s: Session, text: string): (r: Session)
    ensures s.step !in {1, 2, 3, 4} ==> r == s
    ensures s.step == 1 ==> r == s.(step := 2, goal := Some(text))
    ensures s.step == 2 ==> r == s.(step := 3, deadline := Some(text))
    ensures s.step == 3 ==> r == s.(step := 4, time := Some(text))
    ensures s.step == 4 ==> r == s.(step := FINISHED, style := Some(text))
    ensures WellFormed(s) ==> WellFormed(r)
  {
    match s.step
    case 1 => s.(goal := Some(text), step := 2)
    case 2 => s.(deadline := Some(text), step := 3)
    case 3 => s.(time := Some(text), step := 4)
    case 4 => s.(style := Some(text), step := FINISHED)
    case _ => s
  }

  /** A run of text messages on one session, in order. */
  function Feed(s: Session, texts: seq<string>): Session
    decreases |texts|
  {
    if texts == [] then s else Feed(Advance(s, texts[0]), texts[1..])
  }

  /** Every message after onboarding finished is ignored. */
  lemma {:induction false} FinishedIgnoresText(s: Session, texts: seq<string>)
    requires s.step == FINISHED
    ensures Feed(s, texts) == s
    decreases |texts|
  {
    if texts != [] {
      FinishedIgnoresText(Advance(s, texts[0]), texts[1..]);
    }
  }

  /**
   * After /start, the first four messages become the goal, deadline, daily
   * time and style, verbatim and in that order, and the session finishes;
   * whatever follows changes nothing.
   */
  lemma OnboardingCollectsAnswers(goal: string, deadline: string, time: string, style: string, later: seq<string>)
    ensures Feed(StartSession(), [goal, deadline, time, style] + later)
         == Session(FINISHED, Some(goal), Some(deadline), Some(time), Some(style))
  {
    var texts := [goal, deadline, time, style] + later;
    assert texts[1..] == [deadline, time, style] + later;
    assert texts[1..][1..] == [time, style] + later;
    assert texts[1..][1..][1..] == [style] + later;
    assert texts[1..][1..][1..][1..] == later;
    var s1 := Advance(StartSession(), goal);
    var s2 := Advance(s1, deadline);
    var s3 := Advance(s2, time);
    var finished := Advance(s3, style);
    assert finished == Session(FINISHED, Some(goal), Some(deadline), Some(time), Some(style));
    assert Feed(StartSession(), texts) == Feed(s1, texts[1..]);
    assert Feed(s1, texts[1..]) == Feed(s2, texts[1..][1..]);
    assert Feed(s2, texts[1..][1..]) == Feed(s3, texts[1..][1..][1..]);
    assert Feed(s3, texts[1..][1..][1..]) == Feed(finished, later);
    FinishedIgnoresText(finished, later);
  }

  /** Fewer than four messages after /start leave the session waiting at the next step. */
  lemma {:induction false} OnboardingInProgress(texts: seq<string>)
    requires |texts| < 4
    ensures Feed(StartSession(), texts).step == |texts| + 1
    ensures WellFormed(Feed(StartSession(), texts))
  {
    var s1 := Advance(StartSession(), if |texts| > 0 then texts[0] else "");
    if |texts| >= 1 {
      assert Feed(StartSession(), texts) == Feed(s1, texts[1..]);
      var s2 := Advance(s1, if |texts| > 1 then texts[1] else "");
      if |texts| >= 2 {
        assert Feed(s1, texts[1..]) == Feed(s2, texts[2..]);
        if |texts| == 3 {
          assert Feed(s2, texts[2..]) == Feed(Advance(s2, texts[2]), texts[3..]);
        }
      }
    }
  }

  /** The reply a text message gets. */
  datatype TextReply =
    | NoReply        // no session, or onboarding already finished
    | AskDeadline
    | AskDailyTime
    | AskStyle
    | TaskSent       // the answers were stored and today's task was generated and sent

  /** The in-memory session map, keyed by chat identity. */
  class SessionTable {
    var sessions: map<Id, Session>

    ghost predicate Valid()
      reads this
    {
      forall id :: id in sessions ==> WellFormed(sessions[id])
    }

    constructor ()
      ensures Valid()
      ensures sessions == map[]
    {
      sessions := map[];
    }

    /** /start: the identity's session is replaced by a new one at step 1, whatever it held. */
    method Start(id: Id)
      requires Valid()
      modifies this
      ensures Valid()
      ensures sessions == old(sessions)[id := StartSession()]
    {
      sessions := sessions[id := StartSession()];
    }
  }

  /**
   * The text handler. Without a session nothing happens. At steps 1 to 3 the
   * answer is stored and the next question asked. At step 4 the style is
   * stored, the session finishes, and the four answers are upserted into the
   * store before today's task is sent. At any other step nothing happens.
   */
  method HandleText(table: SessionTable, store: ProfileStore, id: Id, text: string) returns (reply: TextReply)
    requires table.Valid() && store.Valid()
    modifies table, store
    ensures table.Valid() && store.Valid()
    ensures id !in old(table.sessions) ==>
      reply == NoReply && table.sessions == old(table.sessions)
      && store.records == old(store.records) && store.order == old(store.order)
    ensures id in old(table.sessions) ==>
      table.sessions == old(table.sessions)[id := Advance(old(table.sessions)[id], text)]
    ensures id in old(table.sessions) && old(table.sessions)[id].step == FINISHED ==>
      reply == NoReply && table.sessions == old(table.sessions) && store.records == old(store.records)
    ensures id in old(table.sessions) && old(table.sessions)[id].step == 1 ==> reply == AskDeadline
    ensures id in old(table.sessions) && old(table.sessions)[id].step == 2 ==> reply == AskDailyTime
    ensures id in old(table.sessions) && old(table.sessions)[id].step == 3 ==> reply == AskStyle
    ensures id in old(table.sessions) && old(table.sessions)[id].step != 4 ==>
      store.records == old(store.records) && store.order == old(store.order)
    ensures id in old(table.sessions) && old(table.sessions)[id].step == 4 ==>
      var s := table.sessions[id];
      && reply == TaskSent
      && s.goal.Some? && s.deadline.Some? && s.time.Some? && s.style == Some(text)
      && store.records == old(store.records)[id := UpsertAnswers(old(store.FindOne(id)), id, s.goal, s.deadline, s.time, s.style)]
      && store.order == if id in old(store.records) then old(store.order) else old(store.order) + [id]
  {
    if id !in table.sessions {
      return NoReply;
    }
    var user := table.sessions[id];
    match user.step
    case 1 =>
      user := user.(goal := Some(text));
      user := user.(step := 2);
      table.sessions := table.sessions[id := user];
      reply := AskDeadline;
    case 2 =>
      user := user.(deadline := Some(text));
      user := user.(step := 3);
      table.sessions := table.sessions[id := user];
      reply := AskDailyTime;
    case 3 =>
      user := user.(time := Some(text));
      user := user.(step := 4);
      table.sessions := table.sessions[id := user];
      reply := AskStyle;
    case 4 =>
      user := user.(style := Some(text));
      user := user.(step := FINISHED);
      table.sessions := table.sessions[id := user];
      store.Upsert(id, user.goal, user.deadline, user.time, user.style);
      reply := TaskSent;
    case _ =>
      reply := NoReply;
  }
}
