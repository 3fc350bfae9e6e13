/** The exam maintenance service: sessions as transactions. */
module ExamService {
  import opened Wrappers

  // Start and end events of exam sessions
  // (backend/exam_service/exam-maintenance-serve_latest.go), each handled by one
  // transaction.

  // ----- the tables; a two-digit status code is its number -----

  type Id = int
  type Time = int

  const EXAM_PENDING := 2
  const EXAM_ONGOING := 4
  const EXAM_ENDED := 6
  const EXAM_ABNORMAL := 10

  const SESSION_PENDING := 2
  const SESSION_ONGOING := 4
  const SESSION_ENDED := 6
  const SESSION_MARKING := 8
  const MARK_MANUALLY := 2

  const EXAMINEE_NORMAL := 0
  const EXAMINEE_ABSENT := 2
  const EXAMINEE_DELETED := 8
  const EXAMINEE_SUBMITTED := 10
  const EXAMINEE_ADMITTED := 16

  const RETRY_DELAY := 60000

  datatype Session = Session(examId: Id, status: int, startTime: Time, endTime: Time, markMethod: int, actualEnd: Option<Time>)
  datatype Examinee = Examinee(sessionId: Id, status: int, startTime: Option<Time>, endTime: Option<Time>)

  /** What the view on examinees shows beside their row. */
  datatype ViewRow = ViewRow(examId: Id, actualEnd: Option<Time>)
  type View = map<Id, ViewRow>

  /** `exams` holds the status of each exam. */
  datatype Db = Db(exams: map<Id, int>, sessions: map<Id, Session>, examinees: map<Id, Examinee>)

  predicate Open(status: int) {
    status == SESSION_PENDING || status == SESSION_ONGOING
  }

  predicate Deleted(status: int) {
    status == 14 || status == 16
  }

  predicate Closed(status: int) {
    status == SESSION_ENDED || status == SESSION_MARKING
  }

  /** Has an examinee with this status finished? */
  predicate Terminal(status: int) {
    status in {2, 6, 8, 10, 12, 14}
  }

  // ----- the statements of the handlers -----

  predicate HasExaminees(db: Db, sid: Id) {
    exists i | i in db.examinees :: db.examinees[i].sessionId == sid && db.examinees[i].status != EXAMINEE_DELETED
  }

  /** Is the examinee due at `now`, by the view and the status of the exam the view names? */
  predicate Due(exams: map<Id, int>, view: View, i: Id, now: Time) {
    && i in view && view[i].actualEnd.Some? && view[i].actualEnd.value <= now
    && view[i].examId in exams && exams[view[i].examId] in {2, 4, 6}
  }

  predicate Collected(db: Db, view: View, sid: Id, i: Id, now: Time)
    requires i in db.examinees
  {
    && db.examinees[i].sessionId == sid
    && db.examinees[i].status in {EXAMINEE_NORMAL, EXAMINEE_SUBMITTED, EXAMINEE_ADMITTED}
    && Due(db.exams, view, i, now)
  }

  function Submitted(e: Examinee, v: ViewRow): Examinee {
    if e.startTime.Some?
    then e.(status := EXAMINEE_SUBMITTED, endTime := if v.actualEnd.Some? then v.actualEnd else e.endTime)
    else e.(status := EXAMINEE_ABSENT)
  }

  function CollectExaminees(db: Db, view: View, sid: Id, now: Time): map<Id, Examinee> {
    map i | i in db.examinees ::
      if Collected(db, view, sid, i, now) then Submitted(db.examinees[i], view[i]) else db.examinees[i]
  }

  predicate Unfinished(examinees: map<Id, Examinee>, sid: Id) {
    exists i | i in examinees :: examinees[i].sessionId == sid && !Terminal(examinees[i].status)
  }

  function CloseSession(s: Session, now: Time): Session {
    if Open(s.status) && s.endTime <= now
    then s.(status := if s.markMethod == MARK_MANUALLY then SESSION_MARKING else SESSION_ENDED, actualEnd := Some(now))
    else s
  }

  predicate AllSessionsOver(sessions: map<Id, Session>, eid: Id) {
    forall s | s in sessions :: sessions[s].examId == eid ==> !Open(sessions[s].status)
  }

  function EndExam(exams: map<Id, int>, sessions: map<Id, Session>, eid: Id): map<Id, int> {
    if eid in exams && exams[eid] in {EXAM_PENDING, EXAM_ONGOING} && AllSessionsOver(sessions, eid)
    then exams[eid := EXAM_ENDED] else exams
  }

  // ----- the transactions; `None` is one that is rolled back -----

  ghost function StartStep(db: Db, sid: Id, now: Time): Option<Db> {
    if sid !in db.sessions || Deleted(db.sessions[sid].status) then None
    else
      var s := db.sessions[sid];
      var exam := if s.examId in db.exams then db.exams[s.examId] else -1;
      if !HasExaminees(db, sid) then
        if exam == EXAM_PENDING && s.startTime <= now
        then Some(db.(exams := db.exams[s.examId := EXAM_ABNORMAL])) else None
      else if s.status == SESSION_PENDING && s.startTime <= now then
        var sessions := db.sessions[sid := s.(status := SESSION_ONGOING)];
        Some(db.(sessions := sessions,
                 exams := if exam == EXAM_PENDING then db.exams[s.examId := EXAM_ONGOING] else db.exams))
      else None
  }

  /** The new tables, and whether the event has to be handled again. */
  ghost function EndStep(db: Db, view: View, sid: Id, now: Time): Option<(Db, bool)> {
    if sid !in db.sessions then None
    else
      var examinees := CollectExaminees(db, view, sid, now);
      if Unfinished(examinees, sid) then Some((db.(examinees := examinees), true))
      else
        var s := db.sessions[sid];
        var sessions := db.sessions[sid := CloseSession(s, now)];
        Some((Db(EndExam(db.exams, sessions, s.examId), sessions, examinees), false))
  }

  // ----- timers -----

  datatype EventType = SessionStart | SessionEnd
  datatype ExamEvent = ExamEvent(eventType: EventType, examId: Id, sessionId: Id)
  datatype Key = Key(eventType: EventType, sessionId: Id)
  datatype Timer = Timer(trigger: Time, event: ExamEvent)

  /** The timers that are armed and the events that wait to be handled. */
  datatype Schedule = Schedule(timers: map<Key, Timer>, queue: seq<ExamEvent>)

  /** A timer replaces the one of the same type and session; an event that is due goes to the queue at once. */
  function Armed(t: Schedule, sid: Id, trigger: Time, event: ExamEvent, clock: Time): Schedule {
    var k := Key(event.eventType, sid);
    if trigger <= clock then Schedule(t.timers - {k}, t.queue + [event])
    else t.(timers := t.timers[k := Timer(trigger, event)])
  }

  class ExamTimerManager {
    var timers: map<Key, Timer>
    var eventQueue: seq<ExamEvent>

    constructor ()
      ensures State() == Schedule(map[], [])
    {
      timers, eventQueue := map[], [];
    }

    function State(): Schedule
      reads this
    {
      Schedule(timers, eventQueue)
    }

    method SetExamSessionTimer(sid: Id, trigger: Time, event: ExamEvent, clock: Time)
      modifies this
      ensures State() == Armed(old(State()), sid, trigger, event, clock)
    {
      var k := Key(event.eventType, sid);
      if k in timers {
        timers := timers - {k};
      }
      if trigger - clock <= 0 {
        eventQueue := eventQueue + [event];
        return;
      }
      timers := timers[k := Timer(trigger, event)];
    }

    method CancelExamSessionTimer(eventType: EventType, sid: Id)
      modifies this`timers
      ensures timers == old(timers) - {Key(eventType, sid)}
    {
      if Key(eventType, sid) in timers {
        timers := timers - {Key(eventType, sid)};
      }
    }
  }

  // ----- timers after a restart -----

  /** The events of the sessions `rows` are armed in order, start before end. */
  ghost function Initialised(t: Schedule, sessions: map<Id, Session>, rows: seq<Id>, clock: Time): Schedule
    requires forall k | 0 <= k < |rows| :: rows[k] in sessions
  {
    if rows == [] then t
    else
      var n := |rows| - 1;
      ArmedBoth(Initialised(t, sessions, rows[..n], clock), rows[n], sessions[rows[n]], clock)
  }

  function ArmedBoth(t: Schedule, sid: Id, s: Session, clock: Time): Schedule {
    var started := Armed(t, sid, s.startTime, ExamEvent(SessionStart, s.examId, sid), clock);
    Armed(started, sid, s.endTime, ExamEvent(SessionEnd, s.examId, sid), clock)
  }

  /** `event` either waits in the queue, due, or has a timer for `trigger`. */
  predicate Pending(t: Schedule, sid: Id, trigger: Time, event: ExamEvent, clock: Time) {
    var k := Key(event.eventType, sid);
    if trigger <= clock then event in t.queue && k !in t.timers else k in t.timers && t.timers[k] == Timer(trigger, event)
  }

  /** After a restart every session has both its events ahead: each in the queue when it is due, and otherwise behind
      its timer. */
  lemma {:induction false} InitialisedPending(t: Schedule, sessions: map<Id, Session>, rows: seq<Id>, clock: Time, k: nat)
    requires forall j | 0 <= j < |rows| :: rows[j] in sessions
    requires forall i, j | 0 <= i < j < |rows| :: rows[i] != rows[j]
    requires k < |rows|
    ensures var sid, s, now := rows[k], sessions[rows[k]], Initialised(t, sessions, rows, clock);
            && Pending(now, sid, s.startTime, ExamEvent(SessionStart, s.examId, sid), clock)
            && Pending(now, sid, s.endTime, ExamEvent(SessionEnd, s.examId, sid), clock)
    decreases |rows|
  {
    var n := |rows| - 1;
    var before := Initialised(t, sessions, rows[..n], clock);
    if k < n {
      InitialisedPending(t, sessions, rows[..n], clock, k);
      assert rows[..n][k] == rows[k];
      PendingKept(before, rows[n], sessions[rows[n]], clock, rows[k], sessions[rows[k]].startTime,
                  ExamEvent(SessionStart, sessions[rows[k]].examId, rows[k]));
      PendingKept(before, rows[n], sessions[rows[n]], clock, rows[k], sessions[rows[k]].endTime,
                  ExamEvent(SessionEnd, sessions[rows[k]].examId, rows[k]));
    }
  }

  lemma PendingKept(t: Schedule, other: Id, s: Session, clock: Time, sid: Id, trigger: Time, event: ExamEvent)
    requires sid != other && Pending(t, sid, trigger, event, clock)
    ensures Pending(ArmedBoth(t, other, s, clock), sid, trigger, event, clock)
  {
  }

  /** The sessions of an exam that are not deleted. */
  function SessionsOf(sessions: map<Id, Session>, eid: Id): set<Id> {
    set s | s in sessions && sessions[s].examId == eid && !Deleted(sessions[s].status)
  }

  lemma SomeSession(ss: set<Id>)
    requires ss != {}
    ensures exists s :: s in ss
  {
    if forall s :: s !in ss {
      assert false;
    }
  }

  /** The timers of the sessions in `ss`. */
  ghost function KeysOf(ss: set<Id>): set<Key> {
    (set s | s in ss :: Key(SessionStart, s)) + (set s | s in ss :: Key(SessionEnd, s))
  }

  lemma KeysWith(ss: set<Id>, s: Id)
    ensures KeysOf(ss + {s}) == KeysOf(ss) + {Key(SessionStart, s), Key(SessionEnd, s)}
  {
  }

  class ExamService {
    const view: View
    const manager: ExamTimerManager
    var exams: map<Id, int>
    var sessions: map<Id, Session>
    var examinees: map<Id, Examinee>

    constructor (view: View, manager: ExamTimerManager, db: Db)
      ensures this.view == view && this.manager == manager && Tables() == db
    {
      this.view, this.manager := view, manager;
      exams, sessions, examinees := db.exams, db.sessions, db.examinees;
    }

    function Tables(): Db
      reads this
    {
      Db(exams, sessions, examinees)
    }

    /** Cancels the timers of all sessions of an exam that are not deleted. */
    method CancelExamTimers(eid: Id)
      modifies manager`timers
      ensures manager.timers == old(manager.timers) - KeysOf(SessionsOf(sessions, eid))
    {
      var rows: set<Id> := SessionsOf(sessions, eid);
      ghost var all, done := rows, {};
      while rows != {}
        invariant rows <= all && done == all - rows
        invariant manager.timers == old(manager.timers) - KeysOf(done)
        decreases |rows|
      {
        SomeSession(rows);
        var s :| s in rows;
        manager.CancelExamSessionTimer(SessionStart, s);
        manager.CancelExamSessionTimer(SessionEnd, s);
        rows := rows - {s};
        KeysWith(done, s);
        done := done + {s};
      }
    }

    /** `InitializeExamTimers`; `rows` is what the query finds: the sessions that are not deleted of exams that are
        pending or under way. */
    method InitializeExamTimers(rows: seq<Id>, clock: Time)
      requires forall k | 0 <= k < |rows| :: rows[k] in sessions
      modifies manager
      ensures manager.State() == Initialised(old(manager.State()), sessions, rows, clock)
    {
      for n := 0 to |rows|
        invariant manager.State() == Initialised(old(manager.State()), sessions, rows[..n], clock)
      {
        var sid := rows[n];
        var s := sessions[sid];
        assert rows[..n + 1][..n] == rows[..n];
        manager.SetExamSessionTimer(sid, s.startTime, ExamEvent(SessionStart, s.examId, sid), clock);
        manager.SetExamSessionTimer(sid, s.endTime, ExamEvent(SessionEnd, s.examId, sid), clock);
      }
      assert rows[..|rows|] == rows;
    }

    /** `handleExamSessionStart`. */
    method HandleExamSessionStart(event: ExamEvent, now: Time) returns (ok: bool)
      modifies this`exams, this`sessions, manager`timers
      ensures match StartStep(old(Tables()), event.sessionId, now)
              case None => !ok && Tables() == old(Tables()) && manager.timers == old(manager.timers)
              case Some(db) =>
                && ok && Tables() == db
                && manager.timers == old(manager.timers) -
                     if HasExaminees(old(Tables()), event.sessionId) then {}
                     else KeysOf(SessionsOf(old(sessions), old(sessions)[event.sessionId].examId))
    {
      var sid := event.sessionId;
      if sid !in sessions || Deleted(sessions[sid].status) {
        return false;
      }
      var s := sessions[sid];
      if !HasExaminees(Tables(), sid) {
        if !(s.examId in exams && exams[s.examId] == EXAM_PENDING && s.startTime <= now) {
          return false;
        }
        exams := exams[s.examId := EXAM_ABNORMAL];
        CancelExamTimers(s.examId);
        return true;
      }
      if !(s.status == SESSION_PENDING && s.startTime <= now) {
        return false;
      }
      sessions := sessions[sid := s.(status := SESSION_ONGOING)];
      if s.examId in exams && exams[s.examId] == EXAM_PENDING {
        exams := exams[s.examId := EXAM_ONGOING];
      }
      return true;
    }

    /** `handleExamSessionEnd`; `clock` is read when the retry is armed. */
    method HandleExamSessionEnd(event: ExamEvent, now: Time, clock: Time) returns (ok: bool)
      modifies this, manager
      ensures match EndStep(old(Tables()), view, event.sessionId, now)
              case None => !ok && Tables() == old(Tables()) && manager.State() == old(manager.State())
              case Some((db, again)) =>
                && ok && Tables() == db
                && var retry := ExamEvent(SessionEnd, old(sessions)[event.sessionId].examId, event.sessionId);
                   manager.State() == if again then Armed(old(manager.State()), event.sessionId, now + RETRY_DELAY, retry, clock)
                                      else old(manager.State())
    {
      var sid, before := event.sessionId, examinees;
      examinees := CollectExaminees(Tables(), view, sid, now);
      if sid !in sessions {
        examinees := before;
        return false;
      }
      var s := sessions[sid];
      if Unfinished(examinees, sid) {
        manager.SetExamSessionTimer(sid, now + RETRY_DELAY, ExamEvent(SessionEnd, s.examId, sid), clock);
        return true;
      }
      sessions := sessions[sid := CloseSession(s, now)];
      exams := EndExam(exams, sessions, s.examId);
      return true;
    }
  }

  // ----- runs: any events in any order, late, repeated or out of turn -----

  datatype Moment = Moment(event: ExamEvent, now: Time)

  ghost function Step(db: Db, view: View, m: Moment): Db {
    match m.event.eventType
    case SessionStart => StartStep(db, m.event.sessionId, m.now).GetOr(db)
    case SessionEnd =>
      match EndStep(db, view, m.event.sessionId, m.now)
      case None => db
      case Some((next, _)) => next
  }

  ghost function Run(db: Db, view: View, ms: seq<Moment>): Db
    decreases |ms|
  {
    if ms == [] then db else Run(Step(db, view, ms[0]), view, ms[1..])
  }

  // ----- safety -----

  /** Every session belongs to an exam and every examinee to a session. */
  ghost predicate Linked(db: Db) {
    && (forall s | s in db.sessions :: db.sessions[s].examId in db.exams)
    && (forall i | i in db.examinees :: db.examinees[i].sessionId in db.sessions)
  }

  /** An open session has an exam that is neither ended nor withdrawn, one under way an exam that is under way or
      abnormal, and the examinees of a closed session have all finished. */
  ghost predicate Safe(db: Db)
    requires Linked(db)
  {
    && (forall s | s in db.sessions ::
          Open(db.sessions[s].status) ==>
            db.exams[db.sessions[s].examId] in {EXAM_PENDING, EXAM_ONGOING, EXAM_ABNORMAL})
    && (forall s | s in db.sessions ::
          db.sessions[s].status == SESSION_ONGOING ==> db.exams[db.sessions[s].examId] in {EXAM_ONGOING, EXAM_ABNORMAL})
    && (forall i | i in db.examinees ::
          Closed(db.sessions[db.examinees[i].sessionId].status) ==> Terminal(db.examinees[i].status))
  }

  ghost predicate AllPending(db: Db) {
    && (forall e | e in db.exams :: db.exams[e] == EXAM_PENDING)
    && (forall s | s in db.sessions :: db.sessions[s].status == SESSION_PENDING)
  }

  /** The order in which the statuses follow each other. */
  predicate ExamForward(a: int, b: int) {
    a == b || (a == EXAM_PENDING && b in {EXAM_ONGOING, EXAM_ENDED, EXAM_ABNORMAL}) || (a == EXAM_ONGOING && b == EXAM_ENDED)
  }

  predicate SessionForward(a: int, b: int) {
    a == b || (a == SESSION_PENDING && (b == SESSION_ONGOING || Closed(b))) || (a == SESSION_ONGOING && Closed(b))
  }

  ghost predicate Forward(a: Db, b: Db) {
    && a.exams.Keys == b.exams.Keys && a.sessions.Keys == b.sessions.Keys && a.examinees.Keys == b.examinees.Keys
    && (forall e | e in a.exams :: ExamForward(a.exams[e], b.exams[e]))
    && (forall s | s in a.sessions :: SessionForward(a.sessions[s].status, b.sessions[s].status))
    && (forall s | s in a.sessions :: a.sessions[s].examId == b.sessions[s].examId)
    && (forall i | i in a.examinees :: a.examinees[i].sessionId == b.examinees[i].sessionId)
  }

  lemma StartKeeps(db: Db, sid: Id, now: Time)
    requires Linked(db) && Safe(db) && StartStep(db, sid, now).Some?
    ensures var next := StartStep(db, sid, now).value; Forward(db, next) && Linked(next) && Safe(next)
  {
  }

  lemma CollectKeeps(db: Db, view: View, sid: Id, now: Time)
    requires Linked(db) && Safe(db)
    ensures var next := db.(examinees := CollectExaminees(db, view, sid, now));
            Forward(db, next) && Linked(next) && Safe(next)
  {
  }

  lemma CloseKeeps(db: Db, sid: Id, now: Time)
    requires Linked(db) && Safe(db) && sid in db.sessions && !Unfinished(db.examinees, sid)
    ensures var sessions := db.sessions[sid := CloseSession(db.sessions[sid], now)];
            var next := db.(sessions := sessions); Forward(db, next) && Linked(next) && Safe(next)
  {
  }

  lemma EndExamKeeps(db: Db, eid: Id)
    requires Linked(db) && Safe(db)
    ensures var next := db.(exams := EndExam(db.exams, db.sessions, eid)); Forward(db, next) && Linked(next) && Safe(next)
  {
  }

  lemma ForwardTrans(a: Db, b: Db, c: Db)
    requires Forward(a, b) && Forward(b, c)
    ensures Forward(a, c)
  {
  }

  lemma EndKeeps(db: Db, view: View, sid: Id, now: Time)
    requires Linked(db) && Safe(db) && EndStep(db, view, sid, now).Some?
    ensures var next := EndStep(db, view, sid, now).value.0; Forward(db, next) && Linked(next) && Safe(next)
  {
    CollectKeeps(db, view, sid, now);
    var collected := db.(examinees := CollectExaminees(db, view, sid, now));
    if !Unfinished(collected.examinees, sid) {
      var closed := collected.(sessions := db.sessions[sid := CloseSession(db.sessions[sid], now)]);
      CloseKeeps(collected, sid, now);
      ForwardTrans(db, collected, closed);
      EndExamKeeps(closed, db.sessions[sid].examId);
      ForwardTrans(db, closed, closed.(exams := EndExam(closed.exams, closed.sessions, db.sessions[sid].examId)));
    }
  }

  lemma StepKeeps(db: Db, view: View, m: Moment)
    requires Linked(db) && Safe(db)
    ensures var next := Step(db, view, m); Forward(db, next) && Linked(next) && Safe(next)
  {
    match m.event.eventType
    case SessionStart =>
      if StartStep(db, m.event.sessionId, m.now).Some? {
        StartKeeps(db, m.event.sessionId, m.now);
      }
    case SessionEnd =>
      if EndStep(db, view, m.event.sessionId, m.now).Some? {
        EndKeeps(db, view, m.event.sessionId, m.now);
      }
  }

  lemma {:induction false} RunKeeps(db: Db, view: View, ms: seq<Moment>)
    requires Linked(db) && Safe(db)
    ensures var next := Run(db, view, ms); Forward(db, next) && Linked(next) && Safe(next)
    decreases |ms|
  {
    if ms != [] {
      StepKeeps(db, view, ms[0]);
      var next := Step(db, view, ms[0]);
      RunKeeps(next, view, ms[1..]);
      ForwardTrans(db, next, Run(next, view, ms[1..]));
    }
  }

  lemma {:induction false} RunSplit(db: Db, view: View, a: seq<Moment>, b: seq<Moment>)
    ensures Run(db, view, a + b) == Run(Run(db, view, a), view, b)
    decreases |a|
  {
    if a == [] {
      assert a + b == b;
    } else {
      RunSplit(Step(db, view, a[0]), view, a[1..], b);
      assert (a + b)[1..] == a[1..] + b;
    }
  }

  /** From an all-pending state: at every point of every run the state is safe, and no status ever moves backwards. */
  lemma EveryRunSafe(db: Db, view: View, ms: seq<Moment>, i: nat, j: nat)
    requires Linked(db) && AllPending(db) && i <= j <= |ms|
    ensures Linked(Run(db, view, ms[..i])) && Safe(Run(db, view, ms[..i]))
    ensures Forward(Run(db, view, ms[..i]), Run(db, view, ms[..j]))
  {
    RunKeeps(db, view, ms[..i]);
    RunSplit(db, view, ms[..i], ms[i..j]);
    assert ms[..i] + ms[i..j] == ms[..j];
    RunKeeps(Run(db, view, ms[..i]), view, ms[i..j]);
  }

  // ----- repeated events -----

  /** A session cannot be started twice. */
  lemma StartTwice(db: Db, sid: Id, now: Time, later: Time)
    requires StartStep(db, sid, now).Some?
    ensures StartStep(StartStep(db, sid, now).value, sid, later) == None
  {
    var next := StartStep(db, sid, now).value;
    assert HasExaminees(next, sid) <==> HasExaminees(db, sid);
  }

  lemma CollectTwice(db: Db, next: Db, view: View, sid: Id, now: Time)
    requires next.examinees == CollectExaminees(db, view, sid, now)
    requires forall i | i in db.examinees :: Due(next.exams, view, i, now) == Due(db.exams, view, i, now)
    ensures CollectExaminees(next, view, sid, now) == next.examinees
  {
    forall i | i in next.examinees
      ensures CollectExaminees(next, view, sid, now)[i] == next.examinees[i]
    {
    }
  }

  /** An end event that is handled twice at the same moment has the effect of one. */
  lemma EndTwice(db: Db, view: View, sid: Id, now: Time)
    requires EndStep(db, view, sid, now).Some?
    ensures var r := EndStep(db, view, sid, now); EndStep(r.value.0, view, sid, now) == r
  {
    var (next, again) := EndStep(db, view, sid, now).value;
    CollectTwice(db, next, view, sid, now);
    if !again {
      var s, t := db.sessions[sid], next.sessions[sid];
      assert CloseSession(t, now) == t;
      assert next.sessions[sid := t] == next.sessions;
      assert EndExam(next.exams, next.sessions, s.examId) == next.exams;
    }
  }

  // ----- the retries of an end event -----

  /** An examinee of the session who has not finished. */
  predicate Waits(db: Db, sid: Id, i: Id) {
    i in db.examinees && db.examinees[i].sessionId == sid && !Terminal(db.examinees[i].status)
  }

  /** Will the examinee be collected once the time comes? */
  predicate Collectable(db: Db, view: View, i: Id) {
    && i in db.examinees && db.examinees[i].status in {EXAMINEE_NORMAL, EXAMINEE_ADMITTED}
    && i in view && view[i].actualEnd.Some? && Due(db.exams, view, i, view[i].actualEnd.value)
  }

  ghost predicate Stuck(db: Db, view: View, sid: Id) {
    exists i | i in db.examinees :: Waits(db, sid, i) && !Collectable(db, view, i)
  }

  /** By `latest` the time of everyone who can be collected has come. */
  ghost predicate OverBy(db: Db, view: View, sid: Id, latest: Time) {
    forall i | i in db.examinees :: Waits(db, sid, i) && Collectable(db, view, i) ==> view[i].actualEnd.value <= latest
  }

  /** Does an end event at `now` arm a retry? */
  ghost predicate Again(db: Db, view: View, sid: Id, now: Time) {
    EndStep(db, view, sid, now).Some? && EndStep(db, view, sid, now).value.1
  }

  /** Who is left after collecting at `now`. */
  lemma Left(db: Db, view: View, sid: Id, now: Time, i: Id)
    requires i in db.examinees
    ensures var next := db.(examinees := CollectExaminees(db, view, sid, now));
            Waits(next, sid, i) <==>
            Waits(db, sid, i) && !(Collectable(db, view, i) && view[i].actualEnd.value <= now)
    ensures var next := db.(examinees := CollectExaminees(db, view, sid, now));
            Waits(next, sid, i) ==> next.examinees[i] == db.examinees[i]
  {
  }

  /** An end event is handled again exactly while someone waits who cannot be collected yet. */
  lemma AgainWhile(db: Db, view: View, sid: Id, now: Time)
    requires sid in db.sessions
    ensures Again(db, view, sid, now) <==>
            exists i | i in db.examinees :: Waits(db, sid, i) && !(Collectable(db, view, i) && view[i].actualEnd.value <= now)
  {
    var next := db.(examinees := CollectExaminees(db, view, sid, now));
    forall i | i in db.examinees
      ensures Waits(next, sid, i) <==> Waits(db, sid, i) && !(Collectable(db, view, i) && view[i].actualEnd.value <= now)
    {
      Left(db, view, sid, now, i);
    }
    assert Unfinished(next.examinees, sid) <==> exists i | i in db.examinees :: Waits(next, sid, i);
  }

  /** An end event that is handled again changes neither who is stuck nor anything but examinees. */
  lemma AgainKeeps(db: Db, view: View, sid: Id, now: Time, latest: Time)
    requires Again(db, view, sid, now) && OverBy(db, view, sid, latest)
    ensures var next := EndStep(db, view, sid, now).value.0;
            && next.sessions == db.sessions && next.exams == db.exams && OverBy(next, view, sid, latest)
            && (Stuck(next, view, sid) <==> Stuck(db, view, sid))
  {
    var next := EndStep(db, view, sid, now).value.0;
    forall i | i in db.examinees
      ensures Waits(next, sid, i) ==> Waits(db, sid, i) && next.examinees[i] == db.examinees[i]
      ensures Waits(db, sid, i) && !Collectable(db, view, i) ==> Waits(next, sid, i) && !Collectable(next, view, i)
    {
      Left(db, view, sid, now, i);
    }
  }

  // ----- chains of retries -----

  /** The tables after end events at `times`. */
  ghost function Retried(db: Db, view: View, sid: Id, times: seq<Time>): Db
    requires sid in db.sessions
    decreases |times|
  {
    if times == [] then db else Retried(EndStep(db, view, sid, times[0]).value.0, view, sid, times[1..])
  }

  /** Did each of them arm a retry? */
  ghost predicate AllAgain(db: Db, view: View, sid: Id, times: seq<Time>)
    requires sid in db.sessions
    decreases |times|
  {
    times == [] ||
    (Again(db, view, sid, times[0]) && AllAgain(EndStep(db, view, sid, times[0]).value.0, view, sid, times[1..]))
  }

  /** A retry is handled a minute after the event before it, or later. */
  ghost predicate Spaced(times: seq<Time>) {
    forall k | 0 <= k < |times| - 1 :: times[k] + RETRY_DELAY <= times[k + 1]
  }

  /** Retries go on without end exactly when someone is stuck: if all are over by `latest`, the chain `times`
      reaching it consists of retries throughout exactly then. */
  lemma {:induction false} RetriesExact(db: Db, view: View, sid: Id, times: seq<Time>, latest: Time)
    requires sid in db.sessions && OverBy(db, view, sid, latest)
    requires times != [] && latest <= times[|times| - 1]
    ensures AllAgain(db, view, sid, times) <==> Stuck(db, view, sid)
    decreases |times|
  {
    AgainWhile(db, view, sid, times[0]);
    if Again(db, view, sid, times[0]) {
      AgainKeeps(db, view, sid, times[0], latest);
      if |times| > 1 {
        RetriesExact(EndStep(db, view, sid, times[0]).value.0, view, sid, times[1..], latest);
      }
    }
  }

  /** Without anyone stuck the number of retries is bounded by the latest end. */
  lemma {:induction false} RetriesBounded(db: Db, view: View, sid: Id, times: seq<Time>, latest: Time)
    requires sid in db.sessions && OverBy(db, view, sid, latest) && !Stuck(db, view, sid)
    requires Spaced(times) && times != [] && AllAgain(db, view, sid, times)
    ensures RETRY_DELAY * (|times| - 1) < latest - times[0]
    decreases |times|
  {
    AgainWhile(db, view, sid, times[0]);
    AgainKeeps(db, view, sid, times[0], latest);
    if |times| > 1 {
      assert Spaced(times[1..]) by {
        forall k | 0 <= k < |times| - 2 ensures times[1..][k] + RETRY_DELAY <= times[1..][k + 1] {
          assert times[1 + k] + RETRY_DELAY <= times[1 + k + 1];
        }
      }
      RetriesBounded(EndStep(db, view, sid, times[0]).value.0, view, sid, times[1..], latest);
    }
  }

  lemma AfterFirst(db: Db, view: View, sid: Id, times: seq<Time>, j: nat)
    requires sid in db.sessions && j < |times| && Again(db, view, sid, times[0])
    requires EndStep(db, view, sid, times[0]).value.0.sessions == db.sessions
    ensures var next := EndStep(db, view, sid, times[0]).value.0;
            && Retried(db, view, sid, times[..j + 1]) == Retried(next, view, sid, times[1..][..j])
            && (AllAgain(db, view, sid, times[..j + 1]) <==> AllAgain(next, view, sid, times[1..][..j]))
  {
    assert times[..j + 1][1..] == times[1..][..j] && times[..j + 1][0] == times[0];
  }

  lemma CloseFirst(db: Db, view: View, sid: Id, times: seq<Time>)
    requires sid in db.sessions && Open(db.sessions[sid].status)
    requires times != [] && !Again(db, view, sid, times[0]) && db.sessions[sid].endTime <= times[0]
    ensures var next := Retried(db, view, sid, times[..1]); sid in next.sessions && Closed(next.sessions[sid].status)
  {
    assert times[..1][1..] == [] && times[..1][0] == times[0];
  }

  /** Some event of the chain, the first without a retry, closes the session. */
  lemma {:induction false} RetriesClose(db: Db, view: View, sid: Id, times: seq<Time>, latest: Time) returns (k: nat)
    requires sid in db.sessions && OverBy(db, view, sid, latest) && !Stuck(db, view, sid)
    requires Open(db.sessions[sid].status)
    requires times != [] && latest <= times[|times| - 1]
    requires forall k | 0 <= k < |times| :: db.sessions[sid].endTime <= times[k]
    ensures k < |times| && AllAgain(db, view, sid, times[..k])
    ensures sid in Retried(db, view, sid, times[..k + 1]).sessions
    ensures Closed(Retried(db, view, sid, times[..k + 1]).sessions[sid].status)
    decreases |times|
  {
    AgainWhile(db, view, sid, times[0]);
    if !Again(db, view, sid, times[0]) {
      k := 0;
      CloseFirst(db, view, sid, times);
    } else {
      AgainKeeps(db, view, sid, times[0], latest);
      var next := EndStep(db, view, sid, times[0]).value.0;
      var j := RetriesClose(next, view, sid, times[1..], latest);
      k := j + 1;
      AfterFirst(db, view, sid, times, j);
      AfterFirst(db, view, sid, times, k);
    }
  }

  // ----- the retries of a session inside any run -----

  /** The exams that the view names for those who wait are no longer pending, so that they do not become abnormal. */
  ghost predicate Decided(db: Db, view: View, sid: Id) {
    forall i | i in db.examinees && Waits(db, sid, i) && i in view ::
      view[i].examId in db.exams ==> db.exams[view[i].examId] != EXAM_PENDING
  }

  /** What an event can do to an examinee who waits: nothing, or collect one who can be collected. */
  ghost predicate WaitsOn(db: Db, next: Db, view: View, sid: Id, i: Id) {
    && (Waits(next, sid, i) ==> Waits(db, sid, i) && next.examinees[i] == db.examinees[i])
    && (Waits(db, sid, i) && !Collectable(db, view, i) ==> Waits(next, sid, i))
  }

  lemma CollectWaits(db: Db, view: View, other: Id, now: Time, sid: Id, i: Id)
    ensures WaitsOn(db, db.(examinees := CollectExaminees(db, view, other, now)), view, sid, i)
  {
  }

  lemma StepWaits(db: Db, view: View, m: Moment, sid: Id, i: Id)
    ensures WaitsOn(db, Step(db, view, m), view, sid, i)
  {
    match m.event.eventType
    case SessionStart =>
    case SessionEnd => CollectWaits(db, view, m.event.sessionId, m.now, sid, i);
  }

  /** An exam that is not pending stays collectable, or stays not collectable. */
  lemma StepExams(db: Db, view: View, m: Moment, e: Id)
    requires e in db.exams ==> db.exams[e] != EXAM_PENDING
    ensures var next := Step(db, view, m);
            && (e in next.exams <==> e in db.exams)
            && (e in db.exams ==> next.exams[e] != EXAM_PENDING && (next.exams[e] in {2, 4, 6} <==> db.exams[e] in {2, 4, 6}))
  {
    match m.event.eventType
    case SessionStart =>
      if StartStep(db, m.event.sessionId, m.now).Some? {
        StartExams(db, m.event.sessionId, m.now, e);
      }
    case SessionEnd =>
  }

  lemma StartExams(db: Db, sid: Id, now: Time, e: Id)
    requires e in db.exams ==> db.exams[e] != EXAM_PENDING
    requires StartStep(db, sid, now).Some?
    ensures var next := StartStep(db, sid, now).value;
            && (e in next.exams <==> e in db.exams)
            && (e in db.exams ==> next.exams[e] == db.exams[e])
  {
  }

  lemma StepCollectable(db: Db, view: View, m: Moment, sid: Id, i: Id)
    requires Decided(db, view, sid) && Waits(Step(db, view, m), sid, i)
    ensures Waits(db, sid, i) && (Collectable(Step(db, view, m), view, i) <==> Collectable(db, view, i))
    ensures var next := Step(db, view, m); i in view && view[i].examId in next.exams ==> next.exams[view[i].examId] != EXAM_PENDING
  {
    StepWaits(db, view, m, sid, i);
    if i in view {
      StepExams(db, view, m, view[i].examId);
    }
  }

  /** No event changes who is stuck, by when the others are over, or that their exams are decided. */
  lemma StepStuck(db: Db, view: View, m: Moment, sid: Id, latest: Time)
    requires Decided(db, view, sid) && OverBy(db, view, sid, latest)
    ensures var next := Step(db, view, m);
            Decided(next, view, sid) && OverBy(next, view, sid, latest) && (Stuck(next, view, sid) <==> Stuck(db, view, sid))
  {
    var next := Step(db, view, m);
    forall i | Waits(next, sid, i)
      ensures Waits(db, sid, i) && (Collectable(next, view, i) <==> Collectable(db, view, i))
      ensures i in view && view[i].examId in next.exams ==> next.exams[view[i].examId] != EXAM_PENDING
    {
      StepCollectable(db, view, m, sid, i);
    }
    if Stuck(db, view, sid) {
      var i :| i in db.examinees && Waits(db, sid, i) && !Collectable(db, view, i);
      StepWaits(db, view, m, sid, i);
      assert Waits(next, sid, i) && !Collectable(next, view, i);
    }
  }

  lemma {:induction false} RunStuck(db: Db, view: View, ms: seq<Moment>, sid: Id, latest: Time)
    requires Decided(db, view, sid) && OverBy(db, view, sid, latest)
    ensures var next := Run(db, view, ms);
            Decided(next, view, sid) && OverBy(next, view, sid, latest) && (Stuck(next, view, sid) <==> Stuck(db, view, sid))
    decreases |ms|
  {
    if ms != [] {
      StepStuck(db, view, ms[0], sid, latest);
      RunStuck(Step(db, view, ms[0]), view, ms[1..], sid, latest);
    }
  }

  lemma StepSessions(db: Db, view: View, m: Moment, sid: Id)
    requires sid in db.sessions
    ensures var next := Step(db, view, m); sid in next.sessions && next.sessions[sid].endTime == db.sessions[sid].endTime
  {
  }

  lemma {:induction false} RunSessions(db: Db, view: View, ms: seq<Moment>, sid: Id)
    requires sid in db.sessions
    ensures var next := Run(db, view, ms); sid in next.sessions && next.sessions[sid].endTime == db.sessions[sid].endTime
    decreases |ms|
  {
    if ms != [] {
      StepSessions(db, view, ms[0], sid);
      RunSessions(Step(db, view, ms[0]), view, ms[1..], sid);
    }
  }

  /** In any run, events of all kinds and sessions in between: an end event of the session at `latest` or later is
      handled again if and only if someone was stuck at the beginning. */
  lemma RunRetriesExact(db: Db, view: View, ms: seq<Moment>, sid: Id, now: Time, latest: Time)
    requires sid in db.sessions && Decided(db, view, sid) && OverBy(db, view, sid, latest) && latest <= now
    ensures Again(Run(db, view, ms), view, sid, now) <==> Stuck(db, view, sid)
  {
    var next := Run(db, view, ms);
    RunStuck(db, view, ms, sid, latest);
    RunSessions(db, view, ms, sid);
    AgainWhile(next, view, sid, now);
  }

  /** The events `ks` of a run are end events of the session that armed a retry, each a minute behind the one before or
      more. */
  ghost predicate Armings(db: Db, view: View, ms: seq<Moment>, sid: Id, ks: seq<nat>) {
    && (forall j | 0 <= j < |ks| :: ks[j] < |ms| && ms[ks[j]].event.eventType == SessionEnd && ms[ks[j]].event.sessionId == sid)
    && (forall j | 0 <= j < |ks| :: Again(Run(db, view, ms[..ks[j]]), view, sid, ms[ks[j]].now))
    && (forall j | 0 <= j < |ks| - 1 :: ms[ks[j]].now + RETRY_DELAY <= ms[ks[j + 1]].now)
  }

  lemma {:induction false} SpacedSum(db: Db, view: View, ms: seq<Moment>, sid: Id, ks: seq<nat>, j: nat)
    requires Armings(db, view, ms, sid, ks) && j < |ks|
    ensures ms[ks[0]].now + RETRY_DELAY * j <= ms[ks[j]].now
    decreases j
  {
    if j > 0 {
      SpacedSum(db, view, ms, sid, ks, j - 1);
      assert ms[ks[j - 1]].now + RETRY_DELAY <= ms[ks[j - 1 + 1]].now;
    }
  }

  /** Without anyone stuck the number of retries in any run is bounded by the latest end. */
  lemma RunRetriesBounded(db: Db, view: View, ms: seq<Moment>, sid: Id, ks: seq<nat>, latest: Time)
    requires sid in db.sessions && Decided(db, view, sid) && OverBy(db, view, sid, latest) && !Stuck(db, view, sid)
    requires ks != [] && Armings(db, view, ms, sid, ks)
    ensures RETRY_DELAY * (|ks| - 1) < latest - ms[ks[0]].now
  {
    var k := ks[|ks| - 1];
    SpacedSum(db, view, ms, sid, ks, |ks| - 1);
    if latest <= ms[k].now {
      RunRetriesExact(db, view, ms[..k], sid, ms[k].now, latest);
    }
  }

  lemma EndCloses(db: Db, view: View, sid: Id, now: Time)
    requires sid in db.sessions && db.sessions[sid].endTime <= now && !Again(db, view, sid, now)
    ensures var next := Step(db, view, Moment(ExamEvent(SessionEnd, db.sessions[sid].examId, sid), now));
            sid in next.sessions && !Open(next.sessions[sid].status)
  {
  }

  /** Without anyone stuck the first end event at `latest` or later, and not before the end time, leaves the session
      closed for the rest of any run. */
  lemma RunCloses(db: Db, view: View, before: seq<Moment>, after: seq<Moment>, m: Moment, sid: Id, latest: Time)
    requires Linked(db) && Safe(db)
    requires sid in db.sessions && Decided(db, view, sid) && OverBy(db, view, sid, latest) && !Stuck(db, view, sid)
    requires m.event.eventType == SessionEnd && m.event.sessionId == sid
    requires latest <= m.now && db.sessions[sid].endTime <= m.now
    ensures var next := Run(db, view, before + ([m] + after)); sid in next.sessions && !Open(next.sessions[sid].status)
  {
    var one := Run(db, view, before);
    var two := Step(one, view, m);
    RunRetriesExact(db, view, before, sid, m.now, latest);
    RunSessions(db, view, before, sid);
    EndCloses(one, view, sid, m.now);
    RunKeeps(db, view, before);
    StepKeeps(one, view, m);
    RunKeeps(two, view, after);
    RunSplit(db, view, before, [m] + after);
    assert ([m] + after)[1..] == after;
  }

  // ----- exams that are still pending -----

  /** Would the event find its session, of exam `e`, without examinees and due? */
  ghost predicate EmptyStart(db: Db, e: Id, m: Moment) {
    var sid := m.event.sessionId;
    && m.event.eventType == SessionStart && sid in db.sessions && db.sessions[sid].examId == e
    && !Deleted(db.sessions[sid].status) && db.sessions[sid].startTime <= m.now && !HasExaminees(db, sid)
  }

  /** Event `k` of the run finds exam `e` pending, and makes it abnormal. */
  ghost predicate SpoiltAt(db: Db, view: View, ms: seq<Moment>, e: Id, k: nat) {
    && k < |ms| && EmptyStart(db, e, ms[k])
    && e in Run(db, view, ms[..k]).exams && Run(db, view, ms[..k]).exams[e] == EXAM_PENDING
  }

  ghost predicate Spoilt(db: Db, view: View, ms: seq<Moment>, e: Id) {
    exists k: nat :: SpoiltAt(db, view, ms, e, k)
  }

  /** A status in which an exam does not keep its examinees from being collected. */
  ghost predicate Fine(db: Db, e: Id) {
    e in db.exams && db.exams[e] in {2, 4, 6}
  }

  /** A step makes an exam abnormal exactly when it starts a session without examinees while the exam is pending. */
  lemma StepFine(db: Db, view: View, m: Moment, e: Id)
    requires Fine(db, e)
    ensures Fine(Step(db, view, m), e) <==> !(db.exams[e] == EXAM_PENDING && EmptyStart(db, e, m))
    ensures var next := Step(db, view, m); e in next.exams && (Fine(next, e) || next.exams[e] == EXAM_ABNORMAL)
  {
  }

  lemma CollectedExaminees(db: Db, view: View, other: Id, now: Time, sid: Id)
    ensures HasExaminees(db.(examinees := CollectExaminees(db, view, other, now)), sid) <==> HasExaminees(db, sid)
  {
    var now := CollectExaminees(db, view, other, now);
    assert forall i | i in db.examinees ::
      now[i].sessionId == db.examinees[i].sessionId && (now[i].status == EXAMINEE_DELETED <==> db.examinees[i].status == EXAMINEE_DELETED);
  }

  lemma StepExaminees(db: Db, view: View, m: Moment, sid: Id)
    ensures HasExaminees(Step(db, view, m), sid) <==> HasExaminees(db, sid)
  {
    match m.event.eventType
    case SessionStart =>
      assert Step(db, view, m).examinees == db.examinees;
    case SessionEnd =>
      CollectedExaminees(db, view, m.event.sessionId, m.now, sid);
  }

  lemma StepEmpty(db: Db, view: View, m: Moment, e: Id, later: Moment)
    ensures EmptyStart(Step(db, view, m), e, later) <==> EmptyStart(db, e, later)
  {
    StepExaminees(db, view, m, later.event.sessionId);
  }

  lemma SpoiltStep(db: Db, view: View, ms: seq<Moment>, e: Id, k: nat)
    requires ms != []
    ensures SpoiltAt(db, view, ms, e, k + 1) <==> SpoiltAt(Step(db, view, ms[0]), view, ms[1..], e, k)
  {
    if k + 1 < |ms| {
      StepEmpty(db, view, ms[0], e, ms[k + 1]);
      assert ms[..k + 1][1..] == ms[1..][..k] && ms[..k + 1][0] == ms[0];
    }
  }

  lemma SpoiltHead(db: Db, view: View, ms: seq<Moment>, e: Id)
    requires ms != [] && e in db.exams
    ensures SpoiltAt(db, view, ms, e, 0) <==> db.exams[e] == EXAM_PENDING && EmptyStart(db, e, ms[0])
    ensures Spoilt(db, view, ms, e) <==> SpoiltAt(db, view, ms, e, 0) || Spoilt(Step(db, view, ms[0]), view, ms[1..], e)
  {
    var one := Step(db, view, ms[0]);
    assert ms[..0] == [];
    if Spoilt(db, view, ms, e) {
      var k: nat :| SpoiltAt(db, view, ms, e, k);
      if k > 0 {
        SpoiltStep(db, view, ms, e, k - 1);
      }
    }
    if Spoilt(one, view, ms[1..], e) {
      var k: nat :| SpoiltAt(one, view, ms[1..], e, k);
      SpoiltStep(db, view, ms, e, k);
    }
  }

  lemma {:induction false} RunExams(db: Db, view: View, ms: seq<Moment>, e: Id)
    requires e in db.exams ==> db.exams[e] != EXAM_PENDING
    ensures var next := Run(db, view, ms);
            (e in next.exams ==> next.exams[e] != EXAM_PENDING) && (Fine(next, e) <==> Fine(db, e))
    decreases |ms|
  {
    if ms != [] {
      StepExams(db, view, ms[0], e);
      RunExams(Step(db, view, ms[0]), view, ms[1..], e);
    }
  }

  /** In any run an exam becomes abnormal exactly when some event starts a session of it without examinees while it is
      pending. */
  lemma {:induction false} RunFine(db: Db, view: View, ms: seq<Moment>, e: Id)
    requires Fine(db, e)
    ensures Fine(Run(db, view, ms), e) <==> !Spoilt(db, view, ms, e)
    decreases |ms|
  {
    if ms != [] {
      var one := Step(db, view, ms[0]);
      SpoiltHead(db, view, ms, e);
      StepFine(db, view, ms[0], e);
      if Fine(one, e) {
        RunFine(one, view, ms[1..], e);
      } else {
        RunExams(one, view, ms[1..], e);
      }
    }
  }

  lemma {:induction false} RunWaits(db: Db, view: View, ms: seq<Moment>, sid: Id, i: Id)
    ensures var next := Run(db, view, ms); Waits(next, sid, i) ==> Waits(db, sid, i) && next.examinees[i] == db.examinees[i]
    decreases |ms|
  {
    if ms != [] {
      StepWaits(db, view, ms[0], sid, i);
      RunWaits(Step(db, view, ms[0]), view, ms[1..], sid, i);
    }
  }

  /** Who cannot be collected never can. */
  lemma {:induction false} RunStays(db: Db, view: View, ms: seq<Moment>, sid: Id, i: Id)
    requires Waits(db, sid, i) && !Collectable(db, view, i)
    ensures Waits(Run(db, view, ms), sid, i) && !Collectable(Run(db, view, ms), view, i)
    decreases |ms|
  {
    if ms != [] {
      StepWaits(db, view, ms[0], sid, i);
      if i in view && !Fine(db, view[i].examId) {
        StepNotFine(db, view, ms[0], view[i].examId);
      }
      RunStays(Step(db, view, ms[0]), view, ms[1..], sid, i);
    }
  }

  lemma StepNotFine(db: Db, view: View, m: Moment, e: Id)
    requires !Fine(db, e)
    ensures !Fine(Step(db, view, m), e)
  {
    StepExams(db, view, m, e);
  }

  /** The exam that the view names for the examinee is made abnormal in the run. */
  ghost predicate ExamSpoilt(db: Db, view: View, ms: seq<Moment>, i: Id) {
    i in view && view[i].examId in db.exams && Spoilt(db, view, ms, view[i].examId)
  }

  lemma RunCollectable(db: Db, view: View, ms: seq<Moment>, sid: Id, i: Id)
    requires Waits(Run(db, view, ms), sid, i)
    ensures Waits(db, sid, i)
    ensures Collectable(Run(db, view, ms), view, i) <==> Collectable(db, view, i) && !ExamSpoilt(db, view, ms, i)
  {
    RunWaits(db, view, ms, sid, i);
    if !Collectable(db, view, i) {
      RunStays(db, view, ms, sid, i);
    } else {
      RunFine(db, view, ms, view[i].examId);
    }
  }

  /**
   In any run, whatever the exams: an end event of the session at `latest` or later is handled again exactly when someone
   was stuck at the beginning, or someone waits for it whose exam has been made abnormal.
   */
  lemma RunRetriesAll(db: Db, view: View, ms: seq<Moment>, sid: Id, now: Time, latest: Time)
    requires sid in db.sessions && OverBy(db, view, sid, latest) && latest <= now
    ensures Again(Run(db, view, ms), view, sid, now) <==>
            Stuck(db, view, sid) ||
            exists i | i in Run(db, view, ms).examinees :: Waits(Run(db, view, ms), sid, i) && ExamSpoilt(db, view, ms, i)
  {
    var next := Run(db, view, ms);
    RunSessions(db, view, ms, sid);
    AgainWhile(next, view, sid, now);
    forall i | Waits(next, sid, i)
      ensures Waits(db, sid, i)
      ensures Collectable(next, view, i) <==> Collectable(db, view, i) && !ExamSpoilt(db, view, ms, i)
    {
      RunCollectable(db, view, ms, sid, i);
    }
    if Stuck(db, view, sid) {
      var i :| i in db.examinees && Waits(db, sid, i) && !Collectable(db, view, i);
      RunStays(db, view, ms, sid, i);
    }
  }

  // ----- an exam that has become abnormal -----

  function Example(status: int, actualEnd: Option<Time>): Session {
    Session(1, status, 0, 100, 0, actualEnd)
  }

  function ExampleDb(): Db {
    Db(map[1 := EXAM_PENDING], map[10 := Example(SESSION_PENDING, None), 11 := Example(SESSION_PENDING, None)],
       map[20 := Examinee(11, EXAMINEE_NORMAL, None, None)])
  }

  /** A restart at 100 finds all events of both sessions due, and queues them. */
  lemma ExampleQueue()
    ensures var rows: seq<Id> := [10, 11];
            Initialised(Schedule(map[], []), ExampleDb().sessions, rows, 100).queue ==
            [ExamEvent(SessionStart, 1, 10), ExamEvent(SessionEnd, 1, 10),
             ExamEvent(SessionStart, 1, 11), ExamEvent(SessionEnd, 1, 11)]
  {
    var rows: seq<Id>, one: seq<Id>, t := [10, 11], [10], Schedule(map[], []);
    assert rows[..1] == one && one[..0] == [];
    assert Initialised(t, ExampleDb().sessions, [], 100) == t;
  }

  /** Two sessions of one exam, the first without examinees, their events queued by a restart at 100: the first start
      makes the exam abnormal, yet the second session still starts, and from then on every end event of it arms a retry,
      however late it comes. */
  lemma AbnormalExam(times: seq<Time>)
    ensures var view := map[20 := ViewRow(1, Some(100))];
            var run := [Moment(ExamEvent(SessionStart, 1, 10), 100), Moment(ExamEvent(SessionEnd, 1, 10), 100),
                        Moment(ExamEvent(SessionStart, 1, 11), 100)];
            var next := Run(ExampleDb(), view, run);
            && Linked(ExampleDb()) && AllPending(ExampleDb())
            && next.exams == map[1 := EXAM_ABNORMAL] && 11 in next.sessions && next.sessions[11].status == SESSION_ONGOING
            && AllAgain(next, view, 11, times)
  {
    var db, view := ExampleDb(), map[20 := ViewRow(1, Some(100))];
    var a, b, c := Moment(ExamEvent(SessionStart, 1, 10), 100), Moment(ExamEvent(SessionEnd, 1, 10), 100),
                   Moment(ExamEvent(SessionStart, 1, 11), 100);
    var one, two, three := FirstAbnormal(view);
    assert [a, b, c][1..] == [b, c] && [b, c][1..] == [c] && [c][1..] == [];
    assert Run(three, view, []) == three;
    assert Run(two, view, [c]) == three;
    assert Run(one, view, [b, c]) == three;
    assert Run(db, view, [a, b, c]) == three;
    assert Stuck(three, view, 11) by {
      assert 20 in three.examinees && Waits(three, 11, 20) && !Collectable(three, view, 20);
    }
    StuckForever(three, view, 11, times);
  }

  lemma FirstAbnormal(view: View) returns (one: Db, two: Db, three: Db)
    requires view == map[20 := ViewRow(1, Some(100))]
    ensures one == Step(ExampleDb(), view, Moment(ExamEvent(SessionStart, 1, 10), 100))
    ensures two == Step(one, view, Moment(ExamEvent(SessionEnd, 1, 10), 100))
    ensures three == Step(two, view, Moment(ExamEvent(SessionStart, 1, 11), 100))
    ensures three == Db(map[1 := EXAM_ABNORMAL],
                        map[10 := Example(SESSION_ENDED, Some(100)), 11 := Example(SESSION_ONGOING, None)],
                        ExampleDb().examinees)
  {
    var db := ExampleDb();
    one := db.(exams := map[1 := EXAM_ABNORMAL]);
    assert one.exams == db.exams[1 := EXAM_ABNORMAL];
    assert StartStep(db, 10, 100) == Some(one) by {
      assert !HasExaminees(db, 10);
    }
    two := one.(sessions := db.sessions[10 := Example(SESSION_ENDED, Some(100))]);
    assert CollectExaminees(one, view, 10, 100) == one.examinees;
    assert EndStep(one, view, 10, 100) == Some((two, false));
    three := two.(sessions := two.sessions[11 := Example(SESSION_ONGOING, None)]);
    assert StartStep(two, 11, 100) == Some(three) by {
      assert 20 in two.examinees && HasExaminees(two, 11);
    }
  }

  lemma {:induction false} StuckForever(db: Db, view: View, sid: Id, times: seq<Time>)
    requires sid in db.sessions && Stuck(db, view, sid)
    ensures AllAgain(db, view, sid, times)
    decreases |times|
  {
    if times != [] {
      AgainWhile(db, view, sid, times[0]);
      var next := EndStep(db, view, sid, times[0]).value.0;
      var i :| i in db.examinees && Waits(db, sid, i) && !Collectable(db, view, i);
      Left(db, view, sid, times[0], i);
      assert Waits(next, sid, i) && !Collectable(next, view, i);
      StuckForever(next, view, sid, times[1..]);
    }
  }
}
