/**
 What the events of the exam service do to each row of the tables
 (backend/exam_service/exam-maintenance-serve_latest.go), in the status codes of
 the tables.
 */
module ExamOutcome {
  import opened Wrappers
  import opened ExamService

  // Exams: 2 pending, 4 under way, 6 ended, 10 abnormal.  Sessions: 2 pending, 4
  // under way, 6 ended, 8 to be marked, 14 and 16 deleted.  Examinees: 0 normal,
  // 2 absent, 8 deleted, 10 submitted, 16 admitted.

  // ----- end events -----

  /** Is examinee `i` due when session `sid` is ended at `now`? */
  predicate IsDue(db: Db, view: View, sid: Id, i: Id, now: Time)
    requires i in db.examinees
  {
    && db.examinees[i].sessionId == sid && db.examinees[i].status in {0, 10, 16}
    && i in view && view[i].actualEnd.Some? && view[i].actualEnd.value <= now
    && view[i].examId in db.exams && db.exams[view[i].examId] in {2, 4, 6}
  }

  /** Every examinee who is due and had begun has submitted, by the end the view shows; one who had not is absent; and
      nothing changes for anybody else. */
  lemma EndedExaminees(db: Db, view: View, sid: Id, now: Time)
    requires sid in db.sessions
    ensures EndStep(db, view, sid, now).Some?
    ensures var next := EndStep(db, view, sid, now).value.0;
            && next.examinees.Keys == db.examinees.Keys
            && forall i | i in db.examinees ::
                 var e := db.examinees[i];
                 next.examinees[i] ==
                 if !IsDue(db, view, sid, i, now) then e
                 else if e.startTime.Some? then Examinee(sid, 10, e.startTime, view[i].actualEnd)
                 else Examinee(sid, 2, None, e.endTime)
  {
  }

  /** The event is handled again exactly when afterwards some examinee of the session has not finished; then sessions
      and exams are as they were. */
  lemma EndedAgain(db: Db, view: View, sid: Id, now: Time)
    requires sid in db.sessions
    ensures var (next, again) := EndStep(db, view, sid, now).value;
            && (again <==> exists i | i in next.examinees ::
                  next.examinees[i].sessionId == sid && next.examinees[i].status !in {2, 6, 8, 10, 12, 14})
            && (again ==> next.sessions == db.sessions && next.exams == db.exams)
  {
  }

  /** Otherwise an open session whose time is over is closed, for marking by hand or for good. */
  lemma EndedSession(db: Db, view: View, sid: Id, now: Time)
    requires sid in db.sessions && !EndStep(db, view, sid, now).value.1
    ensures var s := db.sessions[sid];
            EndStep(db, view, sid, now).value.0.sessions ==
            if s.status in {2, 4} && s.endTime <= now
            then db.sessions[sid := Session(s.examId, if s.markMethod == 2 then 8 else 6, s.startTime, s.endTime,
                                            s.markMethod, Some(now))]
            else db.sessions
  {
    assert db.sessions[sid := db.sessions[sid]] == db.sessions;
  }

  /** Has the exam a session that is pending or under way? */
  ghost predicate GoesOn(sessions: map<Id, Session>, e: Id) {
    exists s | s in sessions :: sessions[s].examId == e && sessions[s].status in {2, 4}
  }

  /** And the exam of the session has ended exactly when none of its sessions goes on; all other exams stay. */
  lemma EndedExam(db: Db, view: View, sid: Id, now: Time, e: Id)
    requires sid in db.sessions && !EndStep(db, view, sid, now).value.1 && e in db.exams
    ensures var next := EndStep(db, view, sid, now).value.0;
            && next.exams.Keys == db.exams.Keys
            && next.exams[e] == if e == db.sessions[sid].examId && db.exams[e] in {2, 4} && !GoesOn(next.sessions, e)
                                then 6 else db.exams[e]
  {
    var next := EndStep(db, view, sid, now).value.0;
    assert AllSessionsOver(next.sessions, e) <==> !GoesOn(next.sessions, e);
  }

  /** An end event fails exactly for a session that does not exist. */
  lemma EndFails(db: Db, view: View, sid: Id, now: Time)
    ensures EndStep(db, view, sid, now).None? <==> sid !in db.sessions
  {
  }

  /** The retry comes a minute after the event, through its timer or, when the minute is over, at once. */
  lemma RetryComes(t: Schedule, sid: Id, now: Time, event: ExamEvent, clock: Time)
    requires event.eventType == SessionEnd
    ensures var k, next := Key(SessionEnd, sid), Armed(t, sid, now + RETRY_DELAY, event, clock);
            if clock < now + 60000 then next.timers == t.timers[k := Timer(now + 60000, event)] && next.queue == t.queue
            else next.timers == t.timers - {k} && next.queue == t.queue + [event]
  {
  }

  // ----- start events -----

  /** Examinees count unless they are deleted. */
  ghost predicate Attended(db: Db, sid: Id) {
    exists i | i in db.examinees :: db.examinees[i].sessionId == sid && db.examinees[i].status != 8
  }

  /** What a session must be for its start event to have an effect. */
  ghost predicate CanStart(db: Db, sid: Id, now: Time) {
    && sid in db.sessions && db.sessions[sid].status !in {14, 16} && db.sessions[sid].startTime <= now
    && if Attended(db, sid) then db.sessions[sid].status == 2
       else db.sessions[sid].examId in db.exams && db.exams[db.sessions[sid].examId] == 2
  }

  lemma AttendedIs(db: Db, sid: Id)
    ensures HasExaminees(db, sid) <==> Attended(db, sid)
  {
  }

  /** A session with examinees that is pending gets under way, and its exam when that was pending; a pending exam of a
      session without examinees becomes abnormal. */
  lemma Started(db: Db, sid: Id, now: Time)
    ensures StartStep(db, sid, now).Some? <==> CanStart(db, sid, now)
    ensures CanStart(db, sid, now) ==>
              var next, s := StartStep(db, sid, now).value, db.sessions[sid];
              && next.examinees == db.examinees && next.exams.Keys == db.exams.Keys
              && next.sessions == (if Attended(db, sid) then db.sessions[sid := s.(status := 4)] else db.sessions)
              && forall e | e in db.exams ::
                   next.exams[e] == if e != s.examId || db.exams[e] != 2 then db.exams[e]
                                    else if Attended(db, sid) then 4 else 10
  {
    AttendedIs(db, sid);
  }

  /** An exam that becomes abnormal loses the timers of its sessions, those that are deleted excepted. */
  lemma Cancelled(sessions: map<Id, Session>, e: Id, k: Key)
    ensures k in KeysOf(SessionsOf(sessions, e)) <==>
            k.sessionId in sessions && sessions[k.sessionId].examId == e && sessions[k.sessionId].status !in {14, 16}
  {
    var ss := SessionsOf(sessions, e);
    assert k.eventType == SessionStart || k.eventType == SessionEnd;
    assert k == Key(k.eventType, k.sessionId);
    assert k.sessionId in ss ==> Key(SessionStart, k.sessionId) in KeysOf(ss) && Key(SessionEnd, k.sessionId) in KeysOf(ss);
  }

  // ----- exams end with their last session, in every run -----

  /** An exam that is pending or under way has a session that is. */
  ghost predicate Alive(db: Db, e: Id) {
    e in db.exams && db.exams[e] in {2, 4} ==> GoesOn(db.sessions, e)
  }

  lemma StartAlive(db: Db, sid: Id, now: Time, e: Id)
    requires StartStep(db, sid, now).Some? && Alive(db, e)
    ensures Alive(StartStep(db, sid, now).value, e)
  {
    var next := StartStep(db, sid, now).value;
    Started(db, sid, now);
    if GoesOn(db.sessions, e) {
      var s :| s in db.sessions && db.sessions[s].examId == e && db.sessions[s].status in {2, 4};
      assert next.sessions[s].examId == e && next.sessions[s].status in {2, 4};
    }
  }

  lemma EndAlive(db: Db, view: View, sid: Id, now: Time, e: Id)
    requires sid in db.sessions && Alive(db, e)
    ensures Alive(EndStep(db, view, sid, now).value.0, e)
  {
    var (next, again) := EndStep(db, view, sid, now).value;
    EndedAgain(db, view, sid, now);
    if !again && e in db.exams {
      EndedSession(db, view, sid, now);
      EndedExam(db, view, sid, now, e);
      if e != db.sessions[sid].examId && GoesOn(db.sessions, e) {
        var s :| s in db.sessions && db.sessions[s].examId == e && db.sessions[s].status in {2, 4};
        assert next.sessions[s] == db.sessions[s];
      }
    }
  }

  lemma StepAlive(db: Db, view: View, m: Moment, e: Id)
    requires Alive(db, e)
    ensures Alive(Step(db, view, m), e)
  {
    match m.event.eventType
    case SessionStart =>
      if StartStep(db, m.event.sessionId, m.now).Some? {
        StartAlive(db, m.event.sessionId, m.now, e);
      }
    case SessionEnd =>
      if m.event.sessionId in db.sessions {
        EndAlive(db, view, m.event.sessionId, m.now, e);
      }
  }

  lemma {:induction false} RunAlive(db: Db, view: View, ms: seq<Moment>, e: Id)
    requires Alive(db, e)
    ensures Alive(Run(db, view, ms), e)
    decreases |ms|
  {
    if ms != [] {
      StepAlive(db, view, ms[0], e);
      RunAlive(Step(db, view, ms[0]), view, ms[1..], e);
    }
  }

  /** After any run from an all-pending state, an exam with sessions has ended if and only if none of its sessions goes
      on, unless it is abnormal. */
  lemma EndedWithLast(db: Db, view: View, ms: seq<Moment>, e: Id)
    requires Linked(db) && AllPending(db) && e in db.exams && exists s | s in db.sessions :: db.sessions[s].examId == e
    ensures var next := Run(db, view, ms);
            e in next.exams && (next.exams[e] == 10 || (next.exams[e] == 6 <==> !GoesOn(next.sessions, e)))
  {
    var next := Run(db, view, ms);
    var s :| s in db.sessions && db.sessions[s].examId == e;
    assert db.sessions[s].status in {2, 4};
    RunAlive(db, view, ms, e);
    RunKeeps(db, view, ms);
    assert ExamForward(db.exams[e], next.exams[e]);
    if GoesOn(next.sessions, e) {
      var t :| t in next.sessions && next.sessions[t].examId == e && next.sessions[t].status in {2, 4};
      assert Open(next.sessions[t].status);
    }
  }
}
