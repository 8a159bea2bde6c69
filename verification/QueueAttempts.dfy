/** One attempt at a time, and none after a final result, in every interleaving of
    sessions, worker and Drain (internal/queue/queue.go). */
module QueueAttempts {
  import opened Mail
  import opened Config
  import opened Queue
  import opened QueueProtocol

  function Open(log: seq<Event>, id: nat): int {
    Tally(log, Starting, id) - Tally(log, Ending, id)
  }

  /** Every attempt on the message began while none was running and none had settled it. */
  ghost predicate Disciplined(log: seq<Event>, id: nat) {
    log == [] ||
    var n := |log| - 1;
    && Disciplined(log[..n], id)
    && (Counts(Starting, log[n], id) ==> Open(log[..n], id) == 0 && Tally(log[..n], Settling, id) == 0)
  }

  predicate Trying(s: State, id: nat) {
    s.tick.Attempting? && s.tick.m.id == id
  }

  predicate Settled(s: State, id: nat) {
    s.tick.Returned? && s.tick.m.id == id && IsFinal(s.tick.res)
  }

  ghost predicate AttemptInv(s: State, id: nat) {
    && Disciplined(s.q.log, id)
    && Open(s.q.log, id) == One(id in s.inline) + One(Trying(s, id))
    && (Tally(s.q.log, Settling, id) > 0 ==>
          id < |s.arrived| && id !in s.inline && id !in s.waiting && !Trying(s, id)
          && (HeldCount(s.q.entries, id) > 0 ==> Settled(s, id)))
  }

  lemma {:induction false} DisciplinedSnoc(log: seq<Event>, e: Event, id: nat)
    requires Disciplined(log, id)
    requires Counts(Starting, e, id) ==> Open(log, id) == 0 && Tally(log, Settling, id) == 0
    ensures Disciplined(log + [e], id)
  {
    assert (log + [e])[..|log|] == log;
  }

  /** Events that are no attempts leave the attempts alone. */
  lemma {:induction false} OtherEvents(log: seq<Event>, more: seq<Event>, id: nat)
    requires Disciplined(log, id) && forall e :: e in more ==> !e.Started? && !e.Ended?
    ensures Disciplined(log + more, id)
    ensures Open(log + more, id) == Open(log, id)
    ensures Tally(log + more, Settling, id) == Tally(log, Settling, id)
  {
    hide Tally;
    if more == [] {
      assert log + more == log;
    } else {
      var n := |more| - 1;
      assert more[n] in more;
      OtherEvents(log, more[..n], id);
      assert log + more == (log + more[..n]) + [more[n]];
      DisciplinedSnoc(log + more[..n], more[n], id);
      TallySnoc(log + more[..n], more[n], Starting, id);
      TallySnoc(log + more[..n], more[n], Ending, id);
      TallySnoc(log + more[..n], more[n], Settling, id);
    }
  }

  lemma {:induction false} OneEvent(log: seq<Event>, e: Event, id: nat)
    requires Disciplined(log, id)
    requires Counts(Starting, e, id) ==> Open(log, id) == 0 && Tally(log, Settling, id) == 0
    ensures Disciplined(log + [e], id)
    ensures Open(log + [e], id) ==
            Open(log, id) + One(Counts(Starting, e, id)) - One(Counts(Ending, e, id))
    ensures Tally(log + [e], Settling, id) == Tally(log, Settling, id) + One(Counts(Settling, e, id))
  {
    hide Tally;
    DisciplinedSnoc(log, e, id);
    TallySnoc(log, e, Starting, id);
    TallySnoc(log, e, Ending, id);
    TallySnoc(log, e, Settling, id);
  }

  lemma {:induction false} KeepsAttempts(c: Retry, s: State, l: Label, id: nat)
    requires Can(c, s, l) && Inv(c, s) && AttemptInv(s, id)
    ensures AttemptInv(Do(c, s, l), id)
  {
    hide Can, Do, AttemptInv, Bounded, Conserved, Genuine, DueHeld, Pending;
    match l {
      case Arrive(msg) => ArriveAttempts(c, s, msg, id);
      case InlineEnd(x, res) => InlineAttempts(c, s, x, res, id);
      case Enqueue(x) => EnqueueAttempts(c, s, x, id);
      case Begin => BeginAttempts(c, s, id);
      case Attempt => StartAttempts(c, s, id);
      case Return(res) => ReturnAttempts(c, s, res, id);
      case Record => RecordAttempts(c, s, id);
      case ArmAll => ArmAttempts(c, s, id);
      case Final => FinalAttempts(c, s, id);
      case _ => QuietAttempts(c, s, l, id);
    }
  }

  /** Steps that touch neither the history nor the entries, and begin no attempt. */
  lemma {:induction false} QuietAttempts(c: Retry, s: State, l: Label, id: nat)
    requires Can(c, s, l) && AttemptInv(s, id)
    requires l.Elapse? || l.Stamp? || l.Finish? || l.Stop? || l.WorkerExit? || l.CheckLen? || l.CheckClock?
    ensures AttemptInv(Do(c, s, l), id)
  {
    hide Tally, HeldCount, Disciplined;
  }

  lemma {:induction false} ArriveAttempts(c: Retry, s: State, msg: Message, id: nat)
    requires Conserved(s) && DueHeld(s) && AttemptInv(s, id)
    ensures AttemptInv(Do(c, s, Arrive(msg)), id)
  {
    hide Tally, HeldCount, RefCount, Disciplined;
    assert Places(s, id) == One(id < |s.arrived|);
    if Pending(s.tick) != [] {
      FirstPendingIsHeld(s);
    }
    OneEvent(s.q.log, Started(|s.arrived|, Inline, s.now), id);
  }

  lemma {:induction false} StartAttempts(c: Retry, s: State, id: nat)
    requires Can(c, s, Attempt) && Conserved(s) && DueHeld(s) && AttemptInv(s, id)
    ensures AttemptInv(Do(c, s, Attempt), id)
  {
    hide Tally, HeldCount, RefCount, Disciplined;
    FirstPendingIsHeld(s);
    OneEvent(s.q.log, Started(s.tick.due[0].id, Who(s), s.now), id);
  }

  lemma {:induction false} ReturnAttempts(c: Retry, s: State, res: Result, id: nat)
    requires Can(c, s, Return(res)) && Conserved(s) && DueHeld(s) && AttemptInv(s, id)
    ensures AttemptInv(Do(c, s, Return(res)), id)
  {
    hide Tally, HeldCount, RefCount, Disciplined;
    FirstPendingIsHeld(s);
    OneEvent(s.q.log, Ended(s.tick.m.id, Who(s), res, s.now), id);
  }

  lemma {:induction false} ArmAttempts(c: Retry, s: State, id: nat)
    requires Can(c, s, ArmAll) && AttemptInv(s, id)
    ensures AttemptInv(Do(c, s, ArmAll), id)
  {
    hide Tally, HeldCount, Disciplined, Armed;
    ArmAllCount(s.q, id);
  }

  lemma {:induction false} FinalAttempts(c: Retry, s: State, id: nat)
    requires Can(c, s, Final) && AttemptInv(s, id)
    ensures AttemptInv(Do(c, s, Final), id)
  {
    hide Tally, HeldCount, Disciplined, LostEvents;
    assert Do(c, s, Final).q.log == s.q.log + (LostEvents(s.q.entries) + [Shut]);
    LostAreOther(s.q.entries);
    OtherEvents(s.q.log, LostEvents(s.q.entries) + [Shut], id);
  }

  lemma {:induction false} InlineAttempts(c: Retry, s: State, x: nat, res: Result, id: nat)
    requires Can(c, s, InlineEnd(x, res)) && Conserved(s) && DueHeld(s) && AttemptInv(s, id)
    ensures AttemptInv(Do(c, s, InlineEnd(x, res)), id)
  {
    hide Tally, HeldCount, RefCount, Disciplined;
    var log, e := s.q.log, Ended(x, Inline, res, s.now);
    assert Places(s, id) == One(id < |s.arrived|);
    if Pending(s.tick) != [] {
      FirstPendingIsHeld(s);
    }
    OneEvent(log, e, id);
    OneEvent(log + [e], Refused(x), id);
  }

  lemma {:induction false} LostAreOther(es: seq<Entry>)
    ensures forall e :: e in LostEvents(es) ==> e.Lost?
  {
  }

  /** The message whose turn it is has an entry, and only one. */
  lemma {:induction false} FirstPendingIsHeld(s: State)
    requires DueHeld(s) && Conserved(s) && Pending(s.tick) != []
    ensures var m := Pending(s.tick)[0];
            HeldCount(s.q.entries, m.id) == 1 && m.id < |s.arrived| && m.id !in s.inline && m.id !in s.waiting
  {
    hide HeldCount, Tally;
    var m := Pending(s.tick)[0];
    assert RefCount(Pending(s.tick), m.id) <= HeldCount(s.q.entries, m.id);
    assert Places(s, m.id) == One(m.id < |s.arrived|);
  }

  lemma {:induction false} RecordAttempts(c: Retry, s: State, id: nat)
    requires Can(c, s, Record) && Inv(c, s) && AttemptInv(s, id)
    ensures AttemptInv(Do(c, s, Record), id)
  {
    hide Tally, HeldCount, Find, Disciplined;
    var m, q := s.tick.m, s.q;
    PendingIsHeld(s, m);
    FirstPendingIsHeld(s);
    RecordCount(c, q, m.id, s.tick.res, s.now, Closing, id);
    var e := q.entries[Find(q.entries, m.id)];
    OtherEvents(q.log, [Delivered(m.id, e.attempts + 1)], id);
    OtherEvents(q.log, [Failed(m.id, e.attempts + 1)], id);
  }

  lemma {:induction false} BeginAttempts(c: Retry, s: State, id: nat)
    requires Can(c, s, Begin) && AttemptInv(s, id)
    ensures AttemptInv(Do(c, s, Begin), id)
  {
    hide Tally, HeldCount, Disciplined, Sweep, Due;
    var gone := ExpiredEvents(Sweep(s.q.entries, s.tick.t, Expire(c)).expired);
    OtherEvents(s.q.log, gone, id);
    OtherEvents(s.q.log + gone, [Passed(s.tick.t)], id);
    BeginCount(c, s.q, s.tick.t, Closing, id);
  }

  lemma {:induction false} EnqueueAttempts(c: Retry, s: State, x: nat, id: nat)
    requires Can(c, s, Enqueue(x)) && AttemptInv(s, id)
    ensures AttemptInv(Do(c, s, Enqueue(x)), id)
  {
    hide Tally, HeldCount, Disciplined;
    OtherEvents(s.q.log, [Held(x, s.now)], id);
    OtherEvents(s.q.log, [Refused(x)], id);
    HeldCountSnoc(s.q.entries, Entry(Ref(x, s.arrived[x]), s.now, s.now + Interval(c), 0), id);
  }

  lemma {:induction false} RunKeepsAttempts(c: Retry, start: nat, ls: seq<Label>, id: nat)
    requires Sane(c) && Exec(c, start, ls).Some?
    ensures AttemptInv(Exec(c, start, ls).value, id)
  {
    hide Do, Can;
    if ls != [] {
      RunKeepsAttempts(c, start, ls[..|ls| - 1], id);
      RunKeepsInv(c, start, ls[..|ls| - 1]);
      KeepsAttempts(c, Exec(c, start, ls[..|ls| - 1]).value, ls[|ls| - 1], id);
    }
  }

  // ---- The same, read off the history ----

  lemma {:induction false} TallyPrefix(log: seq<Event>, k: Kind, id: nat, i: nat, j: nat)
    requires i <= j <= |log|
    ensures Tally(log[..i], k, id) <= Tally(log[..j], k, id)
    ensures Tally(log[..i], k, id) < Tally(log[..j], k, id) <==> exists m :: i <= m < j && Counts(k, log[m], id)
    decreases j
  {
    hide Counts;
    if i < j {
      assert log[..j][..j - 1] == log[..j - 1];
      TallyPrefix(log, k, id, i, j - 1);
      if m :| i <= m < j && Counts(k, log[m], id) {
        assert m == j - 1 || i <= m < j - 1;
      }
    }
  }

  lemma {:induction false} DisciplinedAt(log: seq<Event>, id: nat, j: nat)
    requires Disciplined(log, id) && j < |log| && Counts(Starting, log[j], id)
    ensures Open(log[..j], id) == 0 && Tally(log[..j], Settling, id) == 0
  {
    var n := |log| - 1;
    if j < n {
      assert log[..n][..j] == log[..j];
      DisciplinedAt(log[..n], id, j);
    }
  }

  /** Over every run, once an attempt on a message has returned OK or a permanent failure,
      inline, by the worker or by Drain, the message is never attempted again. */
  lemma {:induction false} NoAttemptAfterFinal(c: Retry, start: nat, ls: seq<Label>, id: nat, i: nat, j: nat)
    requires Sane(c) && Exec(c, start, ls).Some?
    requires i < j < |Exec(c, start, ls).value.q.log|
    requires Counts(Settling, Exec(c, start, ls).value.q.log[i], id)
    ensures !Counts(Starting, Exec(c, start, ls).value.q.log[j], id)
  {
    hide Exec, Tally, Disciplined;
    RunKeepsAttempts(c, start, ls, id);
    var log := Exec(c, start, ls).value.q.log;
    if Counts(Starting, log[j], id) {
      DisciplinedAt(log, id, j);
      TallyPrefix(log, Settling, id, 0, j);
      assert false;
    }
  }

  /** Over every run, between two attempts on one message the first one has ended, and not
      with a final result: no message is ever in two hands at once. */
  lemma {:induction false} AttemptsDoNotOverlap(c: Retry, start: nat, ls: seq<Label>, id: nat, i: nat, j: nat)
    requires Sane(c) && Exec(c, start, ls).Some?
    requires i < j < |Exec(c, start, ls).value.q.log|
    requires Counts(Starting, Exec(c, start, ls).value.q.log[i], id)
    requires Counts(Starting, Exec(c, start, ls).value.q.log[j], id)
    ensures var log := Exec(c, start, ls).value.q.log;
            exists k :: i < k < j && Counts(Ending, log[k], id) && !Counts(Settling, log[k], id)
  {
    hide Exec, Tally, Disciplined;
    RunKeepsAttempts(c, start, ls, id);
    var log := Exec(c, start, ls).value.q.log;
    DisciplinedAt(log, id, i);
    DisciplinedAt(log, id, j);
    TallyPrefix(log, Starting, id, i, j);
    TallyPrefix(log, Ending, id, i, j);
    var k :| i <= k < j && Counts(Ending, log[k], id);
    TallyPrefix(log, Settling, id, 0, j);
  }
}
