/** The attempt numbers that the queue reports (internal/queue/queue.go), and what one
    pass does with the entries it has copied, in every interleaving. */
module QueueCounts {
  import opened Config
  import opened Mail
  import opened Queue
  import opened QueueAttempts
  import opened QueueProtocol
  import opened QueueTiming

  // ---- Attempt numbers ----

  /** The events that report the fate of a message with a number of attempts. */
  predicate Reports(e: Event, id: nat) {
    (e.Delivered? || e.Failed? || e.Expired? || e.Lost?) && e.id == id
  }

  /** Every number reported for the message is that of the retries begun before. */
  ghost predicate Truthful(log: seq<Event>, id: nat) {
    log == [] ||
    var n := |log| - 1;
    && Truthful(log[..n], id)
    && (Reports(log[n], id) ==> log[n].attempts == Tally(log[..n], Repeating, id))
  }

  /** An entry's counter is that of the retries begun, but for the one in hand. */
  ghost predicate Counted(s: State, e: Entry) {
    Tally(s.q.log, Repeating, e.ref.id) == e.attempts + One(InHand(s, e.ref.id))
  }

  ghost predicate CountInv(s: State, id: nat) {
    && Truthful(s.q.log, id)
    && (id in s.inline || id in s.waiting || id >= |s.arrived| ==> Tally(s.q.log, Repeating, id) == 0)
    && (forall e :: e in s.q.entries && e.ref.id == id ==> Counted(s, e))
  }

  lemma {:induction false} TruthfulSnoc(log: seq<Event>, e: Event, id: nat)
    requires Truthful(log, id) && (Reports(e, id) ==> e.attempts == Tally(log, Repeating, id))
    ensures Truthful(log + [e], id)
    ensures Tally(log + [e], Repeating, id) == Tally(log, Repeating, id) + One(Counts(Repeating, e, id))
  {
    hide Tally;
    assert (log + [e])[..|log|] == log;
    TallySnoc(log, e, Repeating, id);
  }

  /** Reports add no retry, so a batch of them may all give the same number. */
  lemma {:induction false} TruthfulBatch(log: seq<Event>, more: seq<Event>, id: nat)
    requires Truthful(log, id)
    requires forall e :: e in more ==> !e.Started? && (Reports(e, id) ==> e.attempts == Tally(log, Repeating, id))
    ensures Truthful(log + more, id) && Tally(log + more, Repeating, id) == Tally(log, Repeating, id)
  {
    hide Tally, Truthful;
    if more == [] {
      assert log + more == log;
    } else {
      var n := |more| - 1;
      assert more[n] in more;
      TruthfulBatch(log, more[..n], id);
      assert log + more == (log + more[..n]) + [more[n]];
      TruthfulSnoc(log + more[..n], more[n], id);
    }
  }

  lemma {:induction false} KeepsCounts(c: Retry, s: State, l: Label, id: nat)
    requires Can(c, s, l) && Inv(c, s) && Reported(s, id) && CountInv(s, id)
    ensures CountInv(Do(c, s, l), id)
  {
    hide Can, Do, CountInv, Bounded, Conserved, Genuine, DueHeld, Reported;
    match l {
      case Arrive(_) => ArriveCounts(c, s, l, id);
      case InlineEnd(_, _) => ArriveCounts(c, s, l, id);
      case Enqueue(x) => EnqueueCounts(c, s, x, id);
      case Begin => BeginCounts(c, s, id);
      case Attempt => AttemptCounts(c, s, id);
      case Return(res) => ReturnCounts(c, s, res, id);
      case Record => RecordCounts(c, s, id);
      case ArmAll => ArmCounts(c, s, id);
      case Final => FinalCounts(c, s, id);
      case _ => QuietCounts(c, s, l, id);
    }
  }

  lemma {:induction false} QuietCounts(c: Retry, s: State, l: Label, id: nat)
    requires Can(c, s, l) && CountInv(s, id)
    requires l.Elapse? || l.Stamp? || l.Finish? || l.Stop? || l.WorkerExit? || l.CheckLen? || l.CheckClock?
    ensures CountInv(Do(c, s, l), id)
  {
    hide Tally, Truthful;
    forall e | e in s.q.entries && e.ref.id == id ensures Counted(Do(c, s, l), e) {
      assert Counted(s, e);
    }
  }

  lemma {:induction false} ArriveCounts(c: Retry, s: State, l: Label, id: nat)
    requires Can(c, s, l) && CountInv(s, id) && Inv(c, s) && (l.Arrive? || l.InlineEnd?)
    ensures CountInv(Do(c, s, l), id)
  {
    hide Tally, Truthful, HeldCount, Inv;
    var log := s.q.log;
    match l {
      case Arrive(_) => TruthfulSnoc(log, Started(|s.arrived|, Inline, s.now), id);
      case InlineEnd(x, res) =>
        var e := Ended(x, Inline, res, s.now);
        TruthfulSnoc(log, e, id);
        TruthfulSnoc(log + [e], Refused(x), id);
    }
    forall e | e in s.q.entries && e.ref.id == id ensures Counted(Do(c, s, l), e) {
      assert Counted(s, e);
    }
  }

  lemma {:induction false} EnqueueCounts(c: Retry, s: State, x: nat, id: nat)
    requires Can(c, s, Enqueue(x)) && CountInv(s, id) && Inv(c, s)
    ensures CountInv(Do(c, s, Enqueue(x)), id)
  {
    hide Tally, Truthful, HeldCount, RefCount, Bounded, Genuine;
    TruthfulSnoc(s.q.log, Held(x, s.now), id);
    TruthfulSnoc(s.q.log, Refused(x), id);
    if Pending(s.tick) != [] {
      FirstPendingIsHeld(s);
    }
    forall e | e in Do(c, s, Enqueue(x)).q.entries && e.ref.id == id ensures Counted(Do(c, s, Enqueue(x)), e) {
      if e in s.q.entries {
        assert Counted(s, e);
      }
    }
  }

  lemma {:induction false} BeginCounts(c: Retry, s: State, id: nat)
    requires Can(c, s, Begin) && CountInv(s, id)
    ensures CountInv(Do(c, s, Begin), id)
  {
    hide Tally, Truthful, Sweep, Due, Queue.Fresh;
    var r, log := Sweep(s.q.entries, s.tick.t, Expire(c)), s.q.log;
    var gone := ExpiredEvents(r.expired);
    forall e | e in gone ensures !e.Started? && (Reports(e, id) ==> e.attempts == Tally(log, Repeating, id)) {
      var i: nat :| i < |gone| && gone[i] == e;
      StaleEntry(s.q.entries, s.tick.t, Expire(c), r.expired[i]);
      assert r.expired[i].ref.id == id ==> Counted(s, r.expired[i]);
    }
    TruthfulBatch(log, gone, id);
    TruthfulSnoc(log + gone, Passed(s.tick.t), id);
    forall e | e in r.kept && e.ref.id == id ensures Counted(Do(c, s, Begin), e) {
      SweptIn(s.q.entries, s.tick.t, Expire(c), e);
      assert Counted(s, e);
    }
  }

  lemma {:induction false} AttemptCounts(c: Retry, s: State, id: nat)
    requires Can(c, s, Attempt) && CountInv(s, id) && Inv(c, s)
    ensures CountInv(Do(c, s, Attempt), id)
  {
    hide Tally, Truthful, HeldCount, RefCount, Bounded, Genuine;
    FirstPendingIsHeld(s);
    TruthfulSnoc(s.q.log, Started(s.tick.due[0].id, Who(s), s.now), id);
    forall e | e in s.q.entries && e.ref.id == id ensures Counted(Do(c, s, Attempt), e) {
      assert Counted(s, e);
    }
  }

  lemma {:induction false} ReturnCounts(c: Retry, s: State, res: Result, id: nat)
    requires Can(c, s, Return(res)) && CountInv(s, id)
    ensures CountInv(Do(c, s, Return(res)), id)
  {
    hide Tally, Truthful;
    TruthfulSnoc(s.q.log, Ended(s.tick.m.id, Who(s), res, s.now), id);
    forall e | e in s.q.entries && e.ref.id == id ensures Counted(Do(c, s, Return(res)), e) {
      assert Counted(s, e);
    }
  }

  lemma {:induction false} RecordCounts(c: Retry, s: State, id: nat)
    requires Can(c, s, Record) && CountInv(s, id) && Inv(c, s)
    ensures CountInv(Do(c, s, Record), id)
  {
    hide Tally, Truthful, HeldCount, RefCount, Find, Inv, Interval, Recorded;
    var t := Do(c, s, Record);
    var turn := EntryInTurn(c, s);
    var more := RecordReports(c, s, turn);
    assert turn.ref.id == id ==> Counted(s, turn);
    TruthfulBatch(s.q.log, more, id);
    forall e | e in t.q.entries && e.ref.id == id ensures Counted(t, e) {
      RecordedEntry(c, s, turn, e);
      assert e in s.q.entries ==> Counted(s, e);
    }
  }

  /** The result is reported with the number of the attempt that gave it. */
  lemma {:induction false} RecordReports(c: Retry, s: State, turn: Entry) returns (more: seq<Event>)
    requires Can(c, s, Record) && Inv(c, s) && turn in s.q.entries && turn.ref.id == s.tick.m.id
    ensures Do(c, s, Record).q.log == s.q.log + more
    ensures forall e :: e in more ==>
              (e.Delivered? || e.Failed?) && e.id == turn.ref.id && e.attempts == turn.attempts + 1
  {
    hide HeldCount, Tally, RefCount, Find;
    PendingIsHeld(s, s.tick.m);
    var i: nat := Find(s.q.entries, s.tick.m.id);
    OneEntry(c, s, s.q.entries[i], turn);
    var n := turn.attempts + 1;
    more := if s.tick.res.OK? then [Delivered(turn.ref.id, n)]
            else if s.tick.res.PermFail? then [Failed(turn.ref.id, n)]
            else [];
  }

  lemma {:induction false} ArmCounts(c: Retry, s: State, id: nat)
    requires Can(c, s, ArmAll) && CountInv(s, id)
    ensures CountInv(Do(c, s, ArmAll), id)
  {
    hide Tally, Truthful;
    var es := Armed(s.q).entries;
    forall e | e in es && e.ref.id == id ensures Counted(Do(c, s, ArmAll), e) {
      var i: nat :| i < |es| && es[i] == e;
      assert Counted(s, s.q.entries[i]);
    }
  }

  lemma {:induction false} FinalCounts(c: Retry, s: State, id: nat)
    requires Can(c, s, Final) && CountInv(s, id) && Reported(s, id)
    ensures CountInv(Do(c, s, Final), id)
  {
    hide Tally, Truthful, HeldCount, LateCount;
    var log, lost := s.q.log, LostEvents(s.q.entries);
    forall e | e in lost + [Shut]
      ensures !e.Started? && (Reports(e, id) ==> e.attempts == Tally(log, Repeating, id))
    {
      if e in lost {
        var i: nat :| i < |lost| && lost[i] == e;
        assert s.q.entries[i].ref.id == id ==> Counted(s, s.q.entries[i]);
      }
    }
    TruthfulBatch(log, lost + [Shut], id);
    assert log + (lost + [Shut]) == Do(c, s, Final).q.log;
    forall e | e in s.q.entries && e.ref.id == id ensures Counted(Do(c, s, Final), e) {
      assert Counted(s, e);
    }
  }

  lemma {:induction false} RunKeepsCounts(c: Retry, start: nat, ls: seq<Label>, id: nat)
    requires Sane(c) && Exec(c, start, ls).Some?
    ensures CountInv(Exec(c, start, ls).value, id)
  {
    hide Do, Can;
    if ls != [] {
      var before := ls[..|ls| - 1];
      RunKeepsCounts(c, start, before, id);
      RunKeepsInv(c, start, before);
      HeldAtShutdownIsReported(c, start, before, id);
      KeepsCounts(c, Exec(c, start, before).value, ls[|ls| - 1], id);
    }
  }

  lemma {:induction false} TruthfulAt(log: seq<Event>, id: nat, k: nat)
    requires Truthful(log, id) && k < |log| && Reports(log[k], id)
    ensures log[k].attempts == Tally(log[..k], Repeating, id)
  {
    var n := |log| - 1;
    if k < n {
      assert log[..n][..k] == log[..k];
      TruthfulAt(log[..n], id, k);
    }
  }

  /** Over every run, Drain included, the number of attempts reported when a message is
      delivered, failed, expired or lost is that of the retries begun on it before. */
  lemma {:induction false} ReportedAttemptsAreTrue(c: Retry, start: nat, ls: seq<Label>, id: nat, k: nat)
    requires Sane(c) && Exec(c, start, ls).Some? && k < |Exec(c, start, ls).value.q.log|
    requires Reports(Exec(c, start, ls).value.q.log[k], id)
    ensures var log := Exec(c, start, ls).value.q.log; log[k].attempts == Tally(log[..k], Repeating, id)
  {
    hide Exec, Tally;
    RunKeepsCounts(c, start, ls, id);
    TruthfulAt(Exec(c, start, ls).value.q.log, id, k);
  }

  // ---- A pass attempts what it has copied ----

  ghost predicate StartedSince(log: seq<Event>, id: nat, n: nat) {
    exists k :: n <= k < |log| && Counts(Repeating, log[k], id)
  }

  /** Copied for the running pass and not yet begun. */
  predicate Awaits(t: Tick, m: Ref) {
    match t
    case Between(due) => m in due
    case Attempting(_, rest) => m in rest
    case Returned(_, _, rest) => m in rest
    case _ => false
  }

  lemma {:induction false} PassGoesOn(c: Retry, s: State, l: Label, m: Ref, n: nat)
    requires Can(c, s, l) && !l.Begin? && (Awaits(s.tick, m) || StartedSince(s.q.log, m.id, n)) && n <= |s.q.log|
    ensures Awaits(Do(c, s, l).tick, m) || StartedSince(Do(c, s, l).q.log, m.id, n)
    ensures |s.q.log| <= |Do(c, s, l).q.log|
  {
    hide Begun, Recorded, Enqueued, Armed, Abandoned;
    var more := Appends(c, s, l);
    var log := Do(c, s, l).q.log;
    if StartedSince(s.q.log, m.id, n) {
      var k :| n <= k < |s.q.log| && Counts(Repeating, s.q.log[k], m.id);
      assert Counts(Repeating, log[k], m.id);
    } else if l.Attempt? && s.tick.due[0] == m {
      assert Counts(Repeating, log[|s.q.log|], m.id);
    }
  }

  lemma {:induction false} PassRuns(c: Retry, start: nat, pre: seq<Label>, post: seq<Label>, m: Ref)
    requires Exec(c, start, pre + [Begin] + post).Some? && Begin !in post
    ensures Exec(c, start, pre + [Begin]).Some?
    ensures var s, t := Exec(c, start, pre + [Begin]).value, Exec(c, start, pre + [Begin] + post).value;
            && |s.q.log| <= |t.q.log|
            && (m in Pending(s.tick) ==> Awaits(t.tick, m) || StartedSince(t.q.log, m.id, |s.q.log|))
  {
    hide Exec, Can, Do, StartedSince;
    if post == [] {
      assert pre + [Begin] + post == pre + [Begin];
      ExecLast(c, start, pre, Begin);
      BeginIsBetween(c, Exec(c, start, pre).value);
    } else {
      var n := |post| - 1;
      assert pre + [Begin] + post == (pre + [Begin] + post[..n]) + [post[n]];
      ExecLast(c, start, pre + [Begin] + post[..n], post[n]);
      PassRuns(c, start, pre, post[..n], m);
      var s, t := Exec(c, start, pre + [Begin]).value, Exec(c, start, pre + [Begin] + post[..n]).value;
      if m in Pending(s.tick) {
        PassGoesOn(c, t, post[n], m, |s.q.log|);
      } else {
        StepGrows(c, t, post[n]);
      }
    }
  }

  lemma {:induction false} ExecPrefix(c: Retry, start: nat, a: seq<Label>, b: seq<Label>)
    requires Exec(c, start, a + b).Some?
    ensures Exec(c, start, a).Some?
  {
    hide Exec, Can, Do;
    if b == [] {
      assert a + b == a;
    } else {
      var n := |b| - 1;
      assert a + b == (a + b[..n]) + [b[n]];
      ExecLast(c, start, a + b[..n], b[n]);
      ExecPrefix(c, start, a, b[..n]);
    }
  }

  lemma {:induction false} BeginIsBetween(c: Retry, s: State)
    requires Can(c, s, Begin)
    ensures Do(c, s, Begin).tick.Between?
  {
  }

  lemma {:induction false} StepGrows(c: Retry, s: State, l: Label)
    requires Can(c, s, l)
    ensures |s.q.log| <= |Do(c, s, l).q.log|
  {
    hide Do;
    var more := Appends(c, s, l);
  }

  /** When a pass is over, the worker's or Drain's, every message that it copied has been
      attempted by it. */
  lemma {:induction false} PassAttemptsAll(c: Retry, start: nat, pre: seq<Label>, post: seq<Label>, m: Ref)
    requires Exec(c, start, pre + [Begin] + post + [Finish]).Some? && Begin !in post
    ensures Exec(c, start, pre + [Begin]).Some?
    ensures m in Pending(Exec(c, start, pre + [Begin]).value.tick) ==>
              StartedSince(Exec(c, start, pre + [Begin] + post + [Finish]).value.q.log, m.id,
                           |Exec(c, start, pre + [Begin]).value.q.log|)
  {
    hide Exec, Do;
    ExecLast(c, start, pre + [Begin] + post, Finish);
    PassRuns(c, start, pre, post, m);
    var t := Exec(c, start, pre + [Begin] + post).value;
    assert Do(c, t, Finish).q.log == t.q.log by { FinishIsSilent(c, t); }
  }

  lemma {:induction false} FinishIsSilent(c: Retry, s: State)
    requires Can(c, s, Finish)
    ensures Do(c, s, Finish).q.log == s.q.log
  {
  }

  /** Whatever sessions do meanwhile, every message held when Drain arms the entries has been
      attempted when the pass that follows is over, or has expired. */
  lemma {:induction false} DrainAttemptsAll(
    c: Retry, start: nat, pre: seq<Label>, mid: seq<Label>, post: seq<Label>, i: nat)
    requires Sane(c) && Exec(c, start, pre + [ArmAll] + mid + [Begin] + post + [Finish]).Some?
    requires Begin !in mid && Begin !in post
    ensures Exec(c, start, pre).Some? && Exec(c, start, pre + [ArmAll] + mid + [Begin]).Some?
    ensures i < |Exec(c, start, pre).value.q.entries| ==>
              var id := Exec(c, start, pre).value.q.entries[i].ref.id;
              var begun := Exec(c, start, pre + [ArmAll] + mid + [Begin]).value.q.log;
              var over := Exec(c, start, pre + [ArmAll] + mid + [Begin] + post + [Finish]).value.q.log;
              StartedSince(over, id, |begun|) || exists n :: Expired(id, n) in begun
  {
    hide Exec, StartedSince;
    assert pre + [ArmAll] + mid + [Begin] + (post + [Finish]) == pre + [ArmAll] + mid + [Begin] + post + [Finish];
    ExecPrefix(c, start, pre + [ArmAll] + mid + [Begin], post + [Finish]);
    DrainTriesAll(c, start, pre, mid, i);
    if i < |Exec(c, start, pre).value.q.entries| {
      PassAttemptsAll(c, start, pre + [ArmAll] + mid, post, Exec(c, start, pre).value.q.entries[i].ref);
    }
  }
}
