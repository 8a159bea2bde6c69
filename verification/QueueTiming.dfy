/** When messages are retried (internal/queue/queue.go), over every run: by the worker
    never early and a bounded number of times, and by it or by Drain at least once before
    expiry iff the configured times leave room for it. */
module QueueTiming {
  import opened Mail
  import opened Config
  import opened Queue
  import opened QueueProtocol
  import opened QueueAttempts
  import opened Options

  /** `n` retry intervals. */
  function Times(c: Retry, n: nat): int { n * Interval(c) }

  lemma {:induction false} TimesNext(c: Retry, n: nat)
    ensures Times(c, n + 1) == Times(c, n) + Interval(c) && Times(c, 1) == Interval(c) && Times(c, 0) == 0
  {
  }

  /** The clock reading an event carries. */
  function At(e: Event): int {
    match e
    case Started(_, _, at) => at
    case Ended(_, _, _, at) => at
    case Held(_, at) => at
    case Passed(at) => at
    case _ => ZERO_TIME
  }

  /** The time the latest attempt on the message ended. */
  function LastEnd(log: seq<Event>, id: nat): int {
    if log == [] then ZERO_TIME
    else
      var n := |log| - 1;
      var before := LastEnd(log[..n], id);
      if Counts(Ending, log[n], id) && At(log[n]) > before then At(log[n]) else before
  }

  /** The worker began no attempt within an interval of the end of the one before. */
  ghost predicate Spaced(c: Retry, log: seq<Event>, id: nat) {
    log == [] ||
    var n := |log| - 1;
    && Spaced(c, log[..n], id)
    && (Counts(Retrying, log[n], id) ==> LastEnd(log[..n], id) + Interval(c) <= At(log[n]))
  }

  predicate InHand(s: State, id: nat) {
    (s.tick.Attempting? || s.tick.Returned?) && s.tick.m.id == id
  }

  /** What holds of an entry until Drain takes over. */
  ghost predicate OnTime(c: Retry, s: State, e: Entry) {
    var id := e.ref.id;
    && e.accepted <= s.now
    && e.nextTry >= e.accepted + Times(c, e.attempts + 1)
    && ((s.tick.Returned? && s.tick.m.id == id) || LastEnd(s.q.log, id) + Interval(c) <= e.nextTry)
    && Tally(s.q.log, Retrying, id) == e.attempts + One(InHand(s, id))
    && (RefCount(Pending(s.tick), id) > 0 ==> e.nextTry <= s.now && Times(c, e.attempts + 1) <= Expire(c))
  }

  /** What holds of every message in every state. */
  ghost predicate OnRecord(c: Retry, s: State, id: nat) {
    && LastEnd(s.q.log, id) <= s.now
    && Times(c, Tally(s.q.log, Retrying, id)) <= Expire(c)
    && (id in s.inline || id in s.waiting || id >= |s.arrived| ==> Tally(s.q.log, Retrying, id) == 0)
    && Spaced(c, s.q.log, id)
  }

  ghost predicate TimeInv(c: Retry, s: State) {
    && s.now >= ZERO_TIME
    && (s.tick.Stamped? ==> s.tick.t <= s.now)
    && (forall id: nat :: OnRecord(c, s, id))
    && (!InDrain(s) ==> forall e :: e in s.q.entries ==> OnTime(c, s, e))
  }

  // ---- How the history moves ----

  lemma {:induction false} RecordSnoc(c: Retry, log: seq<Event>, e: Event, id: nat)
    requires Spaced(c, log, id)
    requires Counts(Retrying, e, id) ==> LastEnd(log, id) + Interval(c) <= At(e)
    ensures Spaced(c, log + [e], id)
    ensures LastEnd(log + [e], id) ==
            if Counts(Ending, e, id) && At(e) > LastEnd(log, id) then At(e) else LastEnd(log, id)
    ensures Tally(log + [e], Retrying, id) == Tally(log, Retrying, id) + One(Counts(Retrying, e, id))
  {
    hide Tally, Interval;
    var w := log + [e];
    assert w[..|w| - 1] == log && w[|w| - 1] == e;
    TallySnoc(log, e, Retrying, id);
    assert Spaced(c, w, id) == (Spaced(c, w[..|w| - 1], id)
        && (Counts(Retrying, w[|w| - 1], id) ==> LastEnd(w[..|w| - 1], id) + Interval(c) <= At(w[|w| - 1])));
  }

  lemma {:induction false} RecordOther(c: Retry, log: seq<Event>, more: seq<Event>, id: nat)
    requires Spaced(c, log, id) && forall e :: e in more ==> !e.Started? && !e.Ended?
    ensures Spaced(c, log + more, id)
    ensures LastEnd(log + more, id) == LastEnd(log, id)
    ensures Tally(log + more, Retrying, id) == Tally(log, Retrying, id)
  {
    hide Tally, Spaced, LastEnd;
    if more == [] {
      assert log + more == log;
    } else {
      var n := |more| - 1;
      assert more[n] in more;
      RecordOther(c, log, more[..n], id);
      assert log + more == (log + more[..n]) + [more[n]];
      RecordSnoc(c, log + more[..n], more[n], id);
    }
  }

  /** An entry stays on time when nothing about its message changed. */
  lemma {:induction false} Unaffected(c: Retry, s: State, t: State, e: Entry)
    requires OnTime(c, s, e) && t.now >= s.now && t.tick == s.tick
    requires LastEnd(t.q.log, e.ref.id) == LastEnd(s.q.log, e.ref.id)
    requires Tally(t.q.log, Retrying, e.ref.id) == Tally(s.q.log, Retrying, e.ref.id)
    ensures OnTime(c, t, e)
  {
  }

  /** The entry whose turn it is. */
  lemma {:induction false} EntryInTurn(c: Retry, s: State) returns (e: Entry)
    requires Inv(c, s) && Pending(s.tick) != []
    ensures e in s.q.entries && e.ref.id == Pending(s.tick)[0].id
    ensures RefCount(Pending(s.tick), e.ref.id) == 1 && HeldCount(s.q.entries, e.ref.id) == 1
  {
    hide HeldCount, Tally;
    var m := Pending(s.tick)[0];
    FirstPendingIsHeld(s);
    PendingIsHeld(s, m);
    e := s.q.entries[Find(s.q.entries, m.id)];
    assert RefCount(Pending(s.tick), m.id) <= HeldCount(s.q.entries, m.id);
  }

  lemma {:induction false} KeepsOnRecord(c: Retry, s: State, l: Label, id: nat)
    requires Can(c, s, l) && Inv(c, s) && TimeInv(c, s)
    ensures OnRecord(c, Do(c, s, l), id)
  {
    hide Tally, HeldCount, Find, Begun, Recorded, Armed, LostEvents, RefCount, Enqueued, Spaced, LastEnd, Times,
      Interval;
    assert OnRecord(c, s, id);
    assert Places(s, id) == One(id < |s.arrived|);
    var log := s.q.log;
    match l {
      case Arrive(msg) => RecordSnoc(c, log, Started(|s.arrived|, Inline, s.now), id);
      case InlineEnd(x, res) =>
        var e := Ended(x, Inline, res, s.now);
        RecordSnoc(c, log, e, id);
        RecordSnoc(c, log + [e], Refused(x), id);
      case Attempt => AttemptOnRecord(c, s, id);
      case Return(res) =>
        RecordSnoc(c, log, Ended(s.tick.m.id, Who(s), res, s.now), id);
      case _ => OtherOnRecord(c, s, l, id);
    }
  }

  /** The steps that are no attempts. */
  lemma {:induction false} OtherOnRecord(c: Retry, s: State, l: Label, id: nat)
    requires Can(c, s, l) && OnRecord(c, s, id)
    requires !l.Arrive? && !l.InlineEnd? && !l.Attempt? && !l.Return?
    ensures OnRecord(c, Do(c, s, l), id)
    ensures LastEnd(Do(c, s, l).q.log, id) == LastEnd(s.q.log, id)
    ensures Tally(Do(c, s, l).q.log, Retrying, id) == Tally(s.q.log, Retrying, id)
  {
    hide Tally, Find, Sweep, Spaced, LastEnd, Times, Interval;
    var more := NoAttempts(c, s, l);
    RecordOther(c, s.q.log, more, id);
  }

  lemma {:induction false} NoAttempts(c: Retry, s: State, l: Label) returns (more: seq<Event>)
    requires Can(c, s, l) && !l.Arrive? && !l.InlineEnd? && !l.Attempt? && !l.Return?
    ensures Do(c, s, l).q.log == s.q.log + more && forall e :: e in more ==> !e.Started? && !e.Ended?
  {
    hide Find, Sweep;
    match l {
      case Enqueue(x) =>
        more := [if Fits(c, s.q, Ref(x, s.arrived[x])) then Held(x, s.now) else Refused(x)];
      case Begin =>
        var gone := ExpiredEvents(Sweep(s.q.entries, s.tick.t, Expire(c)).expired);
        more := gone + [Passed(s.tick.t)];
      case Record => more := RecordAppends(c, s.q, s.tick.m.id, s.tick.res, s.now);
      case Final => more := LostEvents(s.q.entries) + [Shut];
      case _ => more := [];
    }
  }

  lemma {:induction false} AttemptOnRecord(c: Retry, s: State, id: nat)
    requires Can(c, s, Attempt) && Inv(c, s) && TimeInv(c, s)
    ensures OnRecord(c, Do(c, s, Attempt), id)
  {
    hide Tally, HeldCount, Spaced, LastEnd, Times, Interval, RefCount;
    assert OnRecord(c, s, id);
    var e := EntryInTurn(c, s);
    assert Places(s, e.ref.id) == One(e.ref.id < |s.arrived|);
    RecordSnoc(c, s.q.log, Started(e.ref.id, Who(s), s.now), id);
  }

  // ---- Entries stay on time ----

  lemma {:induction false} KeepsOnTime(c: Retry, s: State, l: Label, e: Entry)
    requires Can(c, s, l) && Inv(c, s) && TimeInv(c, s) && c.intervalSec > 0
    requires !InDrain(Do(c, s, l)) && e in Do(c, s, l).q.entries
    ensures OnTime(c, Do(c, s, l), e)
  {
    hide OnTime, Inv, TimeInv, Begun, Recorded, Enqueued, Due;
    match l {
      case Begin => BeginOnTime(c, s, e);
      case Record => RecordOnTime(c, s, e);
      case Enqueue(x) => EnqueueOnTime(c, s, x, e);
      case Arrive(_) => ArriveOnTime(c, s, l, e);
      case InlineEnd(_, _) => ArriveOnTime(c, s, l, e);
      case Attempt => AttemptOnTime(c, s, e);
      case Return(res) => ReturnOnTime(c, s, res, e);
      case _ => QuietOnTime(c, s, l, e);
    }
  }

  /** Steps that touch neither the history nor the entries, and begin no attempt. */
  lemma {:induction false} QuietOnTime(c: Retry, s: State, l: Label, e: Entry)
    requires Can(c, s, l) && TimeInv(c, s) && !InDrain(Do(c, s, l)) && e in s.q.entries
    requires l.Elapse? || l.Stamp? || l.Finish? || l.Stop?
    ensures OnTime(c, Do(c, s, l), e)
  {
    hide Tally, RefCount, LastEnd, Times, Interval, OnRecord;
    assert OnTime(c, s, e);
    NoRefs(e.ref.id);
  }

  /** A session's first attempt is not about a held message. */
  lemma {:induction false} ArriveOnTime(c: Retry, s: State, l: Label, e: Entry)
    requires Can(c, s, l) && Inv(c, s) && TimeInv(c, s) && !InDrain(s) && e in s.q.entries
    requires l.Arrive? || l.InlineEnd?
    ensures OnTime(c, Do(c, s, l), e)
  {
    hide Tally, HeldCount, RefCount, LastEnd, Spaced, Times, Interval, OnTime, Inv;
    var id := e.ref.id;
    assert OnRecord(c, s, id);
    HeldIsKnown(c, s, e);
    match l {
      case Arrive(_) => RecordSnoc(c, s.q.log, Started(|s.arrived|, Inline, s.now), id);
      case InlineEnd(x, res) =>
        var ev := Ended(x, Inline, res, s.now);
        RecordSnoc(c, s.q.log, ev, id);
        RecordSnoc(c, s.q.log + [ev], Refused(x), id);
    }
    Unaffected(c, s, Do(c, s, l), e);
  }

  lemma {:induction false} AttemptOnTime(c: Retry, s: State, e: Entry)
    requires Can(c, s, Attempt) && Inv(c, s) && TimeInv(c, s) && !InDrain(s) && e in s.q.entries
    ensures OnTime(c, Do(c, s, Attempt), e)
  {
    hide Tally, HeldCount, LastEnd, Spaced, Times, Interval, Inv, RefCount;
    assert OnTime(c, s, e);
    assert [s.tick.due[0]] + s.tick.due[1..] == s.tick.due;
    AttemptSteps(c, s, e.ref.id);
  }

  lemma {:induction false} ReturnOnTime(c: Retry, s: State, res: Result, e: Entry)
    requires Can(c, s, Return(res)) && TimeInv(c, s) && !InDrain(s) && e in s.q.entries
    ensures OnTime(c, Do(c, s, Return(res)), e)
  {
    hide Tally, LastEnd, Spaced, Times, Interval, RefCount;
    assert OnTime(c, s, e) && OnRecord(c, s, e.ref.id);
    RecordSnoc(c, s.q.log, Ended(s.tick.m.id, Who(s), res, s.now), e.ref.id);
  }

  lemma {:induction false} NoRefs(id: nat)
    ensures RefCount([], id) == 0
  {
  }

  lemma {:induction false} AttemptSteps(c: Retry, s: State, id: nat)
    requires Can(c, s, Attempt) && Inv(c, s) && TimeInv(c, s)
    ensures LastEnd(Do(c, s, Attempt).q.log, id) == LastEnd(s.q.log, id)
    ensures Tally(Do(c, s, Attempt).q.log, Retrying, id) ==
            Tally(s.q.log, Retrying, id) + One(!InDrain(s) && s.tick.due[0].id == id)
  {
    hide Tally, HeldCount, Spaced, LastEnd, Times, Interval, RefCount;
    var e := EntryInTurn(c, s);
    assert OnRecord(c, s, id);
    RecordSnoc(c, s.q.log, Started(e.ref.id, Who(s), s.now), id);
  }

  /** A held message is not in its first attempt, nor on its way in, and it has arrived. */
  lemma {:induction false} HeldIsKnown(c: Retry, s: State, e: Entry)
    requires Inv(c, s) && e in s.q.entries
    ensures e.ref.id < |s.arrived| && e.ref.id !in s.inline && e.ref.id !in s.waiting
    ensures HeldCount(s.q.entries, e.ref.id) == 1
  {
    hide Tally;
    var i: nat :| i < |s.q.entries| && s.q.entries[i] == e;
    HeldMeans(s.q.entries, e.ref.id);
    assert Places(s, e.ref.id) == One(e.ref.id < |s.arrived|);
  }

  /** A message has one entry. */
  lemma {:induction false} OneEntry(c: Retry, s: State, a: Entry, b: Entry)
    requires Inv(c, s) && a in s.q.entries && b in s.q.entries && a.ref.id == b.ref.id
    ensures a == b
  {
    HeldIsKnown(c, s, a);
    var i: nat :| i < |s.q.entries| && s.q.entries[i] == a;
    var j: nat :| j < |s.q.entries| && s.q.entries[j] == b;
    if i < j {
      HeldOnce(s.q.entries, i, j, a.ref.id);
    } else if j < i {
      HeldOnce(s.q.entries, j, i, a.ref.id);
    }
  }

  lemma {:induction false} DueMeans(es: seq<Entry>, t: int, id: nat)
    requires RefCount(Due(es, t), id) > 0
    ensures exists e :: e in es && e.ref.id == id && t >= e.nextTry
  {
    var n := |es| - 1;
    RefCountSnoc(Due(es[..n], t), es[n].ref, id);
    if RefCount(Due(es[..n], t), id) > 0 {
      DueMeans(es[..n], t, id);
      var e :| e in es[..n] && e.ref.id == id && t >= e.nextTry;
      assert e in es;
    } else {
      assert es[n] in es;
    }
  }

  lemma {:induction false} SweptIn(es: seq<Entry>, now: int, expire: int, e: Entry)
    requires e in Sweep(es, now, expire).kept
    ensures e in es && Queue.Fresh(e, now, expire)
  {
    hide SweepFrom;
    SweepSplits(es, now, expire);
    assert e in multiset(es);
  }

  lemma {:induction false} BeginOnTime(c: Retry, s: State, e: Entry)
    requires Can(c, s, Begin) && Inv(c, s) && TimeInv(c, s) && !InDrain(s) && e in Do(c, s, Begin).q.entries
    ensures OnTime(c, Do(c, s, Begin), e)
  {
    hide Tally, HeldCount, RefCount, Sweep, LastEnd, Spaced, Times, Due;
    var t, now, id := Do(c, s, Begin), s.tick.t, e.ref.id;
    SweptIn(s.q.entries, now, Expire(c), e);
    assert OnTime(c, s, e) && OnRecord(c, s, id);
    OtherOnRecord(c, s, Begin, id);
    if RefCount(Pending(t.tick), id) > 0 {
      DueMeans(t.q.entries, now, id);
      var d :| d in t.q.entries && d.ref.id == id && now >= d.nextTry;
      SweptIn(s.q.entries, now, Expire(c), d);
      OneEntry(c, s, d, e);
    }
  }

  lemma {:induction false} EnqueueOnTime(c: Retry, s: State, x: nat, e: Entry)
    requires Can(c, s, Enqueue(x)) && Inv(c, s) && TimeInv(c, s) && !InDrain(s) && c.intervalSec > 0
    requires e in Do(c, s, Enqueue(x)).q.entries
    ensures OnTime(c, Do(c, s, Enqueue(x)), e)
  {
    hide Tally, HeldCount, RefCount, LastEnd, Spaced, Times;
    var t, id := Do(c, s, Enqueue(x)), e.ref.id;
    assert OnRecord(c, s, id) && Places(s, id) == One(id < |s.arrived|);
    OtherOnRecord(c, s, Enqueue(x), id);
    TimesNext(c, 0);
    if e in s.q.entries {
      Unaffected(c, s, t, e);
    } else {
      assert RefCount(Pending(s.tick), id) <= HeldCount(s.q.entries, id);
      if InHand(s, id) {
        FirstPendingIsHeld(s);
      }
    }
  }

  lemma {:induction false} RecordOnTime(c: Retry, s: State, e: Entry)
    requires Can(c, s, Record) && Inv(c, s) && TimeInv(c, s) && !InDrain(s)
    requires e in Do(c, s, Record).q.entries
    ensures OnTime(c, Do(c, s, Record), e)
  {
    hide Tally, HeldCount, RefCount, LastEnd, Spaced, Times, Find, SwapRemove, Interval, Recorded;
    var t, id, m := Do(c, s, Record), e.ref.id, s.tick.m;
    var turn := EntryInTurn(c, s);
    assert OnRecord(c, s, id) && OnTime(c, s, turn);
    OtherOnRecord(c, s, Record, id);
    TimesNext(c, turn.attempts + 1);
    RecordedEntry(c, s, turn, e);
    PendingTail(s, id);
  }

  lemma {:induction false} PendingTail(s: State, id: nat)
    requires s.tick.Returned?
    ensures RefCount(Pending(s.tick), id) == One(s.tick.m.id == id) + RefCount(s.tick.rest, id)
  {
    assert ([s.tick.m] + s.tick.rest)[1..] == s.tick.rest;
  }

  /** After a recorded result an entry is an old one of another message, or the one in
      turn, rescheduled. */
  lemma {:induction false} RecordedEntry(c: Retry, s: State, turn: Entry, e: Entry)
    requires Can(c, s, Record) && Inv(c, s)
    requires turn in s.q.entries && turn.ref.id == s.tick.m.id && e in Do(c, s, Record).q.entries
    ensures (e in s.q.entries && e.ref.id != turn.ref.id)
            || (!IsFinal(s.tick.res)
                && e == turn.(attempts := turn.attempts + 1, nextTry := s.now + Interval(c)))
  {
    hide Do, Inv, Find, Interval, SwapRemove;
    var es, m := s.q.entries, s.tick.m;
    assert DueHeld(s) by { InvHolds(c, s); }
    PendingIsHeld(s, m);
    var i: nat := Find(es, m.id);
    OneEntry(c, s, es[i], turn);
    RecordedEntries(c, s);
    var after := Do(c, s, Record).q.entries;
    var j: nat :| j < |after| && after[j] == e;
    var k := if IsFinal(s.tick.res) && j == i then |es| - 1 else j;
    if IsFinal(s.tick.res) {
      SwapRemoveAt(es, i, j);
    }
    if k != i {
      OnePosition(c, s, i, k);
    }
  }

  lemma {:induction false} InvHolds(c: Retry, s: State)
    requires Inv(c, s)
    ensures DueHeld(s)
  {
  }

  lemma {:induction false} SwapRemoveAt(es: seq<Entry>, i: nat, j: nat)
    requires i < |es| && j < |es| - 1
    ensures SwapRemove(es, i)[j] == if j == i then es[|es| - 1] else es[j]
  {
  }

  lemma {:induction false} RecordedEntries(c: Retry, s: State)
    requires Can(c, s, Record) && Find(s.q.entries, s.tick.m.id) >= 0
    ensures var es, i := s.q.entries, Find(s.q.entries, s.tick.m.id);
            Do(c, s, Record).q.entries ==
            if IsFinal(s.tick.res) then SwapRemove(es, i)
            else es[i := es[i].(attempts := es[i].attempts + 1, nextTry := s.now + Interval(c))]
  {
    hide Find, Interval, SwapRemove;
  }

  lemma {:induction false} OnePosition(c: Retry, s: State, i: nat, k: nat)
    requires Inv(c, s) && i < |s.q.entries| && k < |s.q.entries| && i != k
    ensures s.q.entries[i].ref.id != s.q.entries[k].ref.id
  {
    hide HeldCount;
    var es := s.q.entries;
    if es[i].ref.id == es[k].ref.id {
      HeldIsKnown(c, s, es[i]);
      if i < k {
        HeldOnce(es, i, k, es[i].ref.id);
      } else {
        HeldOnce(es, k, i, es[i].ref.id);
      }
      assert false;
    }
  }

  lemma {:induction false} KeepsTime(c: Retry, s: State, l: Label)
    requires Can(c, s, l) && Inv(c, s) && TimeInv(c, s) && c.intervalSec > 0
    ensures TimeInv(c, Do(c, s, l))
  {
    hide OnRecord, OnTime, Inv, Begun, Recorded, Enqueued, Armed, Abandoned;
    forall id: nat ensures OnRecord(c, Do(c, s, l), id) {
      KeepsOnRecord(c, s, l, id);
    }
    if !InDrain(Do(c, s, l)) {
      forall e | e in Do(c, s, l).q.entries ensures OnTime(c, Do(c, s, l), e) {
        KeepsOnTime(c, s, l, e);
      }
    }
  }

  lemma {:induction false} RunKeepsTime(c: Retry, start: nat, ls: seq<Label>)
    requires Sane(c) && c.intervalSec > 0 && c.expireSec >= 0 && Exec(c, start, ls).Some?
    ensures TimeInv(c, Exec(c, start, ls).value)
  {
    hide Do, Can;
    if ls == [] {
      TimesNext(c, 0);
    } else {
      RunKeepsTime(c, start, ls[..|ls| - 1]);
      RunKeepsInv(c, start, ls[..|ls| - 1]);
      KeepsTime(c, Exec(c, start, ls[..|ls| - 1]).value, ls[|ls| - 1]);
    }
  }

  // ---- What the worker promises ----

  /** Until Drain takes over, every entry's next try lies at least one interval past its
      acceptance for each attempt already made and the one to come. */
  lemma {:induction false} EntriesWait(c: Retry, start: nat, ls: seq<Label>, i: nat)
    requires Sane(c) && c.intervalSec > 0 && c.expireSec >= 0 && Exec(c, start, ls).Some?
    requires !InDrain(Exec(c, start, ls).value) && i < |Exec(c, start, ls).value.q.entries|
    ensures var e := Exec(c, start, ls).value.q.entries[i];
            e.nextTry >= e.accepted + (e.attempts + 1) * Interval(c)
  {
    hide Exec;
    RunKeepsTime(c, start, ls);
    var s := Exec(c, start, ls).value;
    assert OnTime(c, s, s.q.entries[i]);
  }

  /** Over every run the worker retries a message at most expire/interval times. */
  lemma {:induction false} RetriesBounded(c: Retry, start: nat, ls: seq<Label>, id: nat)
    requires Sane(c) && c.intervalSec > 0 && c.expireSec >= 0 && Exec(c, start, ls).Some?
    ensures Tally(Exec(c, start, ls).value.q.log, Retrying, id) <= c.expireSec / c.intervalSec
  {
    hide Exec, Tally;
    RunKeepsTime(c, start, ls);
    var s := Exec(c, start, ls).value;
    assert OnRecord(c, s, id);
    Quotient(Tally(s.q.log, Retrying, id), c.intervalSec, c.expireSec);
  }

  lemma {:induction false} Quotient(n: nat, i: int, e: int)
    requires i > 0 && n * (i * SECOND) <= e * SECOND
    ensures n <= e / i
  {
    assert n * (i * SECOND) == (n * i) * SECOND;
    assert n * i <= e;
    assert e == (e / i) * i + e % i;
    AtMost(n, e / i, i, e % i);
  }

  lemma {:induction false} AtMost(n: int, q: int, i: int, r: int)
    requires i > 0 && r < i && n * i <= q * i + r
    ensures n <= q
  {
    if n >= q + 1 {
      assert n * i >= (q + 1) * i by { Monotone(n, q + 1, i); }
      assert false;
    }
  }

  lemma {:induction false} Monotone(a: int, b: int, i: int)
    requires i > 0 && a >= b
    ensures a * i >= b * i
  {
    assert (a - b) * i >= 0;
  }

  lemma {:induction false} LastEndReaches(log: seq<Event>, id: nat, i: nat)
    requires i < |log| && Counts(Ending, log[i], id)
    ensures LastEnd(log, id) >= At(log[i])
  {
    hide Counts;
    var n := |log| - 1;
    if i < n {
      LastEndReaches(log[..n], id, i);
    }
  }

  lemma {:induction false} SpacedAt(c: Retry, log: seq<Event>, id: nat, j: nat)
    requires Spaced(c, log, id) && j < |log| && Counts(Retrying, log[j], id)
    ensures LastEnd(log[..j], id) + Interval(c) <= At(log[j])
  {
    hide Counts, LastEnd;
    var n := |log| - 1;
    if j < n {
      assert log[..n][..j] == log[..j];
      SpacedAt(c, log[..n], id, j);
    }
  }

  /** Over every run the worker begins an attempt on a message no sooner than one interval
      after any earlier attempt on it ended, the inline one included. */
  lemma {:induction false} RetriesWait(c: Retry, start: nat, ls: seq<Label>, id: nat, i: nat, j: nat)
    requires Sane(c) && c.intervalSec > 0 && c.expireSec >= 0 && Exec(c, start, ls).Some?
    requires i < j < |Exec(c, start, ls).value.q.log|
    requires Counts(Ending, Exec(c, start, ls).value.q.log[i], id)
    requires Counts(Retrying, Exec(c, start, ls).value.q.log[j], id)
    ensures var log := Exec(c, start, ls).value.q.log; At(log[j]) >= At(log[i]) + Interval(c)
  {
    hide Exec, Counts, LastEnd, Spaced, Tally;
    RunKeepsTime(c, start, ls);
    var s := Exec(c, start, ls).value;
    assert OnRecord(c, s, id);
    SpacedAt(c, s.q.log, id, j);
    LastEndReaches(s.q.log[..j], id, i);
  }

  // ---- A retry before expiry ----

  /** The clock reading of the latest pass, or of the start. */
  function LastPass(log: seq<Event>, start: int): int {
    if log == [] then start
    else if log[|log| - 1].Passed? then log[|log| - 1].at
    else LastPass(log[..|log| - 1], start)
  }

  /** Passes, of the worker and then of Drain, start at most an interval apart, the first
      within one of the start. */
  ghost predicate Regular(c: Retry, log: seq<Event>, start: int) {
    log == [] ||
    var n := |log| - 1;
    && Regular(c, log[..n], start)
    && (log[n].Passed? ==> log[n].at <= LastPass(log[..n], start) + Interval(c))
  }

  /** No message expired without a retry. */
  ghost predicate AllTried(log: seq<Event>) {
    forall e :: e in log && e.Expired? ==> e.attempts > 0
  }

  lemma {:induction false} PassOther(c: Retry, log: seq<Event>, more: seq<Event>, start: int)
    requires forall e :: e in more ==> !e.Passed?
    ensures LastPass(log + more, start) == LastPass(log, start)
    ensures Regular(c, log + more, start) <==> Regular(c, log, start)
  {
    if more == [] {
      assert log + more == log;
    } else {
      var n := |more| - 1;
      assert (log + more)[..|log| + n] == log + more[..n];
      assert more[n] in more;
      PassOther(c, log, more[..n], start);
    }
  }

  lemma {:induction false} PassSnoc(c: Retry, log: seq<Event>, t: int, start: int)
    ensures LastPass(log + [Passed(t)], start) == t
    ensures Regular(c, log + [Passed(t)], start) <==>
            Regular(c, log, start) && t <= LastPass(log, start) + Interval(c)
  {
    assert (log + [Passed(t)])[..|log|] == log;
  }

  /** An entry not yet retried is in the running pass, or no pass has reached its time. */
  ghost predicate Untouched(c: Retry, s: State, start: int, e: Entry) {
    && ZERO_TIME <= e.accepted
    && (e.attempts == 0 ==>
          e.nextTry <= e.accepted + Interval(c)
          && (RefCount(Pending(s.tick), e.ref.id) > 0 || LastPass(s.q.log, start) < e.accepted + Interval(c)))
  }

  ghost predicate PassInv(c: Retry, s: State, start: int) {
    && LastPass(s.q.log, start) <= s.now
    && AllTried(s.q.log)
    && (forall e :: e in s.q.entries ==> Untouched(c, s, start, e))
  }

  /** The steps other than a pass add no pass and no expiry. */
  lemma {:induction false} NoPass(c: Retry, s: State, l: Label) returns (more: seq<Event>)
    requires Can(c, s, l) && !l.Begin?
    ensures Do(c, s, l).q.log == s.q.log + more && forall e :: e in more ==> !e.Passed? && !e.Expired?
  {
    if l.Arrive? || l.InlineEnd? || l.Attempt? || l.Return? {
      more := Do(c, s, l).q.log[|s.q.log|..];
    } else if l.Final? {
      more := LostEvents(s.q.entries) + [Shut];
    } else {
      more := SilentPass(c, s, l);
    }
  }

  lemma {:induction false} SilentPass(c: Retry, s: State, l: Label) returns (more: seq<Event>)
    requires Can(c, s, l) && !l.Begin? && !l.Arrive? && !l.InlineEnd? && !l.Attempt? && !l.Return? && !l.Final?
    ensures Do(c, s, l).q.log == s.q.log + more && forall e :: e in more ==> !e.Passed? && !e.Expired?
  {
    hide Find;
    match l {
      case Enqueue(x) =>
        more := [if Fits(c, s.q, Ref(x, s.arrived[x])) then Held(x, s.now) else Refused(x)];
      case Record => more := RecordAppends(c, s.q, s.tick.m.id, s.tick.res, s.now);
      case _ => more := [];
    }
  }

  lemma {:induction false} BeginKeepsPasses(c: Retry, s: State, start: int)
    requires Can(c, s, Begin) && Inv(c, s) && TimeInv(c, s)
    requires PassInv(c, s, start) && Regular(c, Do(c, s, Begin).q.log, start)
    requires c.intervalSec > 0 && c.expireSec >= 2 * c.intervalSec
    ensures PassInv(c, Do(c, s, Begin), start)
  {
    hide Sweep, Due, RefCount, LastPass, Regular, Tally, HeldCount, OnTime, OnRecord, Bounded, Conserved, Genuine,
      DueHeld;
    var t, now := Do(c, s, Begin), s.tick.t;
    var r := Sweep(s.q.entries, now, Expire(c));
    var gone := ExpiredEvents(r.expired);
    PassOther(c, s.q.log, gone, start);
    PassSnoc(c, s.q.log + gone, now, start);
    ExpiredWereTried(c, s, start);
    forall e | e in t.q.entries ensures Untouched(c, t, start, e) {
      SweptIn(s.q.entries, now, Expire(c), e);
      assert Untouched(c, s, start, e);
      if now >= e.nextTry {
        DueHas(t.q.entries, now, e);
        RefCounted(Due(t.q.entries, now), e.ref);
      }
    }
  }

  lemma {:induction false} ExpiredWereTried(c: Retry, s: State, start: int)
    requires s.tick.Stamped? && PassInv(c, s, start)
    requires s.tick.t <= LastPass(s.q.log, start) + Interval(c)
    requires c.intervalSec > 0 && c.expireSec >= 2 * c.intervalSec
    ensures forall e :: e in Sweep(s.q.entries, s.tick.t, Expire(c)).expired ==> e.attempts > 0
  {
    hide Sweep, RefCount, LastPass;
    var now, expire := s.tick.t, Expire(c);
    forall e | e in Sweep(s.q.entries, now, expire).expired ensures e.attempts > 0 {
      StaleEntry(s.q.entries, now, expire, e);
      assert Untouched(c, s, start, e);
      NoRefs(e.ref.id);
    }
  }

  lemma {:induction false} StaleEntry(es: seq<Entry>, now: int, expire: int, e: Entry)
    requires e in Sweep(es, now, expire).expired
    ensures now - e.accepted > expire && e in es
  {
    hide SweepFrom;
    SweepSplits(es, now, expire);
    StaleIsStale(es, now, expire, e);
    assert e in multiset(es);
  }

  lemma {:induction false} StaleIsStale(es: seq<Entry>, now: int, expire: int, e: Entry)
    requires e in StaleBackward(es, now, expire)
    ensures !Queue.Fresh(e, now, expire)
  {
    if Queue.Fresh(es[|es| - 1], now, expire) || e != es[|es| - 1] {
      StaleIsStale(es[..|es| - 1], now, expire, e);
    }
  }

  lemma {:induction false} KeepsUntouched(c: Retry, s: State, l: Label, start: int, e: Entry)
    requires Can(c, s, l) && Inv(c, s) && TimeInv(c, s) && PassInv(c, s, start) && c.intervalSec > 0
    requires !l.Begin? && e in Do(c, s, l).q.entries
    requires LastPass(Do(c, s, l).q.log, start) == LastPass(s.q.log, start)
    ensures Untouched(c, Do(c, s, l), start, e)
  {
    hide LastPass, Tally, HeldCount, Find, Recorded, RefCount, OnTime, Bounded, Conserved, Genuine, DueHeld, AllTried;
    if l.Record? {
      var turn := EntryInTurn(c, s);
      RecordedEntry(c, s, turn, e);
      PendingTail(s, e.ref.id);
      assert e in s.q.entries ==> Untouched(c, s, start, e);
    } else if l.Enqueue? {
      assert e in s.q.entries ==> Untouched(c, s, start, e);
    } else if l.ArmAll? {
      var i: nat :| i < |Armed(s.q).entries| && Armed(s.q).entries[i] == e;
      assert Untouched(c, s, start, s.q.entries[i]);
    } else {
      assert l.Attempt? ==> [s.tick.due[0]] + s.tick.due[1..] == s.tick.due;
      assert Untouched(c, s, start, e);
      NoRefs(e.ref.id);
    }
  }

  lemma {:induction false} KeepsPasses(c: Retry, s: State, l: Label, start: int)
    requires Can(c, s, l) && Inv(c, s) && TimeInv(c, s) && PassInv(c, s, start)
    requires Regular(c, Do(c, s, l).q.log, start)
    requires c.intervalSec > 0 && c.expireSec >= 2 * c.intervalSec
    ensures PassInv(c, Do(c, s, l), start)
  {
    hide LastPass, Regular, Untouched, Inv, OnTime, OnRecord, Begun, Recorded, Enqueued, Armed, Abandoned;
    if l.Begin? {
      BeginKeepsPasses(c, s, start);
    } else {
      var more := NoPass(c, s, l);
      PassOther(c, s.q.log, more, start);
      forall e | e in Do(c, s, l).q.entries ensures Untouched(c, Do(c, s, l), start, e) {
        KeepsUntouched(c, s, l, start, e);
      }
    }
  }

  /** Regular passes in a prefix of the history. */
  lemma {:induction false} RegularPrefix(c: Retry, s: State, l: Label, start: int)
    requires Can(c, s, l) && Regular(c, Do(c, s, l).q.log, start)
    ensures Regular(c, s.q.log, start)
  {
    hide Regular, LastPass, Sweep;
    if l.Begin? {
      var gone := ExpiredEvents(Sweep(s.q.entries, s.tick.t, Expire(c)).expired);
      GoneHasNoPass(Sweep(s.q.entries, s.tick.t, Expire(c)).expired);
      PassOther(c, s.q.log, gone, start);
      PassSnoc(c, s.q.log + gone, s.tick.t, start);
    } else {
      var more := NoPass(c, s, l);
      PassOther(c, s.q.log, more, start);
    }
  }

  lemma {:induction false} GoneHasNoPass(es: seq<Entry>)
    ensures forall e :: e in ExpiredEvents(es) ==> !e.Passed?
  {
  }

  /** With regular passes and an expiry of at least two intervals, no message expires
      before it has been retried, by the worker or by Drain. */
  lemma {:induction false} RetriedBeforeExpiry(c: Retry, start: nat, ls: seq<Label>)
    requires Sane(c) && c.intervalSec > 0 && c.expireSec >= 2 * c.intervalSec
    requires Exec(c, start, ls).Some? && Regular(c, Exec(c, start, ls).value.q.log, start)
    ensures PassInv(c, Exec(c, start, ls).value, start)
  {
    hide Do, Can, Regular;
    if ls != [] {
      var before, l := Exec(c, start, ls[..|ls| - 1]).value, ls[|ls| - 1];
      RegularPrefix(c, before, l, start);
      RetriedBeforeExpiry(c, start, ls[..|ls| - 1]);
      RunKeepsInv(c, start, ls[..|ls| - 1]);
      RunKeepsTime(c, start, ls[..|ls| - 1]);
      KeepsPasses(c, before, l, start);
    }
  }

  // ---- The validated condition alone is not enough ----

  lemma {:induction false} ExecStep(c: Retry, start: nat, ls: seq<Label>, l: Label)
    requires Exec(c, start, ls).Some? && Can(c, Exec(c, start, ls).value, l)
    ensures Exec(c, start, ls + [l]) == Some(Do(c, Exec(c, start, ls).value, l))
  {
    hide Do, Can;
    assert (ls + [l])[..|ls|] == ls;
  }

  /** A state of the run below: one message, no bytes, no session under way. */
  ghost predicate Stands(s: State, msg: Message, now: int, es: seq<Entry>, log: seq<Event>, tick: Tick) {
    && s.now == now && s.q.entries == es && s.q.bytes == 0 && s.q.log == log && s.tick == tick
    && s.phase.Serving? && s.arrived == [msg] && s.inline == {}
  }

  /** A message enters one tick of the clock after the start. */
  lemma {:induction false} EntersAtOne(c: Retry, msg: Message) returns (ls: seq<Label>)
    requires c.enabled && ValidRetry(c) && msg.body == ""
    ensures Exec(c, 0, ls).Some?
    ensures Stands(Exec(c, 0, ls).value, msg, 1, [Entry(Ref(0, msg), 1, 1 + Interval(c), 0)],
                   [Started(0, Inline, 0), Ended(0, Inline, TempFail, 0), Held(0, 1)], Idle)
  {
    hide Exec;
    ExecStart(c);
    ExecStep(c, 0, [], Arrive(msg));
    var a := [] + [Arrive(msg)];
    assert 0 in Exec(c, 0, a).value.inline && Exec(c, 0, a).value.inline == {0};
    ExecStep(c, 0, a, InlineEnd(0, TempFail));
    var b := a + [InlineEnd(0, TempFail)];
    assert Stands(Exec(c, 0, b).value, msg, 0, [], [Started(0, Inline, 0), Ended(0, Inline, TempFail, 0)], Idle);
    ExecStep(c, 0, b, Elapse(1));
    ls := b + [Elapse(1)];
    ExecStep(c, 0, ls, Enqueue(0));
    ls := ls + [Enqueue(0)];
  }

  lemma {:induction false} ExecStart(c: Retry)
    ensures Exec(c, 0, []) == Some(Init(0))
  {
  }

  lemma {:induction false} SweepOne(e: Entry, now: int, expire: int)
    ensures Sweep([e], now, expire) == if Queue.Fresh(e, now, expire) then Swept([e], []) else Swept([], [e])
  {
    assert SweepFrom([e], 1, now, expire) ==
           if Queue.Fresh(e, now, expire) then SweepFrom([e], 0, now, expire)
           else Swept(SweepFrom([], 0, now, expire).kept, [e] + SweepFrom([], 0, now, expire).expired);
  }

  /** One pass over one entry, `d` later. */
  lemma {:induction false} OnePass(c: Retry, msg: Message, ls: seq<Label>, now: int, e: Entry, log: seq<Event>, d: nat)
    returns (more: seq<Label>)
    requires c.enabled && Size(e) == 0 && Exec(c, 0, ls).Some?
    requires Stands(Exec(c, 0, ls).value, msg, now, [e], log, Idle)
    ensures Exec(c, 0, more).Some?
    ensures var stale := !Queue.Fresh(e, now + d, Expire(c));
            Stands(Exec(c, 0, more).value, msg, now + d, if stale then [] else [e],
                   log + (if stale then [Expired(e.ref.id, e.attempts)] else []) + [Passed(now + d)],
                   Between(if !stale && now + d >= e.nextTry then [e.ref] else []))
  {
    hide Exec, Sweep, Queue.Fresh;
    ExecStep(c, 0, ls, Elapse(d));
    var a := ls + [Elapse(d)];
    ExecStep(c, 0, a, Stamp);
    var b := a + [Stamp];
    ExecStep(c, 0, b, Begin);
    more := b + [Begin];
    SweepOne(e, now + d, Expire(c));
    assert ExpiredEvents([e]) == [Expired(e.ref.id, e.attempts)] && ExpiredEvents([]) == [];
    assert [e][..0] == [];
    assert TotalSize([]) == 0 && TotalSize([e]) == 0;
    assert Due([], now + d) == [];
    assert Due([e], now + d) == if now + d >= e.nextTry then [] + [e.ref] else [];
    assert [] + [e.ref] == [e.ref];
  }

  /** A run with regular passes in which a message expires untried: the first pass, an
      interval after the start, comes one tick of the clock too early for it, and the
      next one, an interval later, too late. */
  lemma {:induction false} UntriedRun(c: Retry, msg: Message) returns (ls: seq<Label>)
    requires c.enabled && ValidRetry(c) && c.expireSec < 2 * c.intervalSec && msg.body == ""
    ensures Exec(c, 0, ls).Some? && !InDrain(Exec(c, 0, ls).value)
    ensures Regular(c, Exec(c, 0, ls).value.q.log, 0) && !AllTried(Exec(c, 0, ls).value.q.log)
  {
    hide Exec, Regular, LastPass;
    var i, e := Interval(c), Entry(Ref(0, msg), 1, 1 + Interval(c), 0);
    var log := [Started(0, Inline, 0), Ended(0, Inline, TempFail, 0), Held(0, 1)];
    ls := EntersAtOne(c, msg);
    ls := OnePass(c, msg, ls, 1, e, log, i - 1);
    assert log + [] + [Passed(i)] == log + [Passed(i)];
    ExecStep(c, 0, ls, Finish);
    ls := ls + [Finish];
    ls := OnePass(c, msg, ls, i, e, log + [Passed(i)], i);
    UntriedLog(c, log, i);
    assert Expired(0, 0) in Exec(c, 0, ls).value.q.log;
  }

  lemma {:induction false} UntriedLog(c: Retry, log: seq<Event>, i: int)
    requires i == Interval(c) && forall e :: e in log ==> !e.Passed?
    ensures Regular(c, log + [Passed(i)] + [Expired(0, 0)] + [Passed(2 * i)], 0)
  {
    hide Regular, LastPass, Interval;
    PassOther(c, [], log, 0);
    assert [] + log == log && Regular(c, [], 0) && LastPass([], 0) == 0 by { NoPassesYet(c); }
    PassSnoc(c, log, i, 0);
    PassOther(c, log + [Passed(i)], [Expired(0, 0)], 0);
    PassSnoc(c, log + [Passed(i)] + [Expired(0, 0)], 2 * i, 0);
  }

  lemma {:induction false} NoPassesYet(c: Retry)
    ensures Regular(c, [], 0) && LastPass([], 0) == 0
  {
  }

  /** For a configuration that Validate accepts, whose expiry need only exceed its
      interval: every message is retried before it expires, in every run with regular
      passes, iff the expiry is at least two intervals. */
  lemma {:induction false} RetriedBeforeExpiryIff(c: Retry)
    requires c.enabled && ValidRetry(c)
    ensures c.expireSec >= 2 * c.intervalSec <==>
            forall start: nat, ls: seq<Label> ::
              Exec(c, start, ls).Some? && Regular(c, Exec(c, start, ls).value.q.log, start)
              ==> AllTried(Exec(c, start, ls).value.q.log)
  {
    hide Exec, Regular, AllTried;
    if c.expireSec >= 2 * c.intervalSec {
      forall start: nat, ls: seq<Label> |
        Exec(c, start, ls).Some? && Regular(c, Exec(c, start, ls).value.q.log, start)
        ensures AllTried(Exec(c, start, ls).value.q.log)
      {
        RetriedBeforeExpiry(c, start, ls);
      }
    } else {
      var ls := UntriedRun(c, Message("", "", Route("", Address, Unrouted, 0), ""));
      assert !AllTried(Exec(c, 0, ls).value.q.log);
    }
  }
}
