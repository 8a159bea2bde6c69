/** What the steps of the queue do, read off the runs alone: labels, clock readings and
    the entries held (internal/queue/queue.go). Drain works until its deadline, a message
    is refused only for lack of room, and results and passes move exactly what they say. */
module QueueDrain {
  import opened Config
  import opened Mail
  import opened Options
  import opened Queue
  import opened QueueAttempts
  import opened QueueCounts
  import opened QueueProtocol
  import opened QueueTiming

  // ---- Why Drain arms, and why it stops ----

  /** The deadline set when the worker exited at position `x`: the clock reading then and
      the limit given to Drain. */
  ghost function Deadline(c: Retry, start: nat, ls: seq<Label>, x: nat): int
    requires x < |ls| && ls[x].WorkerExit? && Exec(c, start, ls[..x]).Some?
  {
    Exec(c, start, ls[..x]).value.now + ls[x].limit
  }

  predicate IsCheck(l: Label) {
    l.CheckLen? || l.CheckClock?
  }

  /** `y` is the last check of Drain's loop. */
  ghost predicate LastCheck(ls: seq<Label>, y: nat) {
    y < |ls| && IsCheck(ls[y]) && forall k :: y < k < |ls| ==> !IsCheck(ls[k])
  }

  /** The check at `y` saw no entries. */
  ghost predicate SawNothing(c: Retry, start: nat, ls: seq<Label>, y: nat) {
    y < |ls| && ls[y].CheckLen? && Exec(c, start, ls[..y]).Some? && Exec(c, start, ls[..y]).value.q.entries == []
  }

  /** The check at `y` was made at `t`. */
  ghost predicate ReadClock(c: Retry, start: nat, ls: seq<Label>, y: nat, t: int) {
    y < |ls| && ls[y].CheckClock? && Exec(c, start, ls[..y]).Some? && Exec(c, start, ls[..y]).value.now == t
  }

  /** The phases of Drain against the last check made. */
  ghost predicate Explained(c: Retry, start: nat, ls: seq<Label>, s: State, x: nat, y: nat, t: int) {
    && x < |ls| && ls[x].WorkerExit? && Exec(c, start, ls[..x]).Some?
    && (forall k :: 0 <= k < |ls| && ls[k].WorkerExit? ==> k == x)
    && (s.phase.DrainLen? || s.phase.DrainClock? || s.phase.DrainArm? || s.phase.DrainTick? ==>
          s.phase.deadline == Deadline(c, start, ls, x))
    && (s.phase.DrainArm? ==>
          LastCheck(ls, y) && ReadClock(c, start, ls, y, t) && t < Deadline(c, start, ls, x))
    && (s.phase.DrainFinal? ==>
          LastCheck(ls, y)
          && (SawNothing(c, start, ls, y)
              || (ReadClock(c, start, ls, y, t) && t >= Deadline(c, start, ls, x))))
  }

  lemma {:induction false} Explain(c: Retry, start: nat, ls: seq<Label>) returns (x: nat, y: nat, t: int)
    requires Exec(c, start, ls).Some?
    ensures var s := Exec(c, start, ls).value;
            && (InDrain(s) ==> Explained(c, start, ls, s, x, y, t))
            && (!InDrain(s) ==> forall k :: 0 <= k < |ls| ==> !ls[k].WorkerExit?)
  {
    hide Exec, Do, Can, Explained, InDrain;
    if ls == [] {
      x, y, t := 0, 0, 0;
      Unstarted(c, start);
    } else {
      var n := |ls| - 1;
      assert ls == ls[..n] + [ls[n]];
      ExecLast(c, start, ls[..n], ls[n]);
      x, y, t := Explain(c, start, ls[..n]);
      x, y, t := ExplainStep(c, start, ls[..n], ls[n], x, y, t);
    }
  }

  lemma {:induction false} Unstarted(c: Retry, start: nat)
    requires Exec(c, start, []).Some?
    ensures !InDrain(Exec(c, start, []).value)
  {
  }

  lemma {:induction false} ExplainStep(c: Retry, start: nat, ls: seq<Label>, l: Label, x0: nat, y0: nat, t0: int)
    returns (x: nat, y: nat, t: int)
    requires Exec(c, start, ls).Some? && Can(c, Exec(c, start, ls).value, l)
    requires var s := Exec(c, start, ls).value;
             if InDrain(s) then Explained(c, start, ls, s, x0, y0, t0)
             else forall k :: 0 <= k < |ls| ==> !ls[k].WorkerExit?
    ensures var u := Do(c, Exec(c, start, ls).value, l);
            if InDrain(u) then Explained(c, start, ls + [l], u, x, y, t)
            else forall k :: 0 <= k < |ls + [l]| ==> !(ls + [l])[k].WorkerExit?
  {
    hide Exec, Begun, Recorded, Enqueued, Armed, Abandoned, Due;
    var s, n, w := Exec(c, start, ls).value, |ls|, ls + [l];
    x, y, t := x0, y0, t0;
    assert w[..n] == ls && w[n] == l;
    if InDrain(s) {
      assert w[..x0] == ls[..x0];
      if y0 < n {
        assert w[..y0] == ls[..y0];
      }
    }
    if l.WorkerExit? {
      x := n;
    }
    if IsCheck(l) {
      y, t := n, s.now;
    }
  }

  /** Drain takes its final lock only because the last check of its loop saw no entries, or
      was made at or past the deadline: the clock when the worker had exited, and the
      limit. */
  lemma {:induction false} WhyDrainStops(c: Retry, start: nat, ls: seq<Label>) returns (x: nat, y: nat, t: int)
    requires Exec(c, start, ls + [Final]).Some?
    ensures Exec(c, start, ls).Some?
    ensures x < |ls| && ls[x].WorkerExit? && Exec(c, start, ls[..x]).Some? && LastCheck(ls, y)
    ensures SawNothing(c, start, ls, y)
            || (ReadClock(c, start, ls, y, t) && t >= Deadline(c, start, ls, x))
  {
    hide Exec, Do;
    ExecLast(c, start, ls, Final);
    x, y, t := Explain(c, start, ls);
  }

  /** Drain makes the entries due only after reading the clock before the deadline. */
  lemma {:induction false} WhyDrainArms(c: Retry, start: nat, ls: seq<Label>) returns (x: nat, y: nat, t: int)
    requires Exec(c, start, ls + [ArmAll]).Some?
    ensures Exec(c, start, ls).Some?
    ensures x < |ls| && ls[x].WorkerExit? && Exec(c, start, ls[..x]).Some? && LastCheck(ls, y)
    ensures ReadClock(c, start, ls, y, t) && t < Deadline(c, start, ls, x)
  {
    hide Exec, Do;
    ExecLast(c, start, ls, ArmAll);
    x, y, t := Explain(c, start, ls);
  }

  // ---- Before the deadline everything held is attempted ----

  predicate Holds(es: seq<Entry>, m: Ref) {
    exists i :: 0 <= i < |es| && es[i].ref == m
  }

  /** On the way from a clock check before the deadline to an attempt on the message. */
  ghost predicate OnItsWay(s: State, m: Ref, n: nat) {
    || (s.phase.DrainArm? && Holds(s.q.entries, m))
    || ArmedFor(s, m)
    || (s.phase.DrainTick? && Awaits(s.tick, m))
    || StartedSince(s.q.log, m.id, n)
    || exists k :: Expired(m.id, k) in s.q.log
  }

  lemma {:induction false} StaysOnItsWay(c: Retry, s: State, l: Label, m: Ref, n: nat)
    requires Can(c, s, l) && OnItsWay(s, m, n) && n <= |s.q.log|
    requires s.now >= ZERO_TIME && Reported(s, 0)
    ensures OnItsWay(Do(c, s, l), m, n) && |s.q.log| <= |Do(c, s, l).q.log|
  {
    hide Do, Can, ArmedFor, Awaits, StartedSince, Reported, Holds;
    var more := Appends(c, s, l);
    var u := Do(c, s, l);
    if StartedSince(s.q.log, m.id, n) {
      StillStarted(s.q.log, more, m.id, n);
    } else if k :| Expired(m.id, k) in s.q.log {
      assert Expired(m.id, k) in u.q.log;
    } else if l.Begin? && ArmedFor(s, m) {
      BeginTakes(c, s, m);
      TakenIsAwaited(c, s, m);
    } else if ArmedFor(s, m) {
      StaysArmed(c, s, l, m);
    } else if s.phase.DrainArm? {
      FromArm(c, s, l, m);
    } else {
      assert s.phase.DrainTick? && Awaits(s.tick, m);
      assert !l.Begin? by { AwaitingIsBegun(c, s, l, m); }
      PassGoesOn(c, s, l, m, n);
      if Awaits(u.tick, m) {
        TickGoesOn(c, s, l, m);
      }
    }
  }

  lemma {:induction false} StillStarted(log: seq<Event>, more: seq<Event>, id: nat, n: nat)
    requires StartedSince(log, id, n)
    ensures StartedSince(log + more, id, n)
  {
    var k :| n <= k < |log| && Counts(Repeating, log[k], id);
    assert (log + more)[k] == log[k];
  }

  lemma {:induction false} TakenIsAwaited(c: Retry, s: State, m: Ref)
    requires Can(c, s, Begin) && ArmedFor(s, m)
    ensures var u := Do(c, s, Begin); u.phase.DrainTick? && (m in Pending(u.tick) ==> Awaits(u.tick, m))
  {
  }

  lemma {:induction false} FromArm(c: Retry, s: State, l: Label, m: Ref)
    requires Can(c, s, l) && s.phase.DrainArm? && Holds(s.q.entries, m) && s.now >= ZERO_TIME && Reported(s, 0)
    ensures var u := Do(c, s, l); (u.phase.DrainArm? && Holds(u.q.entries, m)) || ArmedFor(u, m)
  {
    hide ArmedFor, Tally, LateCount;
    var i :| 0 <= i < |s.q.entries| && s.q.entries[i].ref == m;
    if l.ArmAll? {
      ArmingArms(c, s, i);
    } else {
      assert Do(c, s, l).q.entries[i] == s.q.entries[i];
    }
  }

  lemma {:induction false} AwaitingIsBegun(c: Retry, s: State, l: Label, m: Ref)
    requires Can(c, s, l) && Awaits(s.tick, m)
    ensures !l.Begin?
  {
  }

  lemma {:induction false} TickGoesOn(c: Retry, s: State, l: Label, m: Ref)
    requires Can(c, s, l) && s.phase.DrainTick? && Awaits(s.tick, m) && Awaits(Do(c, s, l).tick, m)
    ensures Do(c, s, l).phase.DrainTick?
  {
  }

  lemma {:induction false} RunsOnItsWay(c: Retry, start: nat, pre: seq<Label>, post: seq<Label>, m: Ref)
    requires Sane(c) && Exec(c, start, pre + post).Some?
    ensures Exec(c, start, pre).Some?
    ensures var s, t := Exec(c, start, pre).value, Exec(c, start, pre + post).value;
            && |s.q.log| <= |t.q.log|
            && (OnItsWay(s, m, |s.q.log|) ==> OnItsWay(t, m, |s.q.log|))
  {
    hide Exec, Can, Do, OnItsWay;
    if post == [] {
      assert pre + post == pre;
    } else {
      var n := |post| - 1;
      assert pre + post == (pre + post[..n]) + [post[n]];
      ExecLast(c, start, pre + post[..n], post[n]);
      RunsOnItsWay(c, start, pre, post[..n], m);
      var t := Exec(c, start, pre + post[..n]).value;
      HeldAtShutdownIsReported(c, start, pre + post[..n], 0);
      ClockStarts(c, start, pre + post[..n]);
      StepGrows(c, t, post[n]);
      if OnItsWay(t, m, |Exec(c, start, pre).value.q.log|) {
        StaysOnItsWay(c, t, post[n], m, |Exec(c, start, pre).value.q.log|);
      }
    }
  }

  /** When Drain checks the clock before its deadline, every message held then has been
      attempted or has expired by the time it takes its final lock. */
  lemma {:induction false} HeldBeforeDeadlineIsTried(
    c: Retry, start: nat, pre: seq<Label>, post: seq<Label>, x: nat, i: nat)
    requires Sane(c) && Exec(c, start, pre + [CheckClock] + post + [Final]).Some?
    requires x < |pre| && pre[x].WorkerExit? && Exec(c, start, pre[..x]).Some? && Exec(c, start, pre).Some?
    requires Exec(c, start, pre).value.now < Exec(c, start, pre[..x]).value.now + pre[x].limit
    requires i < |Exec(c, start, pre).value.q.entries|
    ensures var id := Exec(c, start, pre).value.q.entries[i].ref.id;
            var log := Exec(c, start, pre + [CheckClock] + post + [Final]).value.q.log;
            StartedSince(log, id, |Exec(c, start, pre).value.q.log|) || exists n :: Expired(id, n) in log
  {
    hide Exec, Can, Do, OnItsWay, StartedSince;
    var all := pre + [CheckClock] + post;
    ExecLast(c, start, all, Final);
    ExecPrefix(c, start, pre + [CheckClock], post);
    ExecLast(c, start, pre, CheckClock);
    var s, m := Exec(c, start, pre).value, Exec(c, start, pre).value.q.entries[i].ref;
    var checked := Exec(c, start, pre + [CheckClock]).value;
    var x1, _, _ := Explain(c, start, pre);
    assert checked.q == s.q && OnItsWay(checked, m, |s.q.log|) by { ClockIsEarly(c, start, pre, s, x, x1, i); }
    RunsOnItsWay(c, start, pre + [CheckClock], post, m);
    var t := Exec(c, start, all).value;
    AtTheEnd(c, t, m, |s.q.log|);
    var log := Exec(c, start, all + [Final]).value.q.log;
    var more := Appends(c, t, Final);
    if StartedSince(t.q.log, m.id, |s.q.log|) {
      StillStarted(t.q.log, more, m.id, |s.q.log|);
    } else {
      var k :| Expired(m.id, k) in t.q.log;
      assert Expired(m.id, k) in log;
    }
  }

  lemma {:induction false} ClockIsEarly(c: Retry, start: nat, pre: seq<Label>, s: State, x: nat, x1: nat, i: nat)
    requires Exec(c, start, pre) == Some(s) && Can(c, s, CheckClock) && i < |s.q.entries|
    requires x < |pre| && pre[x].WorkerExit? && Exec(c, start, pre[..x]).Some?
    requires s.now < Exec(c, start, pre[..x]).value.now + pre[x].limit
    requires exists y: nat, t: int :: Explained(c, start, pre, s, x1, y, t)
    ensures var u := Do(c, s, CheckClock);
            u.q == s.q && OnItsWay(u, s.q.entries[i].ref, |s.q.log|)
  {
    hide Exec, ArmedFor, Awaits, StartedSince;
    assert x == x1;
    assert Holds(s.q.entries, s.q.entries[i].ref);
  }

  lemma {:induction false} AtTheEnd(c: Retry, t: State, m: Ref, n: nat)
    requires Can(c, t, Final) && OnItsWay(t, m, n)
    ensures StartedSince(t.q.log, m.id, n) || exists k :: Expired(m.id, k) in t.q.log
  {
    hide StartedSince;
  }

  // ---- Room ----

  /** In every run: a message on its way to the queue is held iff one entry more and its
      bytes stay within both limits, and it is then the last entry, untried, accepted now
      and due one interval from now; otherwise it is refused, and nothing held changes. */
  lemma {:induction false} RefusedOnlyWhenFull(c: Retry, start: nat, ls: seq<Label>, id: nat)
    requires Sane(c) && Exec(c, start, ls + [Enqueue(id)]).Some?
    ensures Exec(c, start, ls).Some? && id < |Exec(c, start, ls).value.arrived|
    ensures var s, u := Exec(c, start, ls).value, Exec(c, start, ls + [Enqueue(id)]).value;
            var m := Ref(id, s.arrived[id]);
            if |s.q.entries| + 1 <= c.maxEntries && TotalSize(s.q.entries) + |m.msg.body| <= c.maxBytes
            then u.q.entries == s.q.entries + [Entry(m, s.now, s.now + c.intervalSec * 1_000_000_000, 0)]
                 && u.q.log == s.q.log + [Held(id, s.now)]
            else u.q.entries == s.q.entries && u.q.log == s.q.log + [Refused(id)]
  {
    hide Exec, Conserved, Genuine, DueHeld, TotalSize;
    ExecLast(c, start, ls, Enqueue(id));
    RunKeepsInv(c, start, ls);
  }

  // ---- Results ----

  /** In every run: a recorded OK removes exactly its message's entry and reports it
      delivered, a permanent failure removes it and reports it failed, and any other
      result leaves it, one attempt older and due one interval from now; every other
      entry stays as it is. */
  lemma {:induction false} ResultSettles(c: Retry, start: nat, ls: seq<Label>, e: Entry)
    requires Sane(c) && Exec(c, start, ls + [Record]).Some?
    ensures Exec(c, start, ls).Some? && Exec(c, start, ls).value.tick.Returned?
    ensures var s, u := Exec(c, start, ls).value, Exec(c, start, ls + [Record]).value;
            var id, res := s.tick.m.id, s.tick.res;
            e in s.q.entries ==>
              if e.ref.id != id then e in u.q.entries && u.q.log[..|s.q.log|] == s.q.log
              else if res == OK || res == PermFail then
                !Holds(u.q.entries, e.ref)
                && u.q.log == s.q.log
                   + [if res == OK then Delivered(id, e.attempts + 1) else Failed(id, e.attempts + 1)]
              else
                && e.(attempts := e.attempts + 1, nextTry := s.now + c.intervalSec * 1_000_000_000) in u.q.entries
                && |u.q.entries| == |s.q.entries| && u.q.log == s.q.log
  {
    hide Exec, Do, Inv, Find, SwapRemove;
    ExecLast(c, start, ls, Record);
    RunKeepsInv(c, start, ls);
    var s := Exec(c, start, ls).value;
    assert s.tick.Returned? by { RecordNeedsResult(c, s); }
    if e in s.q.entries {
      SettlesEntry(c, s, e);
    }
  }

  lemma {:induction false} RecordNeedsResult(c: Retry, s: State)
    requires Can(c, s, Record)
    ensures s.tick.Returned?
  {
  }

  lemma {:induction false} SettlesEntry(c: Retry, s: State, e: Entry)
    requires Can(c, s, Record) && Inv(c, s) && e in s.q.entries
    ensures var u := Do(c, s, Record);
            var id, res := s.tick.m.id, s.tick.res;
            if e.ref.id != id then e in u.q.entries && u.q.log[..|s.q.log|] == s.q.log
            else if res == OK || res == PermFail then
              !Holds(u.q.entries, e.ref)
              && u.q.log == s.q.log + [if res == OK then Delivered(id, e.attempts + 1) else Failed(id, e.attempts + 1)]
            else
              && e.(attempts := e.attempts + 1, nextTry := s.now + c.intervalSec * 1_000_000_000) in u.q.entries
              && |u.q.entries| == |s.q.entries| && u.q.log == s.q.log
  {
    hide Do, Inv, Find, SwapRemove, TotalSize;
    var es, m, u := s.q.entries, s.tick.m, Do(c, s, Record);
    assert DueHeld(s) by { InvHolds(c, s); }
    assert m in Pending(s.tick) by { ReturnedIsPending(s); }
    PendingIsHeld(s, m);
    var i: nat := Find(es, m.id);
    RecordedEntries(c, s);
    RecordedLog(c, s);
    var j: nat :| j < |es| && es[j] == e;
    if e.ref.id == m.id {
      OneEntry(c, s, es[i], e);
      if IsFinal(s.tick.res) {
        GoneFor(c, s, i, e);
      }
    } else if IsFinal(s.tick.res) {
      MovedOrNot(es, i, j);
    }
  }

  lemma {:induction false} ReturnedIsPending(s: State)
    requires s.tick.Returned?
    ensures s.tick.m in Pending(s.tick)
  {
  }

  lemma {:induction false} RecordedLog(c: Retry, s: State)
    requires Can(c, s, Record) && Find(s.q.entries, s.tick.m.id) >= 0
    ensures var id, n := s.tick.m.id, s.q.entries[Find(s.q.entries, s.tick.m.id)].attempts + 1;
            Do(c, s, Record).q.log ==
            match s.tick.res
            case OK => s.q.log + [Delivered(id, n)]
            case PermFail => s.q.log + [Failed(id, n)]
            case _ => s.q.log
  {
    hide Find, SwapRemove;
  }

  lemma {:induction false} GoneFor(c: Retry, s: State, i: nat, e: Entry)
    requires Inv(c, s) && i < |s.q.entries| && s.q.entries[i].ref.id == e.ref.id
    ensures !Holds(SwapRemove(s.q.entries, i), e.ref)
  {
    hide Inv;
    var es := s.q.entries;
    forall j | 0 <= j < |es| - 1 ensures SwapRemove(es, i)[j].ref.id != e.ref.id {
      SwapRemoveAt(es, i, j);
      OnePosition(c, s, i, if j == i then |es| - 1 else j);
    }
  }

  lemma {:induction false} MovedOrNot(es: seq<Entry>, i: nat, j: nat)
    requires i < |es| && j < |es| && i != j
    ensures es[j] in SwapRemove(es, i)
  {
    assert SwapRemove(es, i)[if j == |es| - 1 then i else j] == es[j];
  }

  // ---- Passes ----

  /** In every run: a pass that read the clock at `t` removes exactly the entries whose age
      then exceeds the expiry, reports each, and copies exactly those of the others whose
      next try had come. */
  lemma {:induction false} PassTakes(c: Retry, start: nat, ls: seq<Label>, t: int, e: Entry)
    requires Sane(c) && Exec(c, start, ls + [Begin]).Some?
    ensures Exec(c, start, ls).Some?
    ensures var s, u := Exec(c, start, ls).value, Exec(c, start, ls + [Begin]).value;
            s.tick == Stamped(t) && e in s.q.entries ==>
              && (e in u.q.entries <==> t - e.accepted <= c.expireSec * 1_000_000_000)
              && (t - e.accepted > c.expireSec * 1_000_000_000 ==> Expired(e.ref.id, e.attempts) in u.q.log)
              && (e.ref in Pending(u.tick) <==> t - e.accepted <= c.expireSec * 1_000_000_000 && t >= e.nextTry)
  {
    hide Exec, Do, Inv;
    ExecLast(c, start, ls, Begin);
    RunKeepsInv(c, start, ls);
    var s := Exec(c, start, ls).value;
    if s.tick == Stamped(t) && e in s.q.entries {
      TakesEntry(c, s, e);
    }
  }

  lemma {:induction false} TakesEntry(c: Retry, s: State, e: Entry)
    requires Can(c, s, Begin) && Inv(c, s) && e in s.q.entries
    ensures var u, t := Do(c, s, Begin), s.tick.t;
            && (e in u.q.entries <==> t - e.accepted <= c.expireSec * 1_000_000_000)
            && (t - e.accepted > c.expireSec * 1_000_000_000 ==> Expired(e.ref.id, e.attempts) in u.q.log)
            && (e.ref in Pending(u.tick) <==> t - e.accepted <= c.expireSec * 1_000_000_000 && t >= e.nextTry)
  {
    hide Inv, Sweep, Due;
    var t := s.tick.t;
    var r := Sweep(s.q.entries, t, Expire(c));
    SweptOrKept(s.q.entries, t, Expire(c), e);
    if e in r.kept {
      SweptIn(s.q.entries, t, Expire(c), e);
      if t >= e.nextTry {
        DueHas(r.kept, t, e);
      }
    }
    if e in r.expired {
      StaleEntry(s.q.entries, t, Expire(c), e);
      var j: nat :| j < |r.expired| && r.expired[j] == e;
      assert ExpiredEvents(r.expired)[j] == Expired(e.ref.id, e.attempts);
    }
    if e.ref in Due(r.kept, t) {
      RefCounted(Due(r.kept, t), e.ref);
      DueMeans(r.kept, t, e.ref.id);
      var d :| d in r.kept && d.ref.id == e.ref.id && t >= d.nextTry;
      SweptIn(s.q.entries, t, Expire(c), d);
      OneEntry(c, s, d, e);
    }
  }

  /** In every run: the next attempt is on the first message still to be tried, by the worker
      or by Drain, and every other one keeps its turn. */
  lemma {:induction false} AttemptsInOrder(c: Retry, start: nat, ls: seq<Label>)
    requires Exec(c, start, ls + [Attempt]).Some?
    ensures Exec(c, start, ls).Some?
    ensures var s, u := Exec(c, start, ls).value, Exec(c, start, ls + [Attempt]).value;
            && s.tick.Between? && s.tick.due != []
            && u.q.log == s.q.log + [Started(s.tick.due[0].id, if InDrain(s) then Drainer else Worker, s.now)]
            && u.tick == Attempting(s.tick.due[0], s.tick.due[1..])
  {
    hide Exec;
    ExecLast(c, start, ls, Attempt);
  }

  /** A pass uses the clock reading that it took when it started, whatever happens before
      it gets the lock. */
  lemma {:induction false} PassKeepsItsClock(c: Retry, start: nat, pre: seq<Label>, mid: seq<Label>)
    requires Exec(c, start, pre + [Stamp] + mid).Some? && Begin !in mid
    ensures Exec(c, start, pre).Some?
    ensures Exec(c, start, pre + [Stamp] + mid).value.tick == Stamped(Exec(c, start, pre).value.now)
  {
    hide Exec, Can, Do;
    if mid == [] {
      assert pre + [Stamp] + mid == pre + [Stamp];
      ExecLast(c, start, pre, Stamp);
      StampReads(c, Exec(c, start, pre).value);
    } else {
      var n := |mid| - 1;
      assert pre + [Stamp] + mid == (pre + [Stamp] + mid[..n]) + [mid[n]];
      ExecLast(c, start, pre + [Stamp] + mid[..n], mid[n]);
      PassKeepsItsClock(c, start, pre, mid[..n]);
      StampStays(c, Exec(c, start, pre + [Stamp] + mid[..n]).value, mid[n]);
    }
  }

  lemma {:induction false} StampReads(c: Retry, s: State)
    requires Can(c, s, Stamp)
    ensures Do(c, s, Stamp).tick == Stamped(s.now)
  {
  }

  lemma {:induction false} StampStays(c: Retry, s: State, l: Label)
    requires Can(c, s, l) && s.tick.Stamped? && !l.Begin?
    ensures Do(c, s, l).tick == s.tick
  {
    hide Begun, Recorded, Enqueued, Armed, Abandoned;
  }

  // ---- Nobody is stuck ----

  /** A step of the worker or of Drain, as opposed to one of a session or of the clock. */
  predicate IsOurs(l: Label) {
    !l.Elapse? && !l.Arrive? && !l.InlineEnd? && !l.Enqueue?
  }

  /** In every reachable state of an enabled queue, until Drain is done, the worker or Drain
      can take a step, and a message on its way can always enter or be refused. */
  lemma {:induction false} SomeoneCanMove(c: Retry, start: nat, ls: seq<Label>, id: nat) returns (l: Label)
    requires Sane(c) && c.enabled && Exec(c, start, ls).Some? && !Exec(c, start, ls).value.phase.Drained?
    ensures IsOurs(l) && !l.Stop? && Can(c, Exec(c, start, ls).value, l)
    ensures Exec(c, start, ls).value.phase.Serving? ==> Can(c, Exec(c, start, ls).value, Stop)
    ensures forall d: nat :: Can(c, Exec(c, start, ls).value, Elapse(d))
    ensures forall msg: Message :: Can(c, Exec(c, start, ls).value, Arrive(msg))
    ensures id in Exec(c, start, ls).value.waiting ==> Can(c, Exec(c, start, ls).value, Enqueue(id))
    ensures id in Exec(c, start, ls).value.inline ==>
              forall r: Result :: Can(c, Exec(c, start, ls).value, InlineEnd(id, r))
  {
    hide Exec, HeldCount, Tally, LateCount;
    var s := Exec(c, start, ls).value;
    RunKeepsInv(c, start, ls);
    HeldAtShutdownIsReported(c, start, ls, 0);
    assert Places(s, id) == One(id < |s.arrived|);
    l := match s.tick
      case Stamped(_) => Begin
      case Between(due) => if due == [] then Finish else Attempt
      case Attempting(_, _) => Return(OK)
      case Returned(_, _, _) => Record
      case Idle =>
        match s.phase
        case Serving => Stamp
        case Stopping => WorkerExit(0)
        case DrainLen(_) => CheckLen
        case DrainClock(_) => CheckClock
        case DrainArm(_) => ArmAll
        case DrainTick(_) => Stamp
        case DrainFinal => Final
        case Drained => Final;
  }
}
