/** Session goroutines, the worker and Drain around one queue, as a transition system.
    Every lock region of internal/queue/queue.go is one step, and so is every point
    where the lock is free: a dispatcher may take any time and give any result, and
    sessions may arrive and enqueue between any two steps, also during Drain. */
module QueueProtocol {
  import opened Mail
  import opened Config
  import opened Queue
  import opened Options

  /** Where the one running tick stands. Between `Stamped` and the first lock region,
      and around every attempt, the mutex is free. */
  datatype Tick =
    | Idle
    | Stamped(t: int)
    | Between(due: seq<Ref>)
    | Attempting(m: Ref, rest: seq<Ref>)
    | Returned(m: Ref, res: Result, rest: seq<Ref>)

  /** Serving: the worker runs. Stopping: Drain has closed the stop channel and waits.
      Then Drain itself loops: length check, clock check, arming, one tick. */
  datatype Phase =
    | Serving
    | Stopping
    | DrainLen(deadline: int)
    | DrainClock(deadline: int)
    | DrainArm(deadline: int)
    | DrainTick(deadline: int)
    | DrainFinal
    | Drained

  /** `arrived` lists every message ever handed to the queue; a message's id is its
      position there. `inline` holds those in their first attempt, `waiting` those that
      failed it and are about to be enqueued. */
  datatype State = State(
    now: int,
    q: Shared,
    tick: Tick,
    phase: Phase,
    arrived: seq<Message>,
    inline: set<nat>,
    waiting: set<nat>)

  datatype Label =
    | Elapse(d: nat)
    | Arrive(msg: Message)
    | InlineEnd(id: nat, res: Result)
    | Enqueue(id: nat)
    | Stamp
    | Begin
    | Attempt
    | Return(res: Result)
    | Record
    | Finish
    | Stop
    | WorkerExit(limit: nat)
    | CheckLen
    | CheckClock
    | ArmAll
    | Final

  predicate InDrain(s: State) {
    !s.phase.Serving? && !s.phase.Stopping?
  }

  function Who(s: State): Agent {
    if InDrain(s) then Drainer else Worker
  }

  function Note(s: State, e: Event): Shared {
    s.q.(log := s.q.log + [e])
  }

  predicate Can(c: Retry, s: State, l: Label) {
    match l
    case Elapse(_) => true
    case Arrive(_) => true
    case InlineEnd(id, _) => id in s.inline
    case Enqueue(id) => id in s.waiting && id < |s.arrived|
    case Stamp => c.enabled && s.tick.Idle? && (s.phase.Serving? || s.phase.Stopping? || s.phase.DrainTick?)
    case Begin => s.tick.Stamped?
    case Attempt => s.tick.Between? && s.tick.due != []
    case Return(_) => s.tick.Attempting?
    case Record => s.tick.Returned?
    case Finish => s.tick == Between([])
    case Stop => c.enabled && s.phase.Serving?
    case WorkerExit(_) => s.phase.Stopping? && s.tick.Idle?
    case CheckLen => s.phase.DrainLen?
    case CheckClock => s.phase.DrainClock?
    case ArmAll => s.phase.DrainArm?
    case Final => s.phase.DrainFinal?
  }

  function Do(c: Retry, s: State, l: Label): State
    requires Can(c, s, l)
  {
    match l
    case Elapse(d) => s.(now := s.now + d)
    case Arrive(msg) =>
      var id := |s.arrived|;
      s.(arrived := s.arrived + [msg], inline := s.inline + {id}, q := Note(s, Started(id, Inline, s.now)))
    case InlineEnd(id, res) =>
      var t := s.(inline := s.inline - {id}, q := Note(s, Ended(id, Inline, res, s.now)));
      if res != TempFail then t
      else if c.enabled then t.(waiting := s.waiting + {id})
      else t.(q := Note(t, Refused(id)))
    case Enqueue(id) =>
      s.(waiting := s.waiting - {id}, q := Enqueued(c, s.q, Ref(id, s.arrived[id]), s.now))
    case Stamp => s.(tick := Stamped(s.now))
    case Begin =>
      var t := s.tick.t;
      var q := Begun(c, s.q, t);
      s.(tick := Between(Due(q.entries, t)), q := q.(log := q.log + [Passed(t)]))
    case Attempt =>
      var m := s.tick.due[0];
      s.(tick := Attempting(m, s.tick.due[1..]), q := Note(s, Started(m.id, Who(s), s.now)))
    case Return(res) =>
      s.(tick := Returned(s.tick.m, res, s.tick.rest), q := Note(s, Ended(s.tick.m.id, Who(s), res, s.now)))
    case Record =>
      s.(tick := Between(s.tick.rest), q := Recorded(c, s.q, s.tick.m.id, s.tick.res, s.now))
    case Finish =>
      s.(tick := Idle, phase := if s.phase.DrainTick? then DrainLen(s.phase.deadline) else s.phase)
    case Stop => s.(phase := Stopping)
    case WorkerExit(limit) => s.(phase := DrainLen(s.now + limit))
    case CheckLen => s.(phase := if s.q.entries == [] then DrainFinal else DrainClock(s.phase.deadline))
    case CheckClock => s.(phase := if s.now < s.phase.deadline then DrainArm(s.phase.deadline) else DrainFinal)
    case ArmAll => s.(phase := DrainTick(s.phase.deadline), q := Armed(s.q))
    case Final =>
      var q := Abandoned(s.q);
      s.(phase := Drained, q := q.(log := q.log + [Shut]))
  }

  /** The queue when the process starts it, at clock reading `start`. */
  function Init(start: nat): State {
    State(start, Shared([], 0, []), Idle, Serving, [], {}, {})
  }

  /** The state after a sequence of steps; None when some step was not possible. */
  function Exec(c: Retry, start: nat, ls: seq<Label>): Option<State> {
    if ls == [] then Some(Init(start))
    else match Exec(c, start, ls[..|ls| - 1])
      case None => None
      case Some(s) => if Can(c, s, ls[|ls| - 1]) then Some(Do(c, s, ls[|ls| - 1])) else None
  }

  // ---- Accounting ----

  /** What a count over the history looks for. */
  datatype Kind = Closing | Entering | Retiring | Losing | Starting | Ending | Settling | Retrying | Repeating

  predicate Counts(k: Kind, e: Event, id: nat) {
    match k
    case Closing =>
      // After such an event the queue no longer has the message.
      (match e
       case Ended(x, who, res, _) => x == id && who == Inline && res != TempFail
       case Refused(x) => x == id
       case Delivered(x, _) => x == id
       case Failed(x, _) => x == id
       case Expired(x, _) => x == id
       case _ => false)
    case Retiring => (e.Delivered? || e.Failed? || e.Expired?) && e.id == id
    case Entering => e.Held? && e.id == id
    case Losing => e.Lost? && e.id == id
    case Starting => e.Started? && e.id == id
    case Ending => e.Ended? && e.id == id
    case Settling => e.Ended? && e.id == id && IsFinal(e.res)
    case Retrying => e.Started? && e.id == id && e.who.Worker?
    case Repeating => e.Started? && e.id == id && !e.who.Inline?
  }

  /** A result after which the message is not attempted again. */
  predicate IsFinal(res: Result) {
    res.OK? || res.PermFail?
  }

  function One(b: bool): nat { if b then 1 else 0 }

  function Tally(log: seq<Event>, k: Kind, id: nat): nat {
    if log == [] then 0 else Tally(log[..|log| - 1], k, id) + One(Counts(k, log[|log| - 1], id))
  }

  /** How many entries hold the message. */
  function HeldCount(es: seq<Entry>, id: nat): nat {
    if es == [] then 0 else HeldCount(es[..|es| - 1], id) + One(es[|es| - 1].ref.id == id)
  }

  function RefCount(ms: seq<Ref>, id: nat): nat {
    if ms == [] then 0 else One(ms[0].id == id) + RefCount(ms[1..], id)
  }

  /** The messages copied for the running pass whose result is not yet recorded. */
  function Pending(t: Tick): seq<Ref> {
    match t
    case Between(due) => due
    case Attempting(m, rest) => [m] + rest
    case Returned(m, _, rest) => [m] + rest
    case _ => []
  }

  /** In how many places a message is: its first attempt, the way to the queue, the
      entries that hold it, the events that closed it. */
  function Places(s: State, id: nat): nat {
    One(id in s.inline) + One(id in s.waiting) + HeldCount(s.q.entries, id) + Tally(s.q.log, Closing, id)
  }

  /** Each message that ever arrived is in exactly one place, exactly once. */
  ghost predicate Conserved(s: State) {
    forall id: nat :: Places(s, id) == One(id < |s.arrived|)
  }

  /** Everything copied for this pass and not yet recorded is still held. */
  ghost predicate DueHeld(s: State) {
    forall id: nat :: RefCount(Pending(s.tick), id) <= HeldCount(s.q.entries, id)
  }

  ghost predicate IsRef(s: State, m: Ref) {
    m.id < |s.arrived| && m.msg == s.arrived[m.id]
  }

  /** Every pointer held or copied points to the message it was made for. */
  ghost predicate Genuine(s: State) {
    && (forall i :: 0 <= i < |s.q.entries| ==> IsRef(s, s.q.entries[i].ref))
    && (forall m :: m in Pending(s.tick) ==> IsRef(s, m))
  }

  ghost predicate Inv(c: Retry, s: State) {
    Bounded(c, s.q) && Conserved(s) && Genuine(s) && DueHeld(s)
  }

  // ---- Facts about the counts ----

  lemma {:induction false} TallySnoc(log: seq<Event>, e: Event, k: Kind, id: nat)
    ensures Tally(log + [e], k, id) == Tally(log, k, id) + One(Counts(k, e, id))
  {
    assert (log + [e])[..|log|] == log;
  }

  lemma {:induction false} TallyConcat(a: seq<Event>, b: seq<Event>, k: Kind, id: nat)
    ensures Tally(a + b, k, id) == Tally(a, k, id) + Tally(b, k, id)
  {
    if b == [] {
      assert a + b == a;
    } else {
      var n := |b| - 1;
      assert a + b == (a + b[..n]) + [b[n]];
      TallySnoc(a + b[..n], b[n], k, id);
      TallyConcat(a, b[..n], k, id);
    }
  }

  lemma {:induction false} TallyFates(es: seq<Entry>, k: Kind, id: nat)
    ensures Tally(ExpiredEvents(es), k, id) == if k.Closing? || k.Retiring? then HeldCount(es, id) else 0
    ensures Tally(LostEvents(es), k, id) == if k.Losing? then HeldCount(es, id) else 0
  {
    if es != [] {
      var n := |es| - 1;
      assert ExpiredEvents(es)[..n] == ExpiredEvents(es[..n]);
      assert LostEvents(es)[..n] == LostEvents(es[..n]);
      TallyFates(es[..n], k, id);
    }
  }

  lemma {:induction false} HeldCountUpdate(es: seq<Entry>, i: nat, e: Entry, id: nat)
    requires i < |es|
    ensures HeldCount(es[i := e], id) == HeldCount(es, id) - One(es[i].ref.id == id) + One(e.ref.id == id)
  {
    var n := |es| - 1;
    if i < n {
      assert es[i := e][..n] == es[..n][i := e];
      HeldCountUpdate(es[..n], i, e, id);
    } else {
      assert es[i := e][..n] == es[..n];
    }
  }

  lemma {:induction false} HeldCountSwapRemove(es: seq<Entry>, i: nat, id: nat)
    requires i < |es|
    ensures HeldCount(SwapRemove(es, i), id) == HeldCount(es, id) - One(es[i].ref.id == id)
  {
    var n := |es| - 1;
    HeldCountUpdate(es, i, es[n], id);
    assert es[i := es[n]][n] == es[n];
  }

  lemma {:induction false} HeldCountCons(e: Entry, es: seq<Entry>, id: nat)
    ensures HeldCount([e] + es, id) == One(e.ref.id == id) + HeldCount(es, id)
  {
    var n := |es|;
    if n == 0 {
      assert ([e] + es)[..0] == [];
    } else {
      assert ([e] + es)[..n] == [e] + es[..n - 1];
      HeldCountCons(e, es[..n - 1], id);
    }
  }

  lemma {:induction false} HeldCountSweep(es: seq<Entry>, k: nat, now: int, expire: int, id: nat)
    requires k <= |es|
    ensures var r := SweepFrom(es, k, now, expire);
            HeldCount(es, id) == HeldCount(r.kept, id) + HeldCount(r.expired, id)
    decreases k
  {
    hide SwapRemove, HeldCount;
    if k == 0 {
      assert HeldCount([], id) == 0 by { NothingHeld(id); }
    } else if Queue.Fresh(es[k - 1], now, expire) {
      HeldCountSweep(es, k - 1, now, expire, id);
    } else {
      var t := SwapRemove(es, k - 1);
      HeldCountSweep(t, k - 1, now, expire, id);
      HeldCountSwapRemove(es, k - 1, id);
      HeldCountCons(es[k - 1], SweepFrom(t, k - 1, now, expire).expired, id);
    }
  }

  lemma {:induction false} NothingHeld(id: nat)
    ensures HeldCount([], id) == 0
  {
  }

  /** An identity is held iff some entry has it. */
  lemma {:induction false} HeldMeans(es: seq<Entry>, id: nat)
    ensures HeldCount(es, id) > 0 <==> exists i :: 0 <= i < |es| && es[i].ref.id == id
  {
    if es != [] {
      var n := |es| - 1;
      HeldMeans(es[..n], id);
      if HeldCount(es[..n], id) > 0 {
        var i :| 0 <= i < |es[..n]| && es[..n][i].ref.id == id;
        assert es[i].ref.id == id;
      }
    }
  }

  /** An identity held once is held at one position. */
  lemma {:induction false} HeldOnce(es: seq<Entry>, i: nat, j: nat, id: nat)
    requires i < j < |es| && es[i].ref.id == id && es[j].ref.id == id
    ensures HeldCount(es, id) >= 2
  {
    var n := |es| - 1;
    if j < n {
      HeldOnce(es[..n], i, j, id);
    } else {
      HeldMeans(es[..n], id);
      assert es[..n][i].ref.id == id;
    }
  }

  lemma {:induction false} RefCountSnoc(ms: seq<Ref>, m: Ref, id: nat)
    ensures RefCount(ms + [m], id) == RefCount(ms, id) + One(m.id == id)
  {
    if ms == [] {
      assert ms + [m] == [m];
    } else {
      assert (ms + [m])[1..] == ms[1..] + [m];
      RefCountSnoc(ms[1..], m, id);
    }
  }

  lemma {:induction false} DueCount(es: seq<Entry>, t: int, id: nat)
    ensures RefCount(Due(es, t), id) <= HeldCount(es, id)
  {
    if es != [] {
      var n := |es| - 1;
      DueCount(es[..n], t, id);
      RefCountSnoc(Due(es[..n], t), es[n].ref, id);
    }
  }

  lemma {:induction false} ArmCount(q: Shared, n: nat, id: nat)
    requires n <= |q.entries|
    ensures HeldCount(Armed(q).entries[..n], id) == HeldCount(q.entries[..n], id)
  {
    if n > 0 {
      assert Armed(q).entries[..n][..n - 1] == Armed(q).entries[..n - 1];
      assert q.entries[..n][..n - 1] == q.entries[..n - 1];
      ArmCount(q, n - 1, id);
    }
  }

  // ---- Every step keeps the accounts ----

  /** A final result takes the message out of the entries and closes it; any other
      result moves nothing. */
  lemma {:induction false} RecordCount(c: Retry, q: Shared, x: nat, res: Result, now: int, k: Kind, id: nat)
    requires Find(q.entries, x) >= 0
    ensures var r, out := Recorded(c, q, x, res, now), One(IsFinal(res) && x == id);
            && HeldCount(r.entries, id) == HeldCount(q.entries, id) - out
            && Tally(r.log, k, id) == Tally(q.log, k, id) + if k.Closing? || k.Retiring? then out else 0
  {
    hide SwapRemove, HeldCount, Tally;
    var i := Find(q.entries, x);
    var e := q.entries[i];
    HeldCountSwapRemove(q.entries, i, id);
    HeldCountUpdate(q.entries, i, e.(attempts := e.attempts + 1, nextTry := now + Interval(c)), id);
    TallySnoc(q.log, Delivered(x, e.attempts + 1), k, id);
    TallySnoc(q.log, Failed(x, e.attempts + 1), k, id);
  }

  lemma {:induction false} BeginCount(c: Retry, q: Shared, t: int, k: Kind, id: nat)
    ensures var r := Begun(c, q, t);
            && HeldCount(r.entries, id) <= HeldCount(q.entries, id)
            && Tally(r.log, k, id) == Tally(q.log, k, id)
               + if k.Closing? || k.Retiring? then HeldCount(q.entries, id) - HeldCount(r.entries, id) else 0
  {
    hide SweepFrom, HeldCount, Tally;
    var gone := Sweep(q.entries, t, Expire(c)).expired;
    HeldCountSweep(q.entries, |q.entries|, t, Expire(c), id);
    TallyConcat(q.log, ExpiredEvents(gone), k, id);
    TallyFates(gone, k, id);
  }

  lemma {:induction false} PendingIsHeld(s: State, m: Ref)
    requires DueHeld(s) && m in Pending(s.tick)
    ensures Find(s.q.entries, m.id) >= 0
  {
    RefCounted(Pending(s.tick), m);
    HeldMeans(s.q.entries, m.id);
  }

  lemma {:induction false} RefCounted(ms: seq<Ref>, m: Ref)
    requires m in ms
    ensures RefCount(ms, m.id) > 0
  {
    if ms[0] != m {
      RefCounted(ms[1..], m);
    }
  }

  lemma {:induction false} ArrivePlaces(c: Retry, s: State, l: Label, id: nat)
    requires Can(c, s, l) && Conserved(s) && (l.Arrive? || l.InlineEnd?)
    ensures Places(Do(c, s, l), id) == One(id < |Do(c, s, l).arrived|)
  {
    hide HeldCount, Tally;
    var log := s.q.log;
    assert Places(s, id) == One(id < |s.arrived|);
    match l {
      case Arrive(msg) =>
        TallySnoc(log, Started(|s.arrived|, Inline, s.now), Closing, id);
        assert Places(s, |s.arrived|) == 0;
      case InlineEnd(x, res) =>
        TallySnoc(log, Ended(x, Inline, res, s.now), Closing, id);
        TallySnoc(log + [Ended(x, Inline, res, s.now)], Refused(x), Closing, id);
        assert Places(s, x) <= 1;
    }
  }

  lemma {:induction false} EnqueuePlaces(c: Retry, s: State, x: nat, id: nat)
    requires Can(c, s, Enqueue(x)) && Conserved(s)
    ensures Places(Do(c, s, Enqueue(x)), id) == One(id < |s.arrived|)
  {
    hide HeldCount, Tally;
    assert Places(s, id) == One(id < |s.arrived|) && Places(s, x) <= 1;
    TallySnoc(s.q.log, Held(x, s.now), Closing, id);
    TallySnoc(s.q.log, Refused(x), Closing, id);
    HeldCountSnoc(s.q.entries, Entry(Ref(x, s.arrived[x]), s.now, s.now + Interval(c), 0), id);
  }

  lemma {:induction false} PassPlaces(c: Retry, s: State, l: Label, id: nat)
    requires Can(c, s, l) && Conserved(s) && DueHeld(s) && (l.Begin? || l.Attempt? || l.Return? || l.Record?)
    ensures Places(Do(c, s, l), id) == One(id < |s.arrived|)
  {
    hide HeldCount, Tally, Find, Begun, Recorded;
    var log := s.q.log;
    assert Places(s, id) == One(id < |s.arrived|);
    match l {
      case Begin =>
        BeginCount(c, s.q, s.tick.t, Closing, id);
        TallySnoc(Begun(c, s.q, s.tick.t).log, Passed(s.tick.t), Closing, id);
      case Attempt => TallySnoc(log, Started(s.tick.due[0].id, Who(s), s.now), Closing, id);
      case Return(res) => TallySnoc(log, Ended(s.tick.m.id, Who(s), res, s.now), Closing, id);
      case Record =>
        PendingIsHeld(s, s.tick.m);
        RecordCount(c, s.q, s.tick.m.id, s.tick.res, s.now, Closing, id);
    }
  }

  lemma {:induction false} KeepsPlaces(c: Retry, s: State, l: Label, id: nat)
    requires Can(c, s, l) && Conserved(s) && DueHeld(s)
    ensures Places(Do(c, s, l), id) == One(id < |Do(c, s, l).arrived|)
  {
    hide HeldCount, Tally, Begun, Recorded, Enqueued, Armed, Abandoned;
    assert Places(s, id) == One(id < |s.arrived|);
    if l.Arrive? || l.InlineEnd? {
      ArrivePlaces(c, s, l, id);
    } else if l.Enqueue? {
      EnqueuePlaces(c, s, l.id, id);
    } else if l.Begin? || l.Attempt? || l.Return? || l.Record? {
      PassPlaces(c, s, l, id);
    } else if l.ArmAll? {
      ArmAllCount(s.q, id);
    } else if l.Final? {
      FinalCount(s.q, Closing, id);
      assert Abandoned(s.q).entries == s.q.entries by { AbandonedEntries(s.q); }
    }
  }

  lemma {:induction false} AbandonedEntries(q: Shared)
    ensures Abandoned(q).entries == q.entries
  {
  }

  lemma {:induction false} HeldCountSnoc(es: seq<Entry>, e: Entry, id: nat)
    ensures HeldCount(es + [e], id) == HeldCount(es, id) + One(e.ref.id == id)
  {
    assert (es + [e])[..|es|] == es;
  }

  lemma {:induction false} ArmAllCount(q: Shared, id: nat)
    ensures HeldCount(Armed(q).entries, id) == HeldCount(q.entries, id) && Armed(q).log == q.log
  {
    ArmCount(q, |q.entries|, id);
    assert q.entries[..|q.entries|] == q.entries;
    assert Armed(q).entries[..|q.entries|] == Armed(q).entries;
  }

  lemma {:induction false} FinalCount(q: Shared, k: Kind, id: nat)
    ensures Tally(Abandoned(q).log + [Shut], k, id) ==
            Tally(q.log, k, id) + if k.Losing? then HeldCount(q.entries, id) else 0
  {
    hide HeldCount, Tally;
    TallyFates(q.entries, k, id);
    TallyConcat(q.log, LostEvents(q.entries), k, id);
    TallySnoc(Abandoned(q).log, Shut, k, id);
  }

  lemma {:induction false} KeepsDueHeld(c: Retry, s: State, l: Label, id: nat)
    requires Can(c, s, l) && DueHeld(s)
    ensures var t := Do(c, s, l); RefCount(Pending(t.tick), id) <= HeldCount(t.q.entries, id)
  {
    hide HeldCount, Tally, Find, Begun, Recorded, Armed;
    assert RefCount(Pending(s.tick), id) <= HeldCount(s.q.entries, id);
    match l {
      case Enqueue(x) => HeldCountSnoc(s.q.entries, Entry(Ref(x, s.arrived[x]), s.now, s.now + Interval(c), 0), id);
      case Begin => DueCount(Begun(c, s.q, s.tick.t).entries, s.tick.t, id);
      case Attempt => assert [s.tick.due[0]] + s.tick.due[1..] == s.tick.due;
      case Record =>
        PendingIsHeld(s, s.tick.m);
        RecordCount(c, s.q, s.tick.m.id, s.tick.res, s.now, Closing, id);
        assert ([s.tick.m] + s.tick.rest)[1..] == s.tick.rest;
      case ArmAll => ArmAllCount(s.q, id);
      case _ =>
    }
  }

  ghost predicate AllRefs(s: State, es: seq<Entry>) {
    forall i :: 0 <= i < |es| ==> IsRef(s, es[i].ref)
  }

  lemma {:induction false} DueRefs(s: State, es: seq<Entry>, t: int)
    requires AllRefs(s, es)
    ensures forall m :: m in Due(es, t) ==> IsRef(s, m)
  {
    if es != [] {
      DueRefs(s, es[..|es| - 1], t);
    }
  }

  lemma {:induction false} SweepRefs(s: State, es: seq<Entry>, k: nat, now: int, expire: int)
    requires k <= |es| && AllRefs(s, es)
    ensures AllRefs(s, SweepFrom(es, k, now, expire).kept)
    decreases k
  {
    if k > 0 {
      if Queue.Fresh(es[k - 1], now, expire) {
        SweepRefs(s, es, k - 1, now, expire);
      } else {
        SweepRefs(s, SwapRemove(es, k - 1), k - 1, now, expire);
      }
    }
  }

  lemma {:induction false} KeepsGenuine(c: Retry, s: State, l: Label)
    requires Can(c, s, l) && Genuine(s)
    ensures Genuine(Do(c, s, l))
  {
    hide Sweep, Find, Recorded, Begun, Enqueued, Armed, Abandoned, IsRef;
    var t := Do(c, s, l);
    assert AllRefs(s, s.q.entries);
    assert forall m :: IsRef(s, m) ==> IsRef(t, m) by { RefsStay(c, s, l); }
    match l {
      case Begin => BeginRefs(c, s);
      case Record => RecordRefs(c, s, s.tick.m.id, s.tick.res);
      case Enqueue(x) => EnqueueRefs(c, s, x);
      case ArmAll => assert AllRefs(s, Armed(s.q).entries) by { ArmRefs(s); }
      case Final => AbandonedEntries(s.q);
      case _ =>
    }
  }

  lemma {:induction false} RefsStay(c: Retry, s: State, l: Label)
    requires Can(c, s, l)
    ensures forall m :: IsRef(s, m) ==> IsRef(Do(c, s, l), m)
  {
    hide Begun, Recorded, Enqueued, Armed, Abandoned, Due;
  }

  lemma {:induction false} EnqueueRefs(c: Retry, s: State, x: nat)
    requires Can(c, s, Enqueue(x)) && AllRefs(s, s.q.entries)
    ensures AllRefs(s, Do(c, s, Enqueue(x)).q.entries)
  {
  }

  lemma {:induction false} ArmRefs(s: State)
    requires AllRefs(s, s.q.entries)
    ensures AllRefs(s, Armed(s.q).entries)
  {
  }

  lemma {:induction false} BeginRefs(c: Retry, s: State)
    requires s.tick.Stamped? && AllRefs(s, s.q.entries)
    ensures var es := Begun(c, s.q, s.tick.t).entries;
            AllRefs(s, es) && forall m :: m in Due(es, s.tick.t) ==> IsRef(s, m)
  {
    hide SweepFrom, Due;
    SweepRefs(s, s.q.entries, |s.q.entries|, s.tick.t, Expire(c));
    DueRefs(s, Begun(c, s.q, s.tick.t).entries, s.tick.t);
  }

  lemma {:induction false} RecordRefs(c: Retry, s: State, id: nat, res: Result)
    requires AllRefs(s, s.q.entries)
    ensures AllRefs(s, Recorded(c, s.q, id, res, s.now).entries)
  {
    hide Find;
  }

  lemma {:induction false} KeepsBounded(c: Retry, s: State, l: Label)
    requires Can(c, s, l) && Bounded(c, s.q)
    ensures Bounded(c, Do(c, s, l).q)
  {
    hide TotalSize, Find, Sweep;
    match l {
      case Enqueue(x) => TotalSizeSnoc(s.q.entries, Entry(Ref(x, s.arrived[x]), s.now, s.now + Interval(c), 0));
      case Begin => BegunIsBounded(c, s.q, s.tick.t);
      case Record =>
        var i := Find(s.q.entries, s.tick.m.id);
        if i >= 0 {
          var e := s.q.entries[i];
          TotalSizeSwapRemove(s.q.entries, i);
          TotalSizeUpdate(s.q.entries, i, e.(attempts := e.attempts + 1, nextTry := s.now + Interval(c)));
        }
      case ArmAll => ArmSize(s.q, |s.q.entries|);
      case _ =>
    }
  }

  lemma {:induction false} ArmSize(q: Shared, n: nat)
    requires n <= |q.entries|
    ensures TotalSize(Armed(q).entries[..n]) == TotalSize(q.entries[..n])
    ensures n == |q.entries| ==> TotalSize(Armed(q).entries) == TotalSize(q.entries)
  {
    if n > 0 {
      assert Armed(q).entries[..n][..n - 1] == Armed(q).entries[..n - 1];
      assert q.entries[..n][..n - 1] == q.entries[..n - 1];
      ArmSize(q, n - 1);
    }
    if n == |q.entries| {
      assert q.entries[..n] == q.entries && Armed(q).entries[..n] == Armed(q).entries;
    }
  }

  /** Limits that an empty queue meets; Validate demands more than this. */
  predicate Sane(c: Retry) {
    c.maxEntries >= 0 && c.maxBytes >= 0
  }

  lemma {:induction false} StepKeepsInv(c: Retry, s: State, l: Label)
    requires Can(c, s, l) && Inv(c, s)
    ensures Inv(c, Do(c, s, l))
  {
    hide Do, Can, Places, Pending;
    KeepsBounded(c, s, l);
    KeepsGenuine(c, s, l);
    forall id: nat ensures Places(Do(c, s, l), id) == One(id < |Do(c, s, l).arrived|) {
      KeepsPlaces(c, s, l, id);
    }
    forall id: nat
      ensures RefCount(Pending(Do(c, s, l).tick), id) <= HeldCount(Do(c, s, l).q.entries, id)
    {
      KeepsDueHeld(c, s, l, id);
    }
  }

  /** In every interleaving every message is in exactly one place, the byte counter is
      exact, both limits hold, and what a pass has copied is still held. */
  lemma {:induction false} RunKeepsInv(c: Retry, start: nat, ls: seq<Label>)
    requires Sane(c) && Exec(c, start, ls).Some?
    ensures Inv(c, Exec(c, start, ls).value)
  {
    hide Do, Can;
    if ls != [] {
      RunKeepsInv(c, start, ls[..|ls| - 1]);
      StepKeepsInv(c, Exec(c, start, ls[..|ls| - 1]).value, ls[|ls| - 1]);
    }
  }

  /** Whenever an attempt has returned, its message still has exactly one entry, for that
      very message, however many appends and swap-removals came in between: the result
      lands on it, and tick's branch for a missing entry is never taken. */
  lemma {:induction false} ResultFindsItsEntry(c: Retry, start: nat, ls: seq<Label>, m: Ref)
    requires Sane(c) && Exec(c, start, ls).Some? && m in Pending(Exec(c, start, ls).value.tick)
    ensures var es := Exec(c, start, ls).value.q.entries;
            Find(es, m.id) >= 0 && es[Find(es, m.id)].ref == m && HeldCount(es, m.id) == 1
  {
    hide Exec, Find;
    RunKeepsInv(c, start, ls);
    var s := Exec(c, start, ls).value;
    PendingIsHeld(s, m);
    HeldMeans(s.q.entries, m.id);
    assert Places(s, m.id) == One(m.id < |s.arrived|);
  }

  // ---- Entering and leaving the queue ----

  /** What was queued is held or was retired by an event of its own. */
  ghost predicate Accounted(s: State, id: nat) {
    Tally(s.q.log, Entering, id) == HeldCount(s.q.entries, id) + Tally(s.q.log, Retiring, id)
  }

  lemma {:induction false} Quiet(s: State, e: Event, k: Kind, id: nat)
    requires !Counts(k, e, id)
    ensures Tally(Note(s, e).log, k, id) == Tally(s.q.log, k, id)
  {
    TallySnoc(s.q.log, e, k, id);
  }

  lemma {:induction false} KeepsAccounted(c: Retry, s: State, l: Label, id: nat)
    requires Can(c, s, l) && DueHeld(s) && Accounted(s, id)
    ensures Accounted(Do(c, s, l), id)
  {
    hide HeldCount, Tally, Find, Begun, Recorded, Armed, LostEvents;
    forall k: Kind | k.Entering? || k.Retiring?
      ensures Tally(Do(c, s, l).q.log, k, id) - Tally(s.q.log, k, id) == Flow(c, s, l, k, id)
    {
      LogFlow(c, s, l, k, id);
    }
    match l {
      case Enqueue(x) => HeldCountSnoc(s.q.entries, Entry(Ref(x, s.arrived[x]), s.now, s.now + Interval(c), 0), id);
      case Record =>
        PendingIsHeld(s, s.tick.m);
        RecordCount(c, s.q, s.tick.m.id, s.tick.res, s.now, Retiring, id);
      case Begin => BeginCount(c, s.q, s.tick.t, Retiring, id);
      case ArmAll => ArmAllCount(s.q, id);
      case _ =>
    }
  }

  /** How much a step adds to a count of entering, retiring or losing events. */
  ghost function Flow(c: Retry, s: State, l: Label, k: Kind, id: nat): int
    requires Can(c, s, l)
  {
    match k
    case Entering => One(l.Enqueue? && l.id == id && Fits(c, s.q, Ref(id, s.arrived[id])))
    case Retiring =>
      if l.Begin? || l.Record? then HeldCount(s.q.entries, id) - HeldCount(Do(c, s, l).q.entries, id) else 0
    case Losing => if l.Final? then HeldCount(s.q.entries, id) else 0
    case _ => 0
  }

  lemma {:induction false} SessionFlow(c: Retry, s: State, l: Label, k: Kind, id: nat)
    requires Can(c, s, l) && (k.Entering? || k.Retiring? || k.Losing?) && (l.Arrive? || l.InlineEnd? || l.Enqueue?)
    ensures Tally(Do(c, s, l).q.log, k, id) - Tally(s.q.log, k, id) == Flow(c, s, l, k, id)
  {
    hide HeldCount, Tally;
    match l {
      case Arrive(msg) => Quiet(s, Started(|s.arrived|, Inline, s.now), k, id);
      case InlineEnd(x, res) =>
        var e := Ended(x, Inline, res, s.now);
        Quiet(s, e, k, id);
        TallySnoc(s.q.log + [e], Refused(x), k, id);
      case Enqueue(x) =>
        TallySnoc(s.q.log, Held(x, s.now), k, id);
        TallySnoc(s.q.log, Refused(x), k, id);
    }
  }

  lemma {:induction false} PassFlow(c: Retry, s: State, l: Label, k: Kind, id: nat)
    requires Can(c, s, l) && DueHeld(s) && (k.Entering? || k.Retiring? || k.Losing?)
    requires l.Begin? || l.Attempt? || l.Return? || l.Record?
    ensures Tally(Do(c, s, l).q.log, k, id) - Tally(s.q.log, k, id) == Flow(c, s, l, k, id)
  {
    hide HeldCount, Tally, Find, Begun, Recorded;
    match l {
      case Begin =>
        BeginCount(c, s.q, s.tick.t, k, id);
        TallySnoc(Begun(c, s.q, s.tick.t).log, Passed(s.tick.t), k, id);
      case Attempt => Quiet(s, Started(s.tick.due[0].id, Who(s), s.now), k, id);
      case Return(res) => Quiet(s, Ended(s.tick.m.id, Who(s), res, s.now), k, id);
      case Record =>
        PendingIsHeld(s, s.tick.m);
        RecordCount(c, s.q, s.tick.m.id, s.tick.res, s.now, k, id);
    }
  }

  lemma {:induction false} LogFlow(c: Retry, s: State, l: Label, k: Kind, id: nat)
    requires Can(c, s, l) && DueHeld(s) && (k.Entering? || k.Retiring? || k.Losing?)
    ensures Tally(Do(c, s, l).q.log, k, id) - Tally(s.q.log, k, id) == Flow(c, s, l, k, id)
  {
    hide HeldCount, Tally, Begun, Recorded, Enqueued, Armed, Abandoned;
    if l.Arrive? || l.InlineEnd? || l.Enqueue? {
      SessionFlow(c, s, l, k, id);
    } else if l.Begin? || l.Attempt? || l.Return? || l.Record? {
      PassFlow(c, s, l, k, id);
    } else if l.ArmAll? {
      ArmAllCount(s.q, id);
    } else if l.Final? {
      FinalCount(s.q, k, id);
    }
  }

  lemma {:induction false} RetiringCloses(log: seq<Event>, id: nat)
    ensures Tally(log, Retiring, id) <= Tally(log, Closing, id)
  {
    if log != [] {
      RetiringCloses(log[..|log| - 1], id);
    }
  }

  /** Over every run a message enters the queue at most once; it has entered iff it is held
      exactly once or exactly one event delivered, expired or failed it. Nothing leaves
      without its event, and nothing that left is still held. */
  lemma {:induction false} QueuedIsHeldOrRetired(c: Retry, start: nat, ls: seq<Label>, id: nat)
    requires Sane(c) && Exec(c, start, ls).Some?
    ensures var s := Exec(c, start, ls).value;
            Accounted(s, id) && Tally(s.q.log, Entering, id) <= 1
  {
    hide Do, Can, Tally, HeldCount, Flow;
    var s := Exec(c, start, ls).value;
    if ls == [] {
      assert Accounted(s, id) by { EmptyAccounts(id); }
    } else {
      var before := Exec(c, start, ls[..|ls| - 1]).value;
      QueuedIsHeldOrRetired(c, start, ls[..|ls| - 1], id);
      RunKeepsInv(c, start, ls[..|ls| - 1]);
      KeepsAccounted(c, before, ls[|ls| - 1], id);
    }
    RunKeepsInv(c, start, ls);
    assert Places(s, id) <= 1;
    RetiringCloses(s.q.log, id);
  }

  lemma {:induction false} EmptyAccounts(id: nat)
    ensures HeldCount([], id) == 0 && forall k: Kind :: Tally([], k, id) == 0
  {
  }

  // ---- Drain's report ----

  /** Entries made after Drain's final lock. */
  function LateCount(log: seq<Event>, id: nat): nat {
    if log == [] then 0
    else
      var n := |log| - 1;
      LateCount(log[..n], id) + One(log[n].Held? && log[n].id == id && Shut in log[..n])
  }

  /** Before the final lock nothing is reported lost; after it, what is held is what was
      reported lost and what was enqueued since. */
  ghost predicate Reported(s: State, id: nat) {
    && (Shut in s.q.log <==> s.phase.Drained?)
    && (if s.phase.Drained? then
          HeldCount(s.q.entries, id) == Tally(s.q.log, Losing, id) + LateCount(s.q.log, id)
          && s.tick.Idle?
        else Tally(s.q.log, Losing, id) == 0 && LateCount(s.q.log, id) == 0)
    && (s.phase.DrainLen? || s.phase.DrainClock? || s.phase.DrainArm? || s.phase.DrainFinal? ==> s.tick.Idle?)
  }

  lemma {:induction false} LateQuiet(log: seq<Event>, more: seq<Event>, id: nat)
    requires forall e :: e in more ==> !e.Held?
    ensures LateCount(log + more, id) == LateCount(log, id)
  {
    if more == [] {
      assert log + more == log;
    } else {
      var n := |more| - 1;
      assert (log + more)[..|log| + n] == log + more[..n];
      assert more[n] in more;
      LateQuiet(log, more[..n], id);
    }
  }

  /** The history only grows; a step other than enqueuing adds no Held event, and only
      the final lock adds Shut. */
  lemma {:induction false} Appends(c: Retry, s: State, l: Label) returns (more: seq<Event>)
    requires Can(c, s, l)
    ensures Do(c, s, l).q.log == s.q.log + more
    ensures !l.Enqueue? ==> forall e :: e in more ==> !e.Held?
    ensures l.Final? <==> Shut in more
    ensures l.Enqueue? ==>
              more == [if Fits(c, s.q, Ref(l.id, s.arrived[l.id])) then Held(l.id, s.now) else Refused(l.id)]
  {
    hide Find, Sweep, Recorded;
    match l {
      case Arrive(_) => more := [Started(|s.arrived|, Inline, s.now)];
      case InlineEnd(x, res) =>
        var e := Ended(x, Inline, res, s.now);
        more := if res == TempFail && !c.enabled then [e, Refused(x)] else [e];
        assert s.q.log + [e] + [Refused(x)] == s.q.log + [e, Refused(x)];
      case Enqueue(x) =>
        more := [if Fits(c, s.q, Ref(x, s.arrived[x])) then Held(x, s.now) else Refused(x)];
      case Begin =>
        var gone := ExpiredEvents(Sweep(s.q.entries, s.tick.t, Expire(c)).expired);
        more := gone + [Passed(s.tick.t)];
      case Attempt => more := [Started(s.tick.due[0].id, Who(s), s.now)];
      case Return(res) => more := [Ended(s.tick.m.id, Who(s), res, s.now)];
      case Record => more := RecordAppends(c, s.q, s.tick.m.id, s.tick.res, s.now);
      case Final => more := LostEvents(s.q.entries) + [Shut];
      case _ => more := [];
    }
  }

  lemma {:induction false} RecordAppends(c: Retry, q: Shared, id: nat, res: Result, now: int) returns (more: seq<Event>)
    ensures Recorded(c, q, id, res, now).log == q.log + more
    ensures forall e :: e in more ==> e.Delivered? || e.Failed?
  {
    hide Find;
    var i := Find(q.entries, id);
    if i < 0 || !IsFinal(res) {
      more := [];
    } else {
      var n := q.entries[i].attempts + 1;
      more := [if res.OK? then Delivered(id, n) else Failed(id, n)];
    }
  }

  lemma {:induction false} EnqueueReported(c: Retry, s: State, x: nat, id: nat)
    requires Can(c, s, Enqueue(x)) && Reported(s, id)
    ensures Reported(Do(c, s, Enqueue(x)), id)
  {
    hide HeldCount, Tally, Enqueued;
    var more := Appends(c, s, Enqueue(x));
    var m := Ref(x, s.arrived[x]);
    assert (s.q.log + more)[..|s.q.log|] == s.q.log;
    HeldCountSnoc(s.q.entries, Entry(m, s.now, s.now + Interval(c), 0), id);
    EnqueueEntries(c, s.q, m, s.now);
    TallySnoc(s.q.log, more[0], Losing, id);
  }

  /** Any other step changes what is held and reported only before the final lock. */
  lemma {:induction false} OtherReported(c: Retry, s: State, l: Label, id: nat)
    requires Can(c, s, l) && Reported(s, id) && !l.Enqueue?
    ensures var t := Do(c, s, l);
            && LateCount(t.q.log, id) == LateCount(s.q.log, id)
            && (Shut in t.q.log <==> t.phase.Drained?)
            && (s.phase.Drained? ==> t.q.entries == s.q.entries && t.tick.Idle?)
            && (t.phase.Drained? ==> t.tick.Idle?)
            && (t.phase.DrainLen? || t.phase.DrainClock? || t.phase.DrainArm? || t.phase.DrainFinal? ==> t.tick.Idle?)
  {
    hide HeldCount, Tally, LateCount, Begun, Recorded, Armed, Abandoned;
    var more := Appends(c, s, l);
    LateQuiet(s.q.log, more, id);
    if l.Final? {
      AbandonedEntries(s.q);
    }
  }

  lemma {:induction false} KeepsReported(c: Retry, s: State, l: Label, id: nat)
    requires Can(c, s, l) && DueHeld(s) && Reported(s, id)
    ensures Reported(Do(c, s, l), id)
  {
    hide HeldCount, Tally, LateCount, Begun, Recorded, Armed, Enqueued, Abandoned;
    if l.Enqueue? {
      EnqueueReported(c, s, l.id, id);
    } else {
      OtherReported(c, s, l, id);
      LogFlow(c, s, l, Losing, id);
      AbandonedEntries(s.q);
    }
  }

  lemma {:induction false} EnqueueEntries(c: Retry, q: Shared, m: Ref, now: int)
    ensures Enqueued(c, q, m, now).entries ==
            if Fits(c, q, m) then q.entries + [Entry(m, now, now + Interval(c), 0)] else q.entries
  {
  }

  /** Everything held when Drain takes its final lock is reported lost, exactly once, and
      stays held ever after; nothing else is ever reported lost. */
  lemma {:induction false} HeldAtShutdownIsReported(c: Retry, start: nat, ls: seq<Label>, id: nat)
    requires Sane(c) && Exec(c, start, ls).Some?
    ensures Reported(Exec(c, start, ls).value, id)
  {
    hide Do, Can, Tally, HeldCount;
    if ls == [] {
      EmptyAccounts(id);
    } else {
      HeldAtShutdownIsReported(c, start, ls[..|ls| - 1], id);
      RunKeepsInv(c, start, ls[..|ls| - 1]);
      KeepsReported(c, Exec(c, start, ls[..|ls| - 1]).value, ls[|ls| - 1], id);
    }
  }

  // ---- Drain's passes ----

  /** Drain has made the message due, and its pass has not yet copied what is due. */
  ghost predicate ArmedFor(s: State, m: Ref) {
    && s.phase.DrainTick? && (s.tick.Idle? || s.tick.Stamped?)
    && (s.tick.Stamped? ==> s.tick.t >= ZERO_TIME) && s.now >= ZERO_TIME
    && exists i :: 0 <= i < |s.q.entries| && s.q.entries[i].ref == m && s.q.entries[i].nextTry == ZERO_TIME
  }

  lemma {:induction false} StaysArmed(c: Retry, s: State, l: Label, m: Ref)
    requires Can(c, s, l) && ArmedFor(s, m) && !l.Begin?
    ensures ArmedFor(Do(c, s, l), m)
  {
    var i :| 0 <= i < |s.q.entries| && s.q.entries[i].ref == m && s.q.entries[i].nextTry == ZERO_TIME;
    assert Do(c, s, l).q.entries[i] == s.q.entries[i];
  }

  lemma {:induction false} SweptOrKept(es: seq<Entry>, now: int, expire: int, e: Entry)
    requires e in es
    ensures e in Sweep(es, now, expire).kept || e in Sweep(es, now, expire).expired
  {
    hide Sweep;
    SweepSplits(es, now, expire);
    assert e in multiset(es);
  }

  lemma {:induction false} DueHas(es: seq<Entry>, now: int, e: Entry)
    requires e in es && now >= e.nextTry
    ensures e.ref in Due(es, now)
  {
    if e != es[|es| - 1] {
      DueHas(es[..|es| - 1], now, e);
    }
  }

  lemma {:induction false} BeginTakes(c: Retry, s: State, m: Ref)
    requires Can(c, s, Begin) && ArmedFor(s, m)
    ensures var t := Do(c, s, Begin); m in Pending(t.tick) || exists n :: Expired(m.id, n) in t.q.log
  {
    hide Sweep, Due;
    var i :| 0 <= i < |s.q.entries| && s.q.entries[i].ref == m && s.q.entries[i].nextTry == ZERO_TIME;
    var e, r := s.q.entries[i], Sweep(s.q.entries, s.tick.t, Expire(c));
    SweptOrKept(s.q.entries, s.tick.t, Expire(c), e);
    if e in r.kept {
      DueHas(r.kept, s.tick.t, e);
    } else {
      var j: nat :| j < |r.expired| && r.expired[j] == e;
      assert ExpiredEvents(r.expired)[j] == Expired(m.id, e.attempts);
    }
  }

  lemma {:induction false} ExecLast(c: Retry, start: nat, ls: seq<Label>, l: Label)
    requires Exec(c, start, ls + [l]).Some?
    ensures Exec(c, start, ls).Some? && Can(c, Exec(c, start, ls).value, l)
    ensures Exec(c, start, ls + [l]).value == Do(c, Exec(c, start, ls).value, l)
  {
    hide Can, Do;
    assert (ls + [l])[..|ls|] == ls;
  }

  lemma {:induction false} ClockStarts(c: Retry, start: nat, ls: seq<Label>)
    requires Exec(c, start, ls).Some?
    ensures Exec(c, start, ls).value.now >= start
  {
    if ls != [] {
      ClockStarts(c, start, ls[..|ls| - 1]);
    }
  }

  lemma {:induction false} ArmedThrough(c: Retry, start: nat, pre: seq<Label>, mid: seq<Label>, i: nat)
    requires Sane(c) && Exec(c, start, pre + [ArmAll] + mid).Some? && Begin !in mid
    ensures Exec(c, start, pre).Some?
    ensures i < |Exec(c, start, pre).value.q.entries| ==>
              ArmedFor(Exec(c, start, pre + [ArmAll] + mid).value, Exec(c, start, pre).value.q.entries[i].ref)
  {
    hide Exec, Can, Do, ArmedFor;
    if mid == [] {
      assert pre + [ArmAll] + mid == pre + [ArmAll];
      ExecLast(c, start, pre, ArmAll);
      HeldAtShutdownIsReported(c, start, pre, 0);
      ClockStarts(c, start, pre);
      if i < |Exec(c, start, pre).value.q.entries| {
        ArmingArms(c, Exec(c, start, pre).value, i);
      }
    } else {
      var n := |mid| - 1;
      assert pre + [ArmAll] + mid == (pre + [ArmAll] + mid[..n]) + [mid[n]];
      ExecLast(c, start, pre + [ArmAll] + mid[..n], mid[n]);
      ArmedThrough(c, start, pre, mid[..n], i);
      if i < |Exec(c, start, pre).value.q.entries| {
        var s, m := Exec(c, start, pre + [ArmAll] + mid[..n]).value, Exec(c, start, pre).value.q.entries[i].ref;
        StaysArmed(c, s, mid[n], m);
      }
    }
  }

  lemma {:induction false} ArmingArms(c: Retry, s: State, i: nat)
    requires Can(c, s, ArmAll) && Reported(s, 0) && s.now >= ZERO_TIME && i < |s.q.entries|
    ensures ArmedFor(Do(c, s, ArmAll), s.q.entries[i].ref)
  {
    assert Do(c, s, ArmAll).q.entries[i].nextTry == ZERO_TIME;
  }

  /** Whatever sessions do meanwhile, every message held when Drain arms the entries is
      copied for an attempt by the pass that follows, or has expired. */
  lemma {:induction false} DrainTriesAll(c: Retry, start: nat, pre: seq<Label>, mid: seq<Label>, i: nat)
    requires Sane(c) && Exec(c, start, pre + [ArmAll] + mid + [Begin]).Some? && Begin !in mid
    ensures Exec(c, start, pre).Some?
    ensures i < |Exec(c, start, pre).value.q.entries| ==>
              var m := Exec(c, start, pre).value.q.entries[i].ref;
              var s := Exec(c, start, pre + [ArmAll] + mid + [Begin]).value;
              m in Pending(s.tick) || exists n :: Expired(m.id, n) in s.q.log
  {
    hide Exec, Can, Do, ArmedFor;
    ExecLast(c, start, pre + [ArmAll] + mid, Begin);
    ArmedThrough(c, start, pre, mid, i);
    if i < |Exec(c, start, pre).value.q.entries| {
      BeginTakes(c, Exec(c, start, pre + [ArmAll] + mid).value, Exec(c, start, pre).value.q.entries[i].ref);
    }
  }
}
