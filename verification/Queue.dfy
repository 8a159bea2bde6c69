/** The retry queue's data and its lock regions (internal/queue/queue.go). */
module Queue {
  import opened Mail
  import opened Config

  /** One second in clock units. */
  const SECOND: int := 1_000_000_000

  /** time.Time{}; the clock never shows an earlier time. */
  const ZERO_TIME: int := 0

  function Interval(c: Retry): int { c.intervalSec * SECOND }

  function Expire(c: Retry): int { c.expireSec * SECOND }

  /** A message pointer: `id` is its identity, `msg` what it points to. */
  datatype Ref = Ref(id: nat, msg: Message)

  datatype Entry = Entry(ref: Ref, accepted: int, nextTry: int, attempts: nat)

  function Size(e: Entry): nat { |e.ref.msg.body| }

  function TotalSize(es: seq<Entry>): nat {
    if es == [] then 0 else TotalSize(es[..|es| - 1]) + Size(es[|es| - 1])
  }

  // ---- Swap-removal ----

  /** The last element takes the place of the removed one. */
  function SwapRemove<T>(s: seq<T>, i: nat): (r: seq<T>)
    requires i < |s|
    ensures |r| == |s| - 1
  {
    s[i := s[|s| - 1]][..|s| - 1]
  }

  /** Exactly the chosen element leaves. */
  lemma {:induction false} SwapRemoveContents<T>(s: seq<T>, i: nat)
    requires i < |s|
    ensures multiset(SwapRemove(s, i)) == multiset(s) - multiset{s[i]}
  {
    var last := |s| - 1;
    var t := s[i := s[last]];
    assert t == t[..last] + [s[last]];
    assert multiset(t) == multiset(t[..last] + [s[last]]);
    assert multiset(t[..last]) + multiset{s[last]} == (multiset(s) - multiset{s[i]}) + multiset{s[last]};
    Cancel(multiset(t[..last]), multiset(s) - multiset{s[i]}, multiset{s[last]});
  }

  lemma {:induction false} Cancel<T>(a: multiset<T>, b: multiset<T>, c: multiset<T>)
    requires a + c == b + c
    ensures a == b
  {
    forall x ensures a[x] == b[x] {
      assert (a + c)[x] == (b + c)[x];
    }
  }

  lemma {:induction false} TotalSizeUpdate(es: seq<Entry>, i: nat, e: Entry)
    requires i < |es|
    ensures TotalSize(es[i := e]) == TotalSize(es) - Size(es[i]) + Size(e)
  {
    var n := |es| - 1;
    if i < n {
      assert es[i := e][..n] == es[..n][i := e];
      TotalSizeUpdate(es[..n], i, e);
    } else {
      assert es[i := e][..n] == es[..n];
    }
  }

  lemma {:induction false} TotalSizeSwapRemove(es: seq<Entry>, i: nat)
    requires i < |es|
    ensures TotalSize(SwapRemove(es, i)) == TotalSize(es) - Size(es[i])
  {
    var n := |es| - 1;
    TotalSizeUpdate(es, i, es[n]);
    assert es[i := es[n]][n] == es[n];
  }

  // ---- The expiry pass ----

  predicate Fresh(e: Entry, now: int, expire: int) {
    now - e.accepted <= expire
  }

  datatype Swept = Swept(kept: seq<Entry>, expired: seq<Entry>)

  /** The backward pass over positions `k`-1 down to 0. */
  function SweepFrom(es: seq<Entry>, k: nat, now: int, expire: int): Swept
    requires k <= |es|
    decreases k
  {
    if k == 0 then Swept(es, [])
    else if Fresh(es[k - 1], now, expire) then SweepFrom(es, k - 1, now, expire)
    else
      var r := SweepFrom(SwapRemove(es, k - 1), k - 1, now, expire);
      Swept(r.kept, [es[k - 1]] + r.expired)
  }

  function Sweep(es: seq<Entry>, now: int, expire: int): Swept {
    SweepFrom(es, |es|, now, expire)
  }

  /** The entries of a list that are not fresh, last first. */
  function StaleBackward(es: seq<Entry>, now: int, expire: int): seq<Entry> {
    if es == [] then []
    else
      var last, before := es[|es| - 1], StaleBackward(es[..|es| - 1], now, expire);
      if Fresh(last, now, expire) then before else [last] + before
  }

  ghost predicate AllFresh(es: seq<Entry>, now: int, expire: int) {
    forall i :: 0 <= i < |es| ==> Fresh(es[i], now, expire)
  }

  /** The backward pass splits the entries into those it keeps and those it removes;
      it keeps exactly the fresh ones. Each original position is examined once, while
      it still holds its original entry, so the removed ones come out in order. */
  lemma {:induction false} SweepFromSplits(es: seq<Entry>, k: nat, now: int, expire: int)
    requires k <= |es| && AllFresh(es[k..], now, expire)
    ensures AllFresh(SweepFrom(es, k, now, expire).kept, now, expire)
    ensures SweepFrom(es, k, now, expire).expired == StaleBackward(es[..k], now, expire)
    decreases k
  {
    hide Fresh, SwapRemove;
    if k == 0 {
      assert es[0..] == es && es[..0] == [];
    } else {
      var e := es[k - 1];
      assert es[..k][..k - 1] == es[..k - 1];
      if Fresh(e, now, expire) {
        assert es[k - 1..] == [e] + es[k..];
        SweepFromSplits(es, k - 1, now, expire);
      } else {
        StillFresh(es, k, now, expire);
        SweepFromSplits(SwapRemove(es, k - 1), k - 1, now, expire);
      }
    }
  }

  /** One position of the backward pass. */
  lemma {:induction false} SweepOnce(es: seq<Entry>, k: nat, now: int, expire: int)
    requires k < |es|
    ensures SweepFrom(es, k + 1, now, expire) ==
            if Fresh(es[k], now, expire) then SweepFrom(es, k, now, expire)
            else
              var r := SweepFrom(SwapRemove(es, k), k, now, expire);
              Swept(r.kept, [es[k]] + r.expired)
  {
    hide Fresh, SwapRemove;
  }

  lemma {:induction false} SweepNothing(es: seq<Entry>, now: int, expire: int)
    ensures SweepFrom(es, 0, now, expire) == Swept(es, [])
  {
  }

  lemma {:induction false} SweepFromContents(es: seq<Entry>, k: nat, now: int, expire: int)
    requires k <= |es|
    ensures var r := SweepFrom(es, k, now, expire); multiset(r.kept) + multiset(r.expired) == multiset(es)
    decreases k
  {
    hide Fresh, SwapRemove, SweepFrom;
    if k == 0 {
      SweepNothing(es, now, expire);
    } else {
      SweepOnce(es, k - 1, now, expire);
      if Fresh(es[k - 1], now, expire) {
        SweepFromContents(es, k - 1, now, expire);
      } else {
        var t := SwapRemove(es, k - 1);
        SweepFromContents(t, k - 1, now, expire);
        SwapRemoveContents(es, k - 1);
        var r := SweepFrom(t, k - 1, now, expire);
        PutBack(es, es[k - 1], t, r.kept, r.expired);
      }
    }
  }

  lemma {:induction false} SweepFromSizes(es: seq<Entry>, k: nat, now: int, expire: int)
    requires k <= |es|
    ensures var r := SweepFrom(es, k, now, expire);
            TotalSize(r.kept) + TotalSize(r.expired) == TotalSize(es) && |r.kept| + |r.expired| == |es|
    decreases k
  {
    hide Fresh, SwapRemove, SweepFrom, TotalSize;
    if k == 0 {
      SweepNothing(es, now, expire);
      NoSize();
    } else {
      SweepOnce(es, k - 1, now, expire);
      if Fresh(es[k - 1], now, expire) {
        SweepFromSizes(es, k - 1, now, expire);
      } else {
        var t := SwapRemove(es, k - 1);
        SweepFromSizes(t, k - 1, now, expire);
        TotalSizeSwapRemove(es, k - 1);
        TotalSizeCons(es[k - 1], SweepFrom(t, k - 1, now, expire).expired);
      }
    }
  }

  lemma {:induction false} PutBack(es: seq<Entry>, e: Entry, t: seq<Entry>, kept: seq<Entry>, expired: seq<Entry>)
    requires e in es && multiset(t) == multiset(es) - multiset{e}
    requires multiset(kept) + multiset(expired) == multiset(t)
    ensures multiset(kept) + multiset([e] + expired) == multiset(es)
  {
    assert e in multiset(es);
    assert multiset([e] + expired) == multiset{e} + multiset(expired);
    calc {
      multiset(kept) + multiset([e] + expired);
      multiset(kept) + multiset(expired) + multiset{e};
      multiset(es) - multiset{e} + multiset{e};
      multiset(es);
    }
  }

  lemma {:induction false} NoSize()
    ensures TotalSize([]) == 0
  {
  }

  lemma {:induction false} StillFresh(es: seq<Entry>, k: nat, now: int, expire: int)
    requires 0 < k <= |es| && AllFresh(es[k..], now, expire)
    ensures AllFresh(SwapRemove(es, k - 1)[k - 1..], now, expire)
    ensures SwapRemove(es, k - 1)[..k - 1] == es[..k - 1]
  {
    var tail := SwapRemove(es, k - 1)[k - 1..];
    forall i | 0 <= i < |tail| ensures Fresh(tail[i], now, expire) {
      assert tail[i] == if i == 0 then es[k..][|es| - 1 - k] else es[k..][i - 1];
    }
  }

  lemma {:induction false} TotalSizeCons(e: Entry, es: seq<Entry>)
    ensures TotalSize([e] + es) == Size(e) + TotalSize(es)
  {
    var n := |es|;
    if n == 0 {
      assert ([e] + es)[..0] == [];
    } else {
      assert ([e] + es)[..n] == [e] + es[..n - 1];
      TotalSizeCons(e, es[..n - 1]);
    }
  }

  lemma {:induction false} SweepSplits(es: seq<Entry>, now: int, expire: int)
    ensures var r := Sweep(es, now, expire);
            && AllFresh(r.kept, now, expire)
            && multiset(r.kept) + multiset(r.expired) == multiset(es)
            && r.expired == StaleBackward(es, now, expire)
            && TotalSize(r.kept) + TotalSize(r.expired) == TotalSize(es)
            && |r.kept| + |r.expired| == |es|
  {
    assert es[..|es|] == es && es[|es|..] == [];
    SweepFromSplits(es, |es|, now, expire);
    SweepFromContents(es, |es|, now, expire);
    SweepFromSizes(es, |es|, now, expire);
  }

  // ---- The lock regions on values ----

  datatype Agent = Inline | Worker | Drainer

  /** The history of the queue: attempts, the log entries that mark the fate of a
      message, the clock readings of the passes, and Drain's final lock. */
  datatype Event =
    | Started(id: nat, who: Agent, at: int)
    | Ended(id: nat, who: Agent, res: Result, at: int)
    | Held(id: nat, at: int)
    | Refused(id: nat)
    | Delivered(id: nat, attempts: nat)
    | Failed(id: nat, attempts: nat)
    | Expired(id: nat, attempts: nat)
    | Lost(id: nat, attempts: nat)
    | Passed(at: int)
    | Shut

  /** What the mutex protects, and the history. */
  datatype Shared = Shared(entries: seq<Entry>, bytes: int, log: seq<Event>)

  /** The entries whose retry is due, in list order. */
  function Due(es: seq<Entry>, now: int): seq<Ref> {
    if es == [] then []
    else
      var before, last := Due(es[..|es| - 1], now), es[|es| - 1];
      if now >= last.nextTry then before + [last.ref] else before
  }

  /** The due entries of a list, front part first, each exactly when its time has come. */
  lemma {:induction false} DueInOrder(a: seq<Entry>, e: Entry, b: seq<Entry>, now: int)
    ensures Due(a + [e] + b, now) == Due(a, now) + (if e.nextTry <= now then [e.ref] else []) + Due(b, now)
  {
    if b == [] {
      assert a + [e] + b == a + [e] && (a + [e])[..|a|] == a;
    } else {
      var n := |b| - 1;
      assert (a + [e] + b)[..|a| + 1 + n] == a + [e] + b[..n];
      DueInOrder(a, e, b[..n], now);
    }
  }

  /** The position of a message by identity, or -1. */
  function Find(es: seq<Entry>, id: nat): (i: int)
    ensures -1 <= i < |es|
    ensures i >= 0 ==> es[i].ref.id == id && forall k :: 0 <= k < i ==> es[k].ref.id != id
    ensures i < 0 ==> forall k :: 0 <= k < |es| ==> es[k].ref.id != id
  {
    if es == [] then -1
    else
      var i := Find(es[..|es| - 1], id);
      if i >= 0 then i else if es[|es| - 1].ref.id == id then |es| - 1 else -1
  }

  function ExpiredEvents(es: seq<Entry>): (r: seq<Event>)
    ensures |r| == |es|
  {
    seq(|es|, i requires 0 <= i < |es| => Expired(es[i].ref.id, es[i].attempts))
  }

  function LostEvents(es: seq<Entry>): (r: seq<Event>)
    ensures |r| == |es|
  {
    seq(|es|, i requires 0 <= i < |es| => Lost(es[i].ref.id, es[i].attempts))
  }

  predicate Fits(c: Retry, q: Shared, m: Ref) {
    |q.entries| < c.maxEntries && q.bytes + |m.msg.body| <= c.maxBytes
  }

  function Enqueued(c: Retry, q: Shared, m: Ref, now: int): Shared {
    if Fits(c, q, m) then
      Shared(q.entries + [Entry(m, now, now + Interval(c), 0)], q.bytes + |m.msg.body|, q.log + [Held(m.id, now)])
    else q.(log := q.log + [Refused(m.id)])
  }

  function Begun(c: Retry, q: Shared, now: int): Shared {
    var r := Sweep(q.entries, now, Expire(c));
    Shared(r.kept, q.bytes - TotalSize(r.expired), q.log + ExpiredEvents(r.expired))
  }

  function Removed(q: Shared, i: nat): Shared
    requires i < |q.entries|
  {
    q.(entries := SwapRemove(q.entries, i), bytes := q.bytes - Size(q.entries[i]))
  }

  function Recorded(c: Retry, q: Shared, id: nat, res: Result, now: int): Shared {
    var i := Find(q.entries, id);
    if i < 0 then q
    else
      var e := q.entries[i];
      match res
      case OK => Removed(q, i).(log := q.log + [Delivered(id, e.attempts + 1)])
      case PermFail => Removed(q, i).(log := q.log + [Failed(id, e.attempts + 1)])
      case _ => q.(entries := q.entries[i := e.(attempts := e.attempts + 1, nextTry := now + Interval(c))])
  }

  function Armed(q: Shared): Shared {
    q.(entries := seq(|q.entries|, i requires 0 <= i < |q.entries| => q.entries[i].(nextTry := ZERO_TIME)))
  }

  function Abandoned(q: Shared): Shared {
    q.(log := q.log + LostEvents(q.entries))
  }

  /** The byte counter is exact and both limits hold. */
  ghost predicate Bounded(c: Retry, q: Shared) {
    q.bytes == TotalSize(q.entries) && q.bytes <= c.maxBytes && |q.entries| <= c.maxEntries
  }

  lemma {:induction false} BegunIsBounded(c: Retry, q: Shared, now: int)
    ensures Bounded(c, q) ==> Bounded(c, Begun(c, q, now))
  {
    hide SweepFrom, TotalSize;
    SweepSplits(q.entries, now, Expire(c));
  }

  // ---- The lock regions in place ----

  class Store {
    const cfg: Retry
    var entries: seq<Entry>
    var bytes: int
    var log: seq<Event>

    constructor (c: Retry)
      ensures cfg == c && View() == Shared([], 0, [])
    {
      cfg, entries, bytes, log := c, [], 0, [];
    }

    function View(): Shared
      reads this
    {
      Shared(entries, bytes, log)
    }

    method Enqueue(m: Ref, now: int) returns (ok: bool)
      modifies this
      ensures View() == Enqueued(cfg, old(View()), m, now)
      ensures ok == Fits(cfg, old(View()), m)
      ensures ok ==> entries == old(entries) + [Entry(m, now, now + cfg.intervalSec * SECOND, 0)]
      ensures !ok ==> entries == old(entries)
      ensures old(Bounded(cfg, View())) ==>
                (ok <==> |old(entries)| + 1 <= cfg.maxEntries && TotalSize(old(entries)) + |m.msg.body| <= cfg.maxBytes)
      ensures old(Bounded(cfg, View())) ==> Bounded(cfg, View())
    {
      var size := |m.msg.body|;
      if |entries| >= cfg.maxEntries {
        log := log + [Refused(m.id)];
        return false;
      }
      if bytes + size > cfg.maxBytes {
        log := log + [Refused(m.id)];
        return false;
      }
      var e := Entry(m, now, now + Interval(cfg), 0);
      assert (entries + [e])[..|entries|] == entries;
      entries := entries + [e];
      bytes := bytes + size;
      log := log + [Held(m.id, now)];
      return true;
    }

    /** The inline attempt has returned `res`. A temporary failure is held if there is
        room; the session learns Queued exactly when it is. */
    method Dispatch(m: Ref, res: Result, now: int) returns (reported: Result)
      modifies this
      ensures View() == if res != TempFail then old(View()) else if cfg.enabled then Enqueued(cfg, old(View()), m, now)
                        else old(View().(log := View().log + [Refused(m.id)]))
      ensures |entries| == |old(entries)| + 1 <==> res == TempFail && reported == Queued
      ensures |entries| == |old(entries)| + 1 || (reported == res && entries == old(entries))
    {
      if res != TempFail {
        return res;
      }
      if !cfg.enabled {
        log := log + [Refused(m.id)];
        return TempFail;
      }
      var ok := Enqueue(m, now);
      return if ok then Queued else TempFail;
    }

    method Remove(i: nat)
      requires i < |entries|
      modifies this`entries, this`bytes
      ensures View() == Removed(old(View()), i)
    {
      bytes := bytes - Size(entries[i]);
      var last := |entries| - 1;
      entries := entries[i := entries[last]];
      entries := entries[..last];
    }

    method IndexOf(id: nat) returns (i: int)
      ensures i == Find(entries, id)
    {
      i := 0;
      while i < |entries|
        invariant 0 <= i <= |entries| && Find(entries[..i], id) < 0
      {
        assert entries[..i + 1][..i] == entries[..i];
        if entries[i].ref.id == id {
          FindStable(entries, i + 1, id);
          return i;
        }
        i := i + 1;
      }
      assert entries[..i] == entries;
      return -1;
    }

    /** The first lock region of tick: expire backwards, then copy what is due. */
    method BeginPass(now: int) returns (due: seq<Ref>)
      modifies this
      ensures View() == Begun(cfg, old(View()), now)
      ensures due == Due(entries, now)
      ensures old(Bounded(cfg, View())) ==> Bounded(cfg, View())
    {
      hide Sweep, TotalSize;
      BegunIsBounded(cfg, View(), now);
      ExpireStale(now);
      due := [];
      for k := 0 to |entries|
        invariant due == Due(entries[..k], now)
      {
        assert entries[..k + 1][..k] == entries[..k];
        if now >= entries[k].nextTry {
          due := due + [entries[k].ref];
        }
      }
      assert entries[..|entries|] == entries;
    }

    method ExpireStale(now: int)
      modifies this
      ensures View() == Begun(cfg, old(View()), now)
    {
      hide SwapRemove, TotalSize, Fresh, SweepFrom, ExpiredEvents;
      ghost var gone: seq<Entry> := [];
      ghost var whole := Sweep(entries, now, Expire(cfg));
      SweepBegins(entries, now, Expire(cfg));
      var i := |entries|;
      while i > 0
        invariant 0 <= i <= |entries|
        invariant SweepRest(whole, gone, SweepFrom(entries, i, now, Expire(cfg)))
        invariant bytes == old(bytes) - TotalSize(gone) && log == old(log) + ExpiredEvents(gone)
      {
        i := i - 1;
        SweepStep(entries, i, now, Expire(cfg), whole, gone);
        if now - entries[i].accepted <= Expire(cfg) {
          continue;
        }
        var e := entries[i];
        log := log + [Expired(e.ref.id, e.attempts)];
        Remove(i);
        gone := gone + [e];
      }
      SweepEnds(entries, now, Expire(cfg), whole, gone);
    }

    /** The second lock region of tick: record the result of one attempt. */
    method Record(m: Ref, res: Result, now: int)
      modifies this
      ensures View() == Recorded(cfg, old(View()), m.id, res, now)
      ensures old(Bounded(cfg, View())) ==> Bounded(cfg, View())
    {
      hide TotalSize, Find;
      var i := IndexOf(m.id);
      if i < 0 {
        return;
      }
      var e := entries[i];
      TotalSizeSwapRemove(entries, i);
      TotalSizeUpdate(entries, i, e.(attempts := e.attempts + 1, nextTry := now + Interval(cfg)));
      match res {
        case OK =>
          log := log + [Delivered(m.id, e.attempts + 1)];
          Remove(i);
        case PermFail =>
          log := log + [Failed(m.id, e.attempts + 1)];
          Remove(i);
        case _ =>
          entries := entries[i := e.(attempts := e.attempts + 1)];
          entries := entries[i := entries[i].(nextTry := now + Interval(cfg))];
      }
    }

    /** Drain makes every entry due. */
    method Arm()
      modifies this`entries
      ensures View() == Armed(old(View()))
    {
      for i := 0 to |entries|
        invariant |entries| == |old(entries)|
        invariant entries == Armed(old(View())).entries[..i] + old(entries)[i..]
      {
        entries := entries[i := entries[i].(nextTry := ZERO_TIME)];
      }
      assert entries == Armed(old(View())).entries;
    }

    /** Drain's final lock region: everything still held is reported lost. */
    method Abandon()
      modifies this`log
      ensures View() == Abandoned(old(View()))
    {
      ghost var all := LostEvents(entries);
      for i := 0 to |entries|
        invariant log == old(log) + all[..i]
      {
        log := log + [Lost(entries[i].ref.id, entries[i].attempts)];
        assert all[..i + 1] == all[..i] + [all[i]];
      }
      assert all[..|entries|] == all;
    }
  }

  lemma {:induction false} FindStable(es: seq<Entry>, n: nat, id: nat)
    requires n <= |es| && Find(es[..n], id) >= 0
    ensures Find(es, id) == Find(es[..n], id)
  {
    if n < |es| {
      assert es[..|es| - 1][..n] == es[..n];
      FindStable(es[..|es| - 1], n, id);
    } else {
      assert es[..n] == es;
    }
  }

  /** The pass so far has removed `gone`; `part` is what the rest of it will do. */
  ghost predicate SweepRest(whole: Swept, gone: seq<Entry>, part: Swept) {
    whole.kept == part.kept && whole.expired == gone + part.expired
  }

  lemma {:induction false} SweepBegins(es: seq<Entry>, now: int, expire: int)
    ensures SweepRest(Sweep(es, now, expire), [], SweepFrom(es, |es|, now, expire))
    ensures TotalSize([]) == 0 && ExpiredEvents([]) == []
  {
  }

  lemma {:induction false} SweepStep(es: seq<Entry>, i: nat, now: int, expire: int, whole: Swept, gone: seq<Entry>)
    requires i < |es| && SweepRest(whole, gone, SweepFrom(es, i + 1, now, expire))
    ensures if now - es[i].accepted <= expire then SweepRest(whole, gone, SweepFrom(es, i, now, expire))
            else SweepRest(whole, gone + [es[i]], SweepFrom(SwapRemove(es, i), i, now, expire))
    ensures TotalSize(gone + [es[i]]) == TotalSize(gone) + Size(es[i])
    ensures ExpiredEvents(gone + [es[i]]) == ExpiredEvents(gone) + [Expired(es[i].ref.id, es[i].attempts)]
  {
    hide SwapRemove, TotalSize;
    TotalSizeSnoc(gone, es[i]);
    var rest := SweepFrom(SwapRemove(es, i), i, now, expire).expired;
    assert gone + ([es[i]] + rest) == (gone + [es[i]]) + rest;
  }

  lemma {:induction false} SweepEnds(es: seq<Entry>, now: int, expire: int, whole: Swept, gone: seq<Entry>)
    requires SweepRest(whole, gone, SweepFrom(es, 0, now, expire))
    ensures whole == Swept(es, gone)
  {
    assert gone + [] == gone;
  }

  lemma {:induction false} TotalSizeSnoc(es: seq<Entry>, e: Entry)
    ensures TotalSize(es + [e]) == TotalSize(es) + Size(e)
  {
    assert (es + [e])[..|es|] == es;
  }
}
