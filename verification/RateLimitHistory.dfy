/** Every run of one budget: which starts it ever allowed, and where every permit went. */
module RateLimitHistory {
  import opened Wrappers
  import opened RateLimit

  /** What became of one granted reservation so far. */
  datatype Book = Book(granted: nat, started: nat, released: nat)

  datatype History = History(
    limiter: Limiter,
    now: int,
    starts: seq<int>,
    books: map<nat, Book>)

  datatype Act =
    | Reserve(at: int, weight: nat, ticket: Option<nat>, id: nat)
    | StartPermit(at: int, id: nat)
    | ReleasePermit(at: int, id: nat)
    | Queue(at: int, waiter: nat)
    | Unqueue(at: int, waiter: nat)

  const BEGIN := History(EMPTY, 0, [], map[])

  predicate Enabled(h: History, a: Act) {
    h.now <= a.at && (a.Reserve? ==> a.id !in h.books)
  }

  function RemoveFirst(s: seq<nat>, x: nat): seq<nat> {
    if s == [] then [] else if s[0] == x then s[1..] else [s[0]] + RemoveFirst(s[1..], x)
  }

  function After(h: History, p: Policy, a: Act): History
    requires Enabled(h, a)
  {
    match a
    case Reserve(at, weight, ticket, id) =>
      var (l, r) := TryReserve(h.limiter, p, at, weight, ticket, id);
      h.(limiter := l, now := at, books := if r.Reserved? then h.books[id := Book(weight, 0, 0)] else h.books)
    case StartPermit(at, id) =>
      var (l, r) := Start(h.limiter, p, at, id);
      h.(limiter := l, now := at,
         starts := if r.Started? then h.starts + [at] else h.starts,
         books := if r.Started? && id in h.books
                  then h.books[id := h.books[id].(started := h.books[id].started + 1)] else h.books)
    case ReleasePermit(at, id) =>
      var rest := RemainingOf(h.limiter.pending, id);
      h.(limiter := Release(h.limiter, id), now := at,
         books := if id in h.books
                  then h.books[id := h.books[id].(released := h.books[id].released + rest)] else h.books)
    case Queue(at, ticket) =>
      h.(limiter := h.limiter.(waiters := h.limiter.waiters + [ticket]), now := at)
    case Unqueue(at, ticket) =>
      h.(limiter := h.limiter.(waiters := RemoveFirst(h.limiter.waiters, ticket)), now := at)
  }

  /** Starts further apart than the budget allows by count, or by pacing. */
  predicate Gapped(starts: seq<int>, calls: nat, interval: nat) {
    forall k | calls <= k < |starts| :: starts[k] > starts[k - calls] + interval
  }

  /** The bucket holds exactly the starts that can still matter. */
  predicate LogIsTail(starts: seq<int>, now: int, log: seq<int>, interval: nat) {
    && |log| <= |starts|
    && log == starts[|starts| - |log|..]
    && forall i | 0 <= i < |starts| - |log| :: starts[i] < now - interval
  }

  /** Starts are ordered, gapped by count and by pacing, and the logs end the same way. */
  predicate Windows(starts: seq<int>, now: int, log: seq<int>, spaced: seq<int>, p: Policy) {
    && Sorted(starts) && BoundedBy(starts, now)
    && LogIsTail(starts, now, log, p.interval)
    && Gapped(starts, p.calls, p.interval)
    && (p.spacing.Some? ==>
          LogIsTail(starts, now, spaced, p.spacing.value) && Gapped(starts, 1, p.spacing.value))
  }

  predicate Balanced(books: map<nat, Book>, pending: seq<Permit>) {
    && (forall i | 0 <= i < |pending| :: pending[i].id in books)
    && (forall id | id in books ::
          books[id].granted == books[id].started + books[id].released + RemainingOf(pending, id))
  }

  predicate Inv(h: History, p: Policy) {
    && Valid(h.limiter, p, h.now)
    && Windows(h.starts, h.now, h.limiter.log, h.limiter.spaced, p)
    && Balanced(h.books, h.limiter.pending)
  }

  lemma TailPruned(starts: seq<int>, now: int, log: seq<int>, interval: nat, at: int)
    requires LogIsTail(starts, now, log, interval) && now <= at
    ensures LogIsTail(starts, at, Leak(log, at, interval), interval)
  {
    var k := LeakSuffix(log, at, interval);
    var n := |starts| - |log|;
    assert log[k..] == starts[n + k..];
    forall i | 0 <= i < n + k
      ensures starts[i] < at - interval
    {
      if i >= n {
        assert log[i - n] == starts[i];
      }
    }
  }

  lemma TailExtended(starts: seq<int>, now: int, log: seq<int>, interval: nat, calls: nat)
    requires LogIsTail(starts, now, log, interval) && |log| + 1 <= calls
    requires Gapped(starts, calls, interval)
    ensures LogIsTail(starts + [now], now, log + [now], interval)
    ensures Gapped(starts + [now], calls, interval)
  {
    var longer := starts + [now];
    assert log + [now] == longer[|longer| - |log + [now]|..];
  }

  lemma {:induction false} RemainingAppend(pending: seq<Permit>, last: Permit, id: nat)
    requires forall i | 0 <= i < |pending| :: pending[i].id != last.id
    ensures RemainingOf(pending + [last], id) == if id == last.id then last.remaining else RemainingOf(pending, id)
  {
    if pending != [] {
      assert (pending + [last])[1..] == pending[1..] + [last];
      RemainingAppend(pending[1..], last, id);
    } else {
      assert pending + [last] == [last];
    }
  }

  lemma ReserveBooks(books: map<nat, Book>, pending: seq<Permit>, id: nat, weight: nat)
    requires Balanced(books, pending) && id !in books
    ensures Balanced(books[id := Book(weight, 0, 0)], pending + [Permit(id, weight)])
  {
    RemainingBounds(pending, id);
    forall other | other in books[id := Book(weight, 0, 0)]
      ensures RemainingOf(pending + [Permit(id, weight)], other)
              == if other == id then weight else RemainingOf(pending, other)
    {
      RemainingAppend(pending, Permit(id, weight), other);
    }
  }

  /** Looking at the clock only moves stamps out of the window. */
  lemma WindowsPruned(starts: seq<int>, now: int, l: Limiter, p: Policy, at: int)
    requires Windows(starts, now, l.log, l.spaced, p) && now <= at
    ensures Windows(starts, at, Prune(l, p, at).log, Prune(l, p, at).spaced, p)
  {
    TailPruned(starts, now, l.log, p.interval, at);
    if p.spacing.Some? {
      TailPruned(starts, now, l.spaced, p.spacing.value, at);
    }
  }

  lemma WindowsLater(starts: seq<int>, now: int, log: seq<int>, spaced: seq<int>, p: Policy, at: int)
    requires Windows(starts, now, log, spaced, p) && now <= at
    ensures Windows(starts, at, log, spaced, p)
  {
  }

  lemma ValidLater(l: Limiter, p: Policy, now: int, at: int)
    requires Valid(l, p, now) && now <= at
    ensures Valid(l, p, at)
  {
  }

  lemma ReserveStep(h: History, p: Policy, a: Act)
    requires Inv(h, p) && Enabled(h, a) && a.Reserve?
    ensures Inv(After(h, p, a), p)
  {
    ReserveKeeps(h.limiter, p, h.now, a.at, a.weight, a.ticket, a.id);
    ReserveBooks(h.books, h.limiter.pending, a.id, a.weight);
    if a.weight < 1 || a.weight > p.calls {
      WindowsLater(h.starts, h.now, h.limiter.log, h.limiter.spaced, p, a.at);
    } else {
      WindowsPruned(h.starts, h.now, h.limiter, p, a.at);
    }
  }

  lemma StartBooks(books: map<nat, Book>, pending: seq<Permit>, id: nat)
    requires Balanced(books, pending) && DistinctPermits(pending) && RemainingOf(pending, id) >= 1
    ensures id in books
    ensures Balanced(books[id := books[id].(started := books[id].started + 1)], Spend(pending, id))
  {
    SpendEffect(pending, id, id);
    if id !in books {
      RemainingBounds(pending, id);
    }
    forall other | other in books
      ensures RemainingOf(Spend(pending, id), other)
              == RemainingOf(pending, other) - (if other == id then 1 else 0)
    {
      SpendEffect(pending, id, other);
    }
  }

  lemma StartWindows(starts: seq<int>, now: int, l: Limiter, p: Policy, at: int, id: nat)
    requires Valid(l, p, now) && now <= at && RemainingOf(l.pending, id) >= 1
    requires Windows(starts, now, l.log, l.spaced, p)
    ensures var m := Start(l, p, at, id).0;
            Windows(starts + [at], at, m.log, m.spaced, p)
  {
    var m := Prune(l, p, at);
    GrantedPermitStarts(l, p, now, at, id);
    RemainingBounds(l.pending, id);
    WindowsPruned(starts, now, l, p, at);
    PruneKeeps(l, p, now, at);
    WindowsExtended(starts, at, m.log, m.spaced, p);
  }

  /** One more start, with room for it, keeps every window bound. */
  lemma WindowsExtended(starts: seq<int>, at: int, log: seq<int>, spaced: seq<int>, p: Policy)
    requires Windows(starts, at, log, spaced, p) && |log| + 1 <= p.calls && (p.spacing.Some? ==> spaced == [])
    ensures Windows(starts + [at], at, log + [at], if p.spacing.Some? then spaced + [at] else spaced, p)
  {
    TailExtended(starts, at, log, p.interval, p.calls);
    if p.spacing.Some? {
      TailExtended(starts, at, spaced, p.spacing.value, 1);
    }
  }

  lemma StartStep(h: History, p: Policy, a: Act)
    requires Inv(h, p) && Enabled(h, a) && a.StartPermit?
    ensures Inv(After(h, p, a), p)
  {
    if RemainingOf(h.limiter.pending, a.id) >= 1 {
      GrantedPermitStarts(h.limiter, p, h.now, a.at, a.id);
      StartBooks(h.books, h.limiter.pending, a.id);
      StartWindows(h.starts, h.now, h.limiter, p, a.at, a.id);
    } else {
      ValidLater(h.limiter, p, h.now, a.at);
      WindowsLater(h.starts, h.now, h.limiter.log, h.limiter.spaced, p, a.at);
    }
  }

  lemma ReleaseBooks(books: map<nat, Book>, pending: seq<Permit>, id: nat)
    requires Balanced(books, pending) && DistinctPermits(pending)
    ensures id !in books ==> Balanced(books, Without(pending, id))
    ensures id in books ==>
              Balanced(books[id := books[id].(released := books[id].released + RemainingOf(pending, id))],
                       Without(pending, id))
  {
    var rest := Without(pending, id);
    WithoutEffect(pending, id, id);
    forall i | 0 <= i < |rest|
      ensures rest[i].id in books
    {
      var m :| 0 <= m < |pending| && pending[m] == rest[i];
    }
    forall other | other in books
      ensures RemainingOf(rest, other) == if other == id then 0 else RemainingOf(pending, other)
    {
      WithoutEffect(pending, id, other);
    }
  }

  lemma ReleaseStep(h: History, p: Policy, a: Act)
    requires Inv(h, p) && Enabled(h, a) && a.ReleasePermit?
    ensures Inv(After(h, p, a), p)
  {
    ValidLater(h.limiter, p, h.now, a.at);
    ReleaseKeeps(h.limiter, p, a.at, a.id);
    ReleaseBooks(h.books, h.limiter.pending, a.id);
    WindowsLater(h.starts, h.now, h.limiter.log, h.limiter.spaced, p, a.at);
  }

  lemma QueueStep(h: History, p: Policy, a: Act)
    requires Inv(h, p) && Enabled(h, a) && (a.Queue? || a.Unqueue?)
    ensures Inv(After(h, p, a), p)
  {
    ValidLater(h.limiter, p, h.now, a.at);
    WindowsLater(h.starts, h.now, h.limiter.log, h.limiter.spaced, p, a.at);
  }

  lemma StepKeeps(h: History, p: Policy, a: Act)
    requires Inv(h, p) && Enabled(h, a)
    ensures Inv(After(h, p, a), p)
  {
    match a
    case Reserve(_, _, _, _) => ReserveStep(h, p, a);
    case StartPermit(_, _) => StartStep(h, p, a);
    case ReleasePermit(_, _) => ReleaseStep(h, p, a);
    case _ => QueueStep(h, p, a);
  }

  predicate Runs(p: Policy, acts: seq<Act>)
    decreases |acts|, 0
  {
    acts == [] ||
    (var n := |acts| - 1; Runs(p, acts[..n]) && Enabled(Exec(p, acts[..n]), acts[n]))
  }

  function Exec(p: Policy, acts: seq<Act>): History
    requires Runs(p, acts)
    decreases |acts|, 1
  {
    if acts == [] then BEGIN
    else var n := |acts| - 1; After(Exec(p, acts[..n]), p, acts[n])
  }

  lemma {:induction false} RunKeeps(p: Policy, acts: seq<Act>)
    requires ValidPolicy(p) && Runs(p, acts)
    ensures Inv(Exec(p, acts), p)
  {
    if acts != [] {
      RunKeeps(p, acts[..|acts| - 1]);
      StepKeeps(Exec(p, acts[..|acts| - 1]), p, acts[|acts| - 1]);
    }
  }

  // ------------------------------------------------------------ what it guarantees

  function CountWithin(starts: seq<int>, from: int, to: int): nat {
    if starts == [] then 0
    else CountWithin(starts[..|starts| - 1], from, to)
         + (if from <= starts[|starts| - 1] <= to then 1 else 0)
  }

  /** In a sorted log the stamps of one window are consecutive. */
  lemma {:induction false} WindowSlice(starts: seq<int>, from: int, to: int) returns (lo: nat, hi: nat)
    requires Sorted(starts)
    ensures lo <= hi <= |starts| && CountWithin(starts, from, to) == hi - lo
    ensures forall i | lo <= i < hi :: from <= starts[i] <= to
    ensures forall i | 0 <= i < lo :: starts[i] < from
    ensures forall i | hi <= i < |starts| :: starts[i] > to || starts[i] < from
    ensures lo < hi < |starts| ==> starts[hi] > to
  {
    if starts == [] {
      lo, hi := 0, 0;
    } else {
      var n := |starts| - 1;
      lo, hi := WindowSlice(starts[..n], from, to);
      if from <= starts[n] <= to {
        if lo == hi {
          lo, hi := n, n + 1;
        } else {
          assert hi == n;
          hi := n + 1;
        }
      }
    }
  }

  lemma GapsBoundWindows(starts: seq<int>, calls: nat, interval: nat, from: int)
    requires Sorted(starts) && Gapped(starts, calls, interval)
    ensures CountWithin(starts, from, from + interval) <= calls
  {
    var lo, hi := WindowSlice(starts, from, from + interval);
    assert lo + calls < |starts| ==> starts[lo + calls] > starts[lo] + interval;
  }

  /** No closed window of the interval ever holds more than `calls` starts. */
  lemma WindowBound(p: Policy, acts: seq<Act>, from: int)
    requires ValidPolicy(p) && Runs(p, acts)
    ensures CountWithin(Exec(p, acts).starts, from, from + p.interval) <= p.calls
  {
    RunKeeps(p, acts);
    InvBoundsWindows(Exec(p, acts), p, from);
  }

  lemma InvBoundsWindows(h: History, p: Policy, from: int)
    requires Inv(h, p)
    ensures CountWithin(h.starts, from, from + p.interval) <= p.calls
  {
    GapsBoundWindows(h.starts, p.calls, p.interval, from);
  }

  predicate Floored(times: seq<real>, starts: seq<int>) {
    |times| == |starts| && forall i | 0 <= i < |times| :: starts[i] == (times[i] * 1000.0).Floor
  }

  function RealCount(times: seq<real>, from: real, to: real): nat {
    if times == [] then 0
    else RealCount(times[..|times| - 1], from, to)
         + (if from <= times[|times| - 1] <= to then 1 else 0)
  }

  lemma {:induction false} RealCountFloored(times: seq<real>, starts: seq<int>, from: real, length: real, interval: nat)
    requires Floored(times, starts) && length * 1000.0 <= interval as real
    ensures RealCount(times, from, from + length)
            <= CountWithin(starts, (from * 1000.0).Floor, (from * 1000.0).Floor + interval)
  {
    if times != [] {
      var n := |times| - 1;
      RealCountFloored(times[..n], starts[..n], from, length, interval);
      var t := times[n];
      if from <= t <= from + length {
        assert (from * 1000.0).Floor <= (t * 1000.0).Floor;
        assert t * 1000.0 <= from * 1000.0 + interval as real;
      }
    }
  }

  /** So no real interval as long as the window, measured in seconds, does either. */
  lemma RealWindowBound(p: Policy, acts: seq<Act>, times: seq<real>, from: real, length: real)
    requires ValidPolicy(p) && Runs(p, acts)
    requires Floored(times, Exec(p, acts).starts) && length * 1000.0 <= p.interval as real
    ensures RealCount(times, from, from + length) <= p.calls
  {
    RealCountFloored(times, Exec(p, acts).starts, from, length, p.interval);
    WindowBound(p, acts, (from * 1000.0).Floor);
  }

  /** In a paced pool any two starts are more than the minimum interval apart. */
  lemma PacedStarts(p: Policy, acts: seq<Act>, times: seq<real>, i: nat, j: nat)
    requires ValidPolicy(p) && Runs(p, acts) && p.spacing.Some?
    requires Floored(times, Exec(p, acts).starts) && i < j < |times|
    ensures (times[j] - times[i]) * 1000.0 > p.spacing.value as real
  {
    RunKeeps(p, acts);
    var starts := Exec(p, acts).starts;
    assert starts[j] > starts[j - 1] + p.spacing.value;
    assert starts[i] <= starts[j - 1];
    assert starts[j] as real <= times[j] * 1000.0;
    assert times[i] * 1000.0 < starts[i] as real + 1.0;
  }

  /** Per reservation, granted weight is started, released or still waiting; never more. */
  lemma PermitsConserved(p: Policy, acts: seq<Act>, id: nat)
    requires ValidPolicy(p) && Runs(p, acts) && id in Exec(p, acts).books
    ensures var h := Exec(p, acts);
            var b := h.books[id];
            b.granted == b.started + b.released + RemainingOf(h.limiter.pending, id)
  {
    RunKeeps(p, acts);
  }

  /** The last `n` of a sorted log are its count from `from` on, if exactly they are that late. */
  lemma {:induction false} LateCounted(starts: seq<int>, n: nat, from: int, to: int)
    requires n <= |starts| && BoundedBy(starts, to)
    requires forall i | 0 <= i < |starts| :: starts[i] >= from <==> i >= |starts| - n
    ensures CountWithin(starts, from, to) == n
  {
    if starts != [] {
      var m := |starts| - 1;
      assert starts[m] >= from <==> n >= 1;
      LateCounted(starts[..m], if n >= 1 then n - 1 else 0, from, to);
    }
  }

  /** What is left of the log of a window is what the window counts. */
  lemma TailCounts(starts: seq<int>, now: int, log: seq<int>, interval: nat, at: int)
    requires LogIsTail(starts, now, log, interval) && Sorted(starts) && BoundedBy(starts, now) && now <= at
    ensures |Leak(log, at, interval)| == CountWithin(starts, at - interval, at)
  {
    var k := LeakSuffix(log, at, interval);
    var older := |starts| - |log|;
    forall i | 0 <= i < |starts|
      ensures starts[i] >= at - interval <==> i >= older + k
    {
      if i >= older {
        assert starts[i] == log[i - older];
        if i >= older + k {
          assert starts[older + k] == log[k];
        }
      }
    }
    LateCounted(starts, |log| - k, at - interval, at);
  }

  /** The line is empty, or the caller's own ticket is first in it. */
  predicate FirstInLine(waiters: seq<nat>, ticket: Option<nat>) {
    waiters == [] || Some(waiters[0]) == ticket
  }

  /**
   Over every run, a reservation is granted exactly when it is its turn and the closed window
   that ends now has room: counted over the starts that really happened and the permits still
   held. A paced pool also waits for a single permit at a time and for its spacing to pass.
   */
  lemma GrantedExactly(p: Policy, acts: seq<Act>, at: int, weight: nat, ticket: Option<nat>, id: nat)
    requires ValidPolicy(p) && Runs(p, acts) && Enabled(Exec(p, acts), Reserve(at, weight, ticket, id))
    ensures var h := Exec(p, acts);
            id in After(h, p, Reserve(at, weight, ticket, id)).books
            <==> && 1 <= weight <= p.calls && FirstInLine(h.limiter.waiters, ticket)
                 && CountWithin(h.starts, at - p.interval, at) + TotalPending(h.limiter.pending) + weight <= p.calls
                 && (p.spacing.Some? ==>
                       && weight == 1 && h.limiter.pending == []
                       && CountWithin(h.starts, at - p.spacing.value, at) == 0)
    ensures var l := Exec(p, acts).limiter;
            TryReserve(l, p, at, weight, ticket, id).1 == WeightError
            <==> || !(1 <= weight <= p.calls)
                 || (FirstInLine(l.waiters, ticket) && p.spacing.Some? && weight != 1)
    ensures var h := Exec(p, acts);
            var n := After(h, p, Reserve(at, weight, ticket, id));
            && n.starts == h.starts
            && RemainingOf(n.limiter.pending, id) == (if id in n.books then weight else 0)
            && (forall other {:trigger RemainingOf(n.limiter.pending, other)} | other != id ::
                  RemainingOf(n.limiter.pending, other) == RemainingOf(h.limiter.pending, other))
  {
    RunKeeps(p, acts);
    ReservationDecides(Exec(p, acts), p, at, weight, ticket, id);
    ReservationLeaves(Exec(p, acts), p, at, weight, ticket, id);
  }

  lemma ReservationDecides(h: History, p: Policy, at: int, weight: nat, ticket: Option<nat>, id: nat)
    requires Inv(h, p) && Enabled(h, Reserve(at, weight, ticket, id))
    ensures id in After(h, p, Reserve(at, weight, ticket, id)).books
            <==> && 1 <= weight <= p.calls && FirstInLine(h.limiter.waiters, ticket)
                 && CountWithin(h.starts, at - p.interval, at) + TotalPending(h.limiter.pending) + weight <= p.calls
                 && (p.spacing.Some? ==>
                       && weight == 1 && h.limiter.pending == []
                       && CountWithin(h.starts, at - p.spacing.value, at) == 0)
  {
    TailCounts(h.starts, h.now, h.limiter.log, p.interval, at);
    if p.spacing.Some? {
      TailCounts(h.starts, h.now, h.limiter.spaced, p.spacing.value, at);
    }
  }

  lemma ReservationLeaves(h: History, p: Policy, at: int, weight: nat, ticket: Option<nat>, id: nat)
    requires Inv(h, p) && Enabled(h, Reserve(at, weight, ticket, id))
    ensures var n := After(h, p, Reserve(at, weight, ticket, id));
            && n.starts == h.starts
            && RemainingOf(n.limiter.pending, id) == (if id in n.books then weight else 0)
            && (forall other {:trigger RemainingOf(n.limiter.pending, other)} | other != id ::
                  RemainingOf(n.limiter.pending, other) == RemainingOf(h.limiter.pending, other))
  {
    var n := After(h, p, Reserve(at, weight, ticket, id));
    forall other
      ensures RemainingOf(n.limiter.pending, other)
              == if other == id then (if id in n.books then weight else 0)
                 else RemainingOf(h.limiter.pending, other)
    {
      RemainingBounds(h.limiter.pending, id);
      RemainingAppend(h.limiter.pending, Permit(id, weight), other);
    }
  }

  /** Neither capacity error of a start can happen, in any run, after any delay. */
  lemma StartNeverLacksCapacity(p: Policy, acts: seq<Act>, at: int, id: nat)
    requires ValidPolicy(p) && Runs(p, acts) && Exec(p, acts).now <= at
    ensures Start(Exec(p, acts).limiter, p, at, id).1 in {Started, AlreadyUsed}
    ensures Start(Exec(p, acts).limiter, p, at, id).1 == Started
            <==> RemainingOf(Exec(p, acts).limiter.pending, id) >= 1
  {
    RunKeeps(p, acts);
    var h := Exec(p, acts);
    if RemainingOf(h.limiter.pending, id) >= 1 {
      GrantedPermitStarts(h.limiter, p, h.now, at, id);
    }
  }
}
