/** What a cursor reader of the event ring can conclude, over every run. */
module TradeEventHistory {
  import opened Wrappers
  import opened TradeEvents

  /** One reader following one account, beside everything the process ever accepted. */
  datatype Reader = Reader(
    ring: Ring,
    history: seq<Event>,
    start: nat,
    cursor: nat,
    collected: seq<Event>,
    clean: bool)

  datatype Scope = Scope(environment: Environment, account: string, retention: real, capacity: nat)

  datatype Act =
    | RowArrives(now: real, kind: Kind, account: string, row: Row)
    | Close
    | Resume
    | Reconnect
    | OtherRead(now: real)
    | Poll(now: real, limit: nat)

  predicate Enabled(a: Act) { a.Poll? ==> a.limit >= 1 }

  function After(r: Reader, s: Scope, a: Act): Reader
    requires s.capacity >= 1 && Enabled(a)
  {
    match a
    case RowArrives(now, kind, account, row) =>
      var ring := Accepted(r.ring, now, s.retention, s.capacity, kind, account, row);
      r.(ring := ring,
         history := if ring.sequence > r.ring.sequence && ring.events != []
                    then r.history + [ring.events[|ring.events| - 1].event] else r.history)
    case Close => r.(ring := r.ring.(accepting := false, events := []))
    case Resume => r.(ring := r.ring.(accepting := true))
    case Reconnect => r.(ring := r.ring.(reconnects := r.ring.reconnects + 1))
    case OtherRead(now) => r.(ring := Expired(r.ring, now, s.retention))
    case Poll(now, limit) =>
      var ring := Expired(r.ring, now, s.retention);
      var page := PageOf(ring, s.environment, s.account, r.cursor, limit, false);
      r.(ring := ring, cursor := page.nextSequence,
         collected := r.collected + page.events, clean := r.clean && !page.retentionGap)
  }

  // ------------------------------------------------------------ the reference: matching history

  /** The matching events numbered above `lo` and up to `hi`, oldest first. */
  function Matching(history: seq<Event>, lo: nat, hi: nat, s: Scope): seq<Event>
    requires hi <= |history|
  {
    if hi <= lo then []
    else
      Matching(history, lo, hi - 1, s)
      + (if Matches(history[hi - 1], s.environment, s.account) then [history[hi - 1]] else [])
  }

  predicate Sequenced(history: seq<Event>) {
    forall i | 0 <= i < |history| :: history[i].sequence == i + 1
  }

  /** The reference itself: every matching event in range, once, in order. */
  lemma MatchingIsComplete(history: seq<Event>, lo: nat, hi: nat, s: Scope)
    requires Sequenced(history) && hi <= |history|
    ensures forall i | lo <= i < hi && Matches(history[i], s.environment, s.account) ::
              history[i] in Matching(history, lo, hi, s)
    ensures forall e | e in Matching(history, lo, hi, s) ::
              Matches(e, s.environment, s.account) && lo < e.sequence <= hi && history[e.sequence - 1] == e
  {
    forall i | lo <= i < hi && Matches(history[i], s.environment, s.account)
      ensures history[i] in Matching(history, lo, hi, s)
    {
      MatchingHas(history, lo, hi, i, s);
    }
    MatchingOnly(history, lo, hi, s);
  }

  lemma {:induction false} MatchingHas(history: seq<Event>, lo: nat, hi: nat, i: nat, s: Scope)
    requires lo <= i < hi <= |history| && Matches(history[i], s.environment, s.account)
    ensures history[i] in Matching(history, lo, hi, s)
  {
    if i < hi - 1 {
      MatchingHas(history, lo, hi - 1, i, s);
    }
  }

  lemma {:induction false} MatchingOnly(history: seq<Event>, lo: nat, hi: nat, s: Scope)
    requires Sequenced(history) && hi <= |history|
    ensures forall e | e in Matching(history, lo, hi, s) ::
              Matches(e, s.environment, s.account) && lo < e.sequence <= hi && history[e.sequence - 1] == e
  {
    if hi > lo {
      MatchingOnly(history, lo, hi - 1, s);
      forall e | e in Matching(history, lo, hi, s)
        ensures Matches(e, s.environment, s.account) && lo < e.sequence <= hi && history[e.sequence - 1] == e
      {
        assert e in Matching(history, lo, hi - 1, s) || e == history[hi - 1];
      }
    }
  }

  lemma {:induction false} MatchingIsOrdered(history: seq<Event>, lo: nat, hi: nat, s: Scope)
    requires Sequenced(history) && hi <= |history|
    ensures forall i | 0 <= i < |Matching(history, lo, hi, s)| :: Matching(history, lo, hi, s)[i].sequence <= hi
    ensures forall i, j | 0 <= i < j < |Matching(history, lo, hi, s)| ::
              Matching(history, lo, hi, s)[i].sequence < Matching(history, lo, hi, s)[j].sequence
  {
    if hi > lo {
      MatchingIsOrdered(history, lo, hi - 1, s);
    }
  }

  lemma {:induction false} MatchingSplits(history: seq<Event>, a: nat, b: nat, c: nat, s: Scope)
    requires a <= b <= c <= |history|
    ensures Matching(history, a, c, s) == Matching(history, a, b, s) + Matching(history, b, c, s)
  {
    if c > b {
      MatchingSplits(history, a, b, c - 1, s);
    }
  }

  lemma {:induction false} MatchingStable(history: seq<Event>, e: Event, lo: nat, hi: nat, s: Scope)
    requires hi <= |history|
    ensures Matching(history + [e], lo, hi, s) == Matching(history, lo, hi, s)
  {
    if hi > lo {
      MatchingStable(history, e, lo, hi - 1, s);
    }
  }

  /** A page cut short covers exactly what lies up to its last event. */
  lemma {:induction false} MatchingCut(history: seq<Event>, lo: nat, hi: nat, k: nat, s: Scope)
    requires Sequenced(history) && hi <= |history| && 1 <= k <= |Matching(history, lo, hi, s)|
    ensures var last := Matching(history, lo, hi, s)[k - 1];
            && lo < last.sequence <= hi
            && Matching(history, lo, last.sequence, s) == Matching(history, lo, hi, s)[..k]
  {
    var shorter := Matching(history, lo, hi - 1, s);
    if k <= |shorter| {
      MatchingCut(history, lo, hi - 1, k, s);
    } else {
      assert Matching(history, lo, hi, s)[..k] == Matching(history, lo, hi, s);
    }
  }

  // ------------------------------------------------------------ the invariant

  predicate Ends(events: seq<Stamped>, history: seq<Event>) {
    && |events| <= |history|
    && forall i | 0 <= i < |events| :: events[i].event == history[|history| - |events| + i]
  }

  /** The ring is the end of the history: retained sequences are one interval up to the latest. */
  predicate Tail(ring: Ring, history: seq<Event>, capacity: nat) {
    && ring.sequence == |history| && Sequenced(history)
    && |ring.events| <= capacity && Ends(ring.events, history)
  }

  predicate Inv(r: Reader, s: Scope) {
    && Tail(r.ring, r.history, s.capacity)
    && r.start <= r.cursor <= |r.history|
    && (r.clean ==> r.collected == Matching(r.history, r.start, r.cursor, s))
  }

  lemma ExpireKeepsTail(ring: Ring, history: seq<Event>, capacity: nat, now: real, retention: real)
    requires Tail(ring, history, capacity)
    ensures Tail(Expired(ring, now, retention), history, capacity)
  {
  }

  lemma RecordKeepsTail(ring: Ring, history: seq<Event>, now: real, s: Scope,
                        kind: Kind, account: string, environment: Environment, data: map<Field, Value>)
    requires s.capacity >= 1 && Tail(ring, history, s.capacity)
    ensures var after := Record(ring, now, s.retention, s.capacity, kind, account, environment, data);
            && after.events != [] && after.sequence == ring.sequence + 1
            && after.events[|after.events| - 1]
               == Stamped(now, Event(ring.sequence + 1, kind, account, environment, data))
            && Tail(after, history + [after.events[|after.events| - 1].event], s.capacity)
  {
    ExpireKeepsTail(ring, history, s.capacity, now, s.retention);
    var e := Stamped(now, Event(ring.sequence + 1, kind, account, environment, data));
    PushKeepsEnd(Expire(ring.events, now, s.retention), history, e, s.capacity);
    SequencedExtends(history, e.event);
  }

  lemma SequencedExtends(history: seq<Event>, e: Event)
    requires Sequenced(history) && e.sequence == |history| + 1
    ensures Sequenced(history + [e])
  {
  }

  lemma PushKeepsEnd(events: seq<Stamped>, history: seq<Event>, e: Stamped, capacity: nat)
    requires capacity >= 1 && |events| <= capacity && Ends(events, history)
    ensures Ends(Push(events, e, capacity), history + [e.event])
    ensures 1 <= |Push(events, e, capacity)| <= capacity
    ensures Push(events, e, capacity)[|Push(events, e, capacity)| - 1] == e
  {
    var pushed := Push(events, e, capacity);
    var longer := history + [e.event];
    forall i | 0 <= i < |pushed|
      ensures pushed[i].event == longer[|longer| - |pushed| + i]
    {
      assert pushed[i] == (events + [e])[|events| + 1 - |pushed| + i];
    }
  }

  lemma {:induction false} SelectedIsMatching(ring: Ring, history: seq<Event>, k: nat, after: nat, s: Scope)
    requires Tail(ring, history, s.capacity) && k <= |ring.events|
    requires |history| - |ring.events| <= after <= |history|
    ensures var upto := |history| - |ring.events| + k;
            Selected(ring.events[..k], after, s.environment, s.account) == Matching(history, after, upto, s)
  {
    if k > 0 {
      SelectedIsMatching(ring, history, k - 1, after, s);
      assert ring.events[..k][..k - 1] == ring.events[..k - 1];
    }
  }

  lemma AllSelected(ring: Ring, history: seq<Event>, after: nat, s: Scope)
    requires Tail(ring, history, s.capacity) && |history| - |ring.events| <= after <= |history|
    ensures Selected(ring.events, after, s.environment, s.account) == Matching(history, after, |history|, s)
  {
    SelectedIsMatching(ring, history, |ring.events|, after, s);
    assert ring.events[..|ring.events|] == ring.events;
  }

  /** Without a gap, one page is the matching history from the cursor to the next cursor. */
  lemma CleanPage(ring: Ring, history: seq<Event>, after: nat, limit: nat, restarted: bool, s: Scope)
    requires Tail(ring, history, s.capacity) && after <= |history| && limit >= 1
    requires !PageOf(ring, s.environment, s.account, after, limit, restarted).retentionGap
    ensures var page := PageOf(ring, s.environment, s.account, after, limit, restarted);
            && after <= page.nextSequence <= |history|
            && page.events == Matching(history, after, page.nextSequence, s)
            && |page.events| <= limit
            && (!page.hasMore ==> page.nextSequence == |history|)
  {
    if ring.events != [] {
      assert ring.events[0].event.sequence == |history| - |ring.events| + 1;
    }
    AllSelected(ring, history, after, s);
    var all := Matching(history, after, |history|, s);
    if |all| > limit {
      MatchingCut(history, after, |history|, limit, s);
    }
  }

  /** Even with a gap the next cursor only moves forward. */
  lemma CursorAdvances(ring: Ring, history: seq<Event>, after: nat, limit: nat, s: Scope)
    requires Tail(ring, history, s.capacity) && after <= |history| && limit >= 1
    ensures after <= PageOf(ring, s.environment, s.account, after, limit, false).nextSequence <= |history|
  {
    SelectedBounds(ring.events, after, s);
    var all := Selected(ring.events, after, s.environment, s.account);
    if |all| > limit {
      assert all[limit - 1] in all;
    }
  }

  lemma {:induction false} SelectedBounds(events: seq<Stamped>, after: nat, s: Scope)
    ensures forall e | e in Selected(events, after, s.environment, s.account) ::
              e.sequence > after && exists i | 0 <= i < |events| :: events[i].event == e
  {
    if events != [] {
      var n := |events| - 1;
      SelectedBounds(events[..n], after, s);
      forall e | e in Selected(events, after, s.environment, s.account)
        ensures e.sequence > after && exists i | 0 <= i < |events| :: events[i].event == e
      {
        if e in Selected(events[..n], after, s.environment, s.account) {
          var i :| 0 <= i < n && events[..n][i].event == e;
          assert events[i].event == e;
        }
      }
    }
  }

  /** The gap report is exact: it is raised iff some later sequence is no longer retained. */
  lemma GapReportIsExact(ring: Ring, history: seq<Event>, after: nat, limit: nat, restarted: bool, s: Scope)
    requires Tail(ring, history, s.capacity) && after <= |history| && limit >= 1
    ensures PageOf(ring, s.environment, s.account, after, limit, restarted).retentionGap
            <==> exists n :: after < n <= |history| && !Retained(ring, n)
  {
    var oldest := |history| - |ring.events| + 1;
    if after + 1 < oldest {
      assert !Retained(ring, after + 1);
    } else {
      forall n | after < n <= |history|
        ensures Retained(ring, n)
      {
        assert ring.events[n - oldest].event.sequence == n;
      }
    }
  }

  /** What a page says of the ring itself: the latest number, the oldest one still retained, the reconnects. */
  lemma PageReports(ring: Ring, history: seq<Event>, after: nat, limit: nat, restarted: bool, s: Scope)
    requires Tail(ring, history, s.capacity) && limit >= 1
    ensures var page := PageOf(ring, s.environment, s.account, after, limit, restarted);
            && page.latest == |history| && page.reconnects == ring.reconnects && page.restartGap == restarted
            && (forall n: nat | Retained(ring, n) :: page.oldest <= n <= page.latest)
            && (if ring.events == [] then page.oldest == |history| + 1 else Retained(ring, page.oldest))
  {
  }

  predicate Retained(ring: Ring, n: nat) {
    exists i | 0 <= i < |ring.events| :: ring.events[i].event.sequence == n
  }

  lemma RowStep(r: Reader, s: Scope, a: Act)
    requires s.capacity >= 1 && Inv(r, s) && a.RowArrives?
    ensures Inv(After(r, s, a), s)
  {
    var payload := Payload(a.kind, a.row);
    if r.ring.accepting && payload.Some? {
      RecordKeepsTail(r.ring, r.history, a.now, s, a.kind, a.account, a.row.environment, payload.value);
      var n := After(r, s, a);
      MatchingStable(r.history, n.history[|r.history|], r.start, r.cursor, s);
    }
  }

  /** While the buffer is open every attributable row becomes the next event, and no other row does. */
  lemma ArrivalRecorded(r: Reader, s: Scope, a: Act)
    requires s.capacity >= 1 && Inv(r, s) && a.RowArrives?
    ensures var n := After(r, s, a);
            var payload := Payload(a.kind, a.row);
            if r.ring.accepting && payload.Some? then
              var e := Event(|r.history| + 1, a.kind, a.account, a.row.environment, payload.value);
              n.history == r.history + [e] && n.ring.events != []
              && n.ring.events[|n.ring.events| - 1] == Stamped(a.now, e)
            else n.history == r.history && n.ring == r.ring
  {
    if r.ring.accepting && Payload(a.kind, a.row).Some? {
      var data := Payload(a.kind, a.row).value;
      RecordKeepsTail(r.ring, r.history, a.now, s, a.kind, a.account, a.row.environment, data);
    }
  }

  lemma PollStep(r: Reader, s: Scope, a: Act)
    requires s.capacity >= 1 && Inv(r, s) && a.Poll? && Enabled(a)
    ensures Inv(After(r, s, a), s)
  {
    ExpireKeepsTail(r.ring, r.history, s.capacity, a.now, s.retention);
    var ring := Expired(r.ring, a.now, s.retention);
    CursorAdvances(ring, r.history, r.cursor, a.limit, s);
    if After(r, s, a).clean {
      CleanPage(ring, r.history, r.cursor, a.limit, false, s);
      MatchingSplits(r.history, r.start, r.cursor, After(r, s, a).cursor, s);
    }
  }

  lemma StepKeeps(r: Reader, s: Scope, a: Act)
    requires s.capacity >= 1 && Inv(r, s) && Enabled(a)
    ensures Inv(After(r, s, a), s)
  {
    match a
    case RowArrives(_, _, _, _) => RowStep(r, s, a);
    case Poll(_, _) => PollStep(r, s, a);
    case OtherRead(now) => ExpireKeepsTail(r.ring, r.history, s.capacity, now, s.retention);
    case _ =>
  }

  function Exec(r: Reader, s: Scope, acts: seq<Act>): Reader
    requires s.capacity >= 1 && forall i | 0 <= i < |acts| :: Enabled(acts[i])
  {
    if acts == [] then r else After(Exec(r, s, acts[..|acts| - 1]), s, acts[|acts| - 1])
  }

  /** A reader that joins with any cursor the process has issued. */
  predicate Joins(r: Reader, s: Scope) {
    && Tail(r.ring, r.history, s.capacity)
    && r.start == r.cursor <= |r.history| && r.collected == [] && r.clean
  }

  predicate Ordered(events: seq<Event>) {
    forall i, j | 0 <= i < j < |events| :: events[i].sequence < events[j].sequence
  }

  /**
   Gap-free chained reads return every matching event after the first cursor exactly once, in order,
   for any page limits and whatever happened to the ring in between.
   */
  lemma ChainedReads(r: Reader, s: Scope, acts: seq<Act>)
    requires s.capacity >= 1 && Joins(r, s) && forall i | 0 <= i < |acts| :: Enabled(acts[i])
    ensures var end := Exec(r, s, acts);
            && Inv(end, s) && end.start == r.start
            && (end.clean ==>
                  && end.collected == Matching(end.history, r.start, end.cursor, s)
                  && Ordered(end.collected)
                  && (forall e | e in end.history && r.start < e.sequence <= end.cursor ::
                        e in end.collected <==> Matches(e, s.environment, s.account)))
  {
    RunKeeps(r, s, acts);
    var end := Exec(r, s, acts);
    if end.clean {
      MatchingIsOrdered(end.history, r.start, end.cursor, s);
      MatchingIsComplete(end.history, r.start, end.cursor, s);
    }
  }

  lemma {:induction false} RunKeeps(r: Reader, s: Scope, acts: seq<Act>)
    requires s.capacity >= 1 && Joins(r, s) && forall i | 0 <= i < |acts| :: Enabled(acts[i])
    ensures Inv(Exec(r, s, acts), s) && Exec(r, s, acts).start == r.start
  {
    if acts != [] {
      var n := |acts| - 1;
      RunKeeps(r, s, acts[..n]);
      StepKeeps(Exec(r, s, acts[..n]), s, acts[n]);
    }
  }

  /** A buffer nothing has happened to, and a reader that starts with it. */
  const FRESH := Reader(Ring([], 0, true, 0), [], 0, 0, [], true)

  /** The page of `limit` events a reader gets at `now`, and the reader that has it. */
  function LastRead(r: Reader, s: Scope, now: real, limit: nat): Page
    requires limit >= 1
  {
    PageOf(Expired(r.ring, now, s.retention), s.environment, s.account, r.cursor, limit, false)
  }

  function Polled(r: Reader, s: Scope, now: real, limit: nat): Reader
    requires s.capacity >= 1 && limit >= 1
  {
    After(r, s, Poll(now, limit))
  }

  /** A page that says there is no more leaves the cursor at the latest event. */
  lemma LastPage(r: Reader, s: Scope, now: real, limit: nat)
    requires s.capacity >= 1 && limit >= 1 && Inv(r, s)
    requires !LastRead(r, s, now, limit).hasMore && Polled(r, s, now, limit).clean
    ensures Polled(r, s, now, limit).cursor == |Polled(r, s, now, limit).history|
  {
    ExpireKeepsTail(r.ring, r.history, s.capacity, now, s.retention);
    CleanPage(Expired(r.ring, now, s.retention), r.history, r.cursor, limit, false, s);
  }

  lemma HoldsEverything(end: Reader, s: Scope)
    requires Inv(end, s) && end.clean && end.start == 0 && end.cursor == |end.history|
    ensures Ordered(end.collected)
    ensures forall e ::
              e in end.collected <==> e in end.history && e.environment == s.environment && e.account == s.account
  {
    MatchingIsOrdered(end.history, 0, end.cursor, s);
    MatchingIsComplete(end.history, 0, end.cursor, s);
  }

  lemma FromTheStart(r: Reader, s: Scope, now: real, limit: nat)
    requires s.capacity >= 1 && limit >= 1 && Inv(r, s) && r.start == 0
    requires Polled(r, s, now, limit).clean && !LastRead(r, s, now, limit).hasMore
    ensures var end := Polled(r, s, now, limit);
            && Ordered(end.collected)
            && (forall e ::
                    e in end.collected <==>
                      e in end.history && e.environment == s.environment && e.account == s.account)
  {
    StepKeeps(r, s, Poll(now, limit));
    LastPage(r, s, now, limit);
    HoldsEverything(Polled(r, s, now, limit), s);
  }

  /**
   A reader that was there from the start, saw no gap and has just been told there is no more
   holds exactly the matching events of everything the process ever accepted.
   */
  lemma FromAFreshBuffer(s: Scope, acts: seq<Act>, now: real, limit: nat)
    requires s.capacity >= 1 && limit >= 1 && forall i | 0 <= i < |acts| :: Enabled(acts[i])
    ensures var r := Exec(FRESH, s, acts);
            var end := Polled(r, s, now, limit);
            end.clean && !LastRead(r, s, now, limit).hasMore ==>
              && Ordered(end.collected)
              && (forall e ::
                    e in end.collected <==>
                      e in end.history && e.environment == s.environment && e.account == s.account)
  {
    var r := Exec(FRESH, s, acts);
    RunKeeps(FRESH, s, acts);
    if Polled(r, s, now, limit).clean && !LastRead(r, s, now, limit).hasMore {
      FromTheStart(r, s, now, limit);
    }
  }

  // ------------------------------------------------------------ what the ring must keep

  /** The step neither empties the ring nor happens after an event recorded at `at` reached its age. */
  predicate TooSoonToForget(s: Scope, a: Act, at: real) {
    && !a.Close?
    && (a.RowArrives? || a.OtherRead? || a.Poll? ==> a.now - at < s.retention)
  }

  lemma ExpiryKeeps(events: seq<Stamped>, now: real, retention: real, e: Stamped)
    requires e in events && now - e.at < retention
    ensures e in Expire(events, now, retention)
  {
    var i :| 0 <= i < |events| && events[i] == e;
    YoungStays(events, now, retention, i);
    var kept := Expire(events, now, retention);
    assert kept[i - (|events| - |kept|)] == events[i];
  }

  lemma PushKeeps(events: seq<Stamped>, history: seq<Event>, last: Stamped, capacity: nat, e: Stamped)
    requires capacity >= 1 && |events| <= capacity && Ends(events, history) && Sequenced(history) && e in events
    ensures e in Push(events, last, capacity) || |history| + 1 - e.event.sequence >= capacity
  {
    PushExact(events, last, capacity);
    if |events| == capacity {
      var i :| 0 <= i < |events| && events[i] == e;
      if i > 0 {
        assert events[1..][i - 1] == e;
      } else {
        assert e.event == history[|history| - |events|];
      }
    }
  }

  lemma RecordKeepsYoung(ring: Ring, history: seq<Event>, s: Scope, a: Act, data: map<Field, Value>, e: Stamped)
    requires a.RowArrives? && s.capacity >= 1 && Tail(ring, history, s.capacity)
    requires e in ring.events && a.now - e.at < s.retention
    ensures e in Record(ring, a.now, s.retention, s.capacity, a.kind, a.account, a.row.environment, data).events
            || |history| + 1 - e.event.sequence >= s.capacity
  {
    ExpireKeepsTail(ring, history, s.capacity, a.now, s.retention);
    ExpiryKeeps(ring.events, a.now, s.retention, e);
    var last := Stamped(a.now, Event(ring.sequence + 1, a.kind, a.account, a.row.environment, data));
    PushKeeps(Expire(ring.events, a.now, s.retention), history, last, s.capacity, e);
  }

  lemma YoungStep(r: Reader, s: Scope, a: Act, e: Stamped)
    requires s.capacity >= 1 && Inv(r, s) && Enabled(a) && TooSoonToForget(s, a, e.at) && e in r.ring.events
    ensures e in After(r, s, a).ring.events || |After(r, s, a).history| - e.event.sequence >= s.capacity
  {
    if a.OtherRead? || a.Poll? {
      ExpiryKeeps(r.ring.events, a.now, s.retention, e);
    } else if a.RowArrives? && r.ring.accepting && Payload(a.kind, a.row).Some? {
      var data := Payload(a.kind, a.row).value;
      RecordKeepsYoung(r.ring, r.history, s, a, data, e);
      RecordKeepsTail(r.ring, r.history, a.now, s, a.kind, a.account, a.row.environment, data);
    }
  }

  lemma HistoryGrows(r: Reader, s: Scope, a: Act)
    requires s.capacity >= 1 && Enabled(a)
    ensures |r.history| <= |After(r, s, a).history|
  {
  }

  /**
   A recorded event younger than the retention is lost to nothing but `capacity` newer ones, over
   every run of callbacks, reads, reconnects and resumes.
   */
  lemma {:induction false} YoungIsKept(r: Reader, s: Scope, acts: seq<Act>, e: Stamped)
    requires s.capacity >= 1 && Joins(r, s) && e in r.ring.events
    requires forall k | 0 <= k < |acts| :: Enabled(acts[k]) && TooSoonToForget(s, acts[k], e.at)
    ensures e in Exec(r, s, acts).ring.events || |Exec(r, s, acts).history| - e.event.sequence >= s.capacity
  {
    if acts != [] {
      var m := |acts| - 1;
      YoungIsKept(r, s, acts[..m], e);
      RunKeeps(r, s, acts[..m]);
      HistoryGrows(Exec(r, s, acts[..m]), s, acts[m]);
      if e in Exec(r, s, acts[..m]).ring.events {
        YoungStep(Exec(r, s, acts[..m]), s, acts[m], e);
      }
    }
  }
}
