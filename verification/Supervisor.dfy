/** The two-process supervisor: a windowed restart policy for the gateway, one pass at a time. */
module Supervisor {
  import opened Wrappers

  datatype Name = Gateway | Server

  /** What one wait for children reports. */
  datatype Wait = Nothing | NoChildren | Exited(pid: int)

  datatype Exit = StoppedOnRequest | ServerExited | GatewayUnrecoverable

  datatype Policy = Policy(maxRestarts: nat, window: real, backoff: real, maxBackoff: real)

  // ------------------------------------------------------------ the restart policy as a value

  function Recent(restarts: seq<real>, now: real, window: real): seq<real> {
    if restarts == [] then []
    else (if now - restarts[0] < window then [restarts[0]] else []) + Recent(restarts[1..], now, window)
  }

  function Doubled(backoff: real, times: nat): real {
    if times == 0 then backoff else 2.0 * Doubled(backoff, times - 1)
  }

  function Delay(p: Policy, earlier: nat): real {
    var doubled := Doubled(p.backoff, earlier);
    if doubled < p.maxBackoff then doubled else p.maxBackoff
  }

  function Least(a: real, b: real): real { if a < b then a else b }

  /** The delay starts at the backoff and doubles with every recent restart, up to its bound. */
  lemma DelayDoubles(p: Policy, earlier: nat)
    requires p.backoff >= 0.0 && p.maxBackoff >= 0.0
    ensures Delay(p, 0) == Least(p.backoff, p.maxBackoff)
    ensures Delay(p, earlier + 1) == Least(2.0 * Delay(p, earlier), p.maxBackoff)
    ensures 0.0 <= Delay(p, earlier) <= p.maxBackoff
  {
    DoubledSign(p.backoff, earlier);
  }

  lemma {:induction false} DoubledSign(backoff: real, times: nat)
    requires backoff >= 0.0
    ensures Doubled(backoff, times) >= 0.0
  {
    if times > 0 {
      DoubledSign(backoff, times - 1);
    }
  }

  // ------------------------------------------------------------ what the policy guarantees

  predicate Ordered(times: seq<real>) {
    forall i, j | 0 <= i < j < |times| :: times[i] <= times[j]
  }

  predicate Before(times: seq<real>, now: real) {
    forall i | 0 <= i < |times| :: times[i] <= now
  }

  /** Any two restarts `maxRestarts` apart in the list are a whole window apart in time. */
  predicate Spread(times: seq<real>, p: Policy) {
    forall i, k | 0 <= i < |times| && 0 <= k < |times| && k == i + p.maxRestarts :: times[k] - times[i] >= p.window
  }

  /** The remembered restarts are the end of the history; the rest left the window. */
  predicate Remembers(history: seq<real>, restarts: seq<real>, now: real, p: Policy) {
    && |restarts| <= |history| && restarts == history[|history| - |restarts|..]
    && |restarts| <= p.maxRestarts
    && forall i | 0 <= i < |history| - |restarts| :: now - history[i] >= p.window
  }

  function CountFrom(times: seq<real>, start: real, length: real): nat {
    if times == [] then 0
    else
      var n := |times| - 1;
      CountFrom(times[..n], start, length) + (if start <= times[n] < start + length then 1 else 0)
  }

  lemma {:induction false} RecentSuffix(restarts: seq<real>, now: real, window: real) returns (k: nat)
    requires Ordered(restarts)
    ensures k <= |restarts| && Recent(restarts, now, window) == restarts[k..]
    ensures forall i | 0 <= i < k :: now - restarts[i] >= window
    ensures k < |restarts| ==> now - restarts[k] < window
  {
    if restarts == [] {
      k := 0;
    } else if now - restarts[0] < window {
      k := 0;
      AllRecent(restarts, now, window);
    } else {
      var m := RecentSuffix(restarts[1..], now, window);
      k := m + 1;
      assert restarts[1..][m..] == restarts[k..];
      forall i | 0 <= i < k
        ensures now - restarts[i] >= window
      {
        assert i > 0 ==> restarts[i] == restarts[1..][i - 1];
      }
    }
  }

  /** How many of the times are less than a window ago. */
  function CountSince(times: seq<real>, now: real, window: real): nat {
    if times == [] then 0
    else
      var n := |times| - 1;
      CountSince(times[..n], now, window) + (if now - times[n] < window then 1 else 0)
  }

  lemma {:induction false} LateCount(times: seq<real>, n: nat, now: real, window: real)
    requires n <= |times|
    requires forall i | 0 <= i < |times| :: now - times[i] < window <==> i >= |times| - n
    ensures CountSince(times, now, window) == n
  {
    if times != [] {
      var m := |times| - 1;
      assert now - times[m] < window <==> n >= 1;
      LateCount(times[..m], if n >= 1 then n - 1 else 0, now, window);
    }
  }

  /** What the policy still remembers of its restarts is exactly those of the last window. */
  lemma RecentIsExact(history: seq<real>, restarts: seq<real>, before: real, now: real, p: Policy)
    requires Ordered(history) && Remembers(history, restarts, before, p) && before <= now
    ensures |Recent(restarts, now, p.window)| == CountSince(history, now, p.window)
  {
    var k := RecentSuffix(restarts, now, p.window);
    var m := |history| - |restarts|;
    forall i | 0 <= i < |history|
      ensures now - history[i] < p.window <==> i >= m + k
    {
      if i >= m {
        assert restarts[i - m] == history[i];
      }
    }
    LateCount(history, |restarts| - k, now, p.window);
  }

  lemma {:induction false} AllRecent(restarts: seq<real>, now: real, window: real)
    requires forall i | 0 <= i < |restarts| :: now - restarts[i] < window
    ensures Recent(restarts, now, window) == restarts
  {
    if restarts != [] {
      AllRecent(restarts[1..], now, window);
    }
  }

  lemma Forgets(history: seq<real>, restarts: seq<real>, before: real, now: real, p: Policy)
    requires Ordered(history) && Remembers(history, restarts, before, p) && before <= now
    ensures Remembers(history, Recent(restarts, now, p.window), now, p)
  {
    var k := RecentSuffix(restarts, now, p.window);
    var m := |history| - |restarts|;
    assert restarts[k..] == history[m + k..];
    forall i | 0 <= i < m + k
      ensures now - history[i] >= p.window
    {
      if i >= m {
        assert restarts[i - m] == history[i];
      }
    }
  }

  /** Scheduling one more restart when fewer than the maximum are recent keeps the spread. */
  lemma Schedules(history: seq<real>, restarts: seq<real>, now: real, p: Policy)
    requires Ordered(history) && Before(history, now) && Spread(history, p)
    requires Remembers(history, restarts, now, p) && |restarts| < p.maxRestarts
    ensures Ordered(history + [now]) && Before(history + [now], now) && Spread(history + [now], p)
    ensures Remembers(history + [now], restarts + [now], now, p)
  {
    var longer := history + [now];
    assert restarts + [now] == longer[|longer| - |restarts + [now]|..];
  }

  /** Past restarts respect the policy, and the remembered ones are the end of them. */
  predicate Discipline(history: seq<real>, restarts: seq<real>, clock: real, p: Policy) {
    && Ordered(history) && Before(history, clock) && Spread(history, p)
    && Remembers(history, restarts, clock, p)
  }

  lemma ExitKeeps(history: seq<real>, restarts: seq<real>, before: real, now: real, p: Policy)
    requires Discipline(history, restarts, before, p) && before <= now
    ensures var kept := Recent(restarts, now, p.window);
            && |kept| == CountSince(history, now, p.window)
            && Discipline(history, kept, now, p)
            && (|kept| < p.maxRestarts ==> Discipline(history + [now], kept + [now], now, p))
  {
    RecentIsExact(history, restarts, before, now, p);
    Forgets(history, restarts, before, now, p);
    var kept := Recent(restarts, now, p.window);
    if |kept| < p.maxRestarts {
      Schedules(history, kept, now, p);
    }
  }

  lemma {:induction false} WindowRun(times: seq<real>, start: real, length: real) returns (lo: nat, hi: nat)
    requires Ordered(times)
    ensures lo <= hi <= |times| && CountFrom(times, start, length) == hi - lo
    ensures forall i | lo <= i < hi :: start <= times[i] < start + length
    ensures lo < hi < |times| ==> times[hi] >= start + length
  {
    if times == [] {
      lo, hi := 0, 0;
    } else {
      var n := |times| - 1;
      lo, hi := WindowRun(times[..n], start, length);
      if start <= times[n] < start + length {
        if lo == hi {
          lo, hi := n, n + 1;
        } else {
          assert hi == n;
          hi := n + 1;
        }
      }
    }
  }

  lemma SpreadBoundsWindows(history: seq<real>, p: Policy, start: real)
    requires Ordered(history) && Spread(history, p)
    ensures CountFrom(history, start, p.window) <= p.maxRestarts
  {
    var lo, hi := WindowRun(history, start, p.window);
    assert lo + p.maxRestarts < |history| ==>
             history[lo + p.maxRestarts] - history[lo] >= p.window;
  }

  /** The children that are left when those pids are gone. */
  function Left(pids: map<Name, int>, gone: set<int>): map<Name, int> {
    map n | n in pids && pids[n] !in gone :: pids[n]
  }

  lemma LeftStep(pids: map<Name, int>, gone: set<int>, pid: int, next: map<Name, int>)
    requires forall n | n in next :: n in Left(pids, gone) && next[n] == Left(pids, gone)[n] && next[n] != pid
    requires forall n | n in Left(pids, gone) && Left(pids, gone)[n] != pid :: n in next
    ensures next == Left(pids, gone + {pid})
  {
  }

  function Reported(exits: seq<int>): set<int> {
    set pid | pid in exits
  }

  lemma ReportedNext(exits: seq<int>, i: nat)
    requires i <= |exits|
    ensures exits[..|exits|] == exits
    ensures i < |exits| ==> Reported(exits[..i + 1]) == Reported(exits[..i]) + {exits[i]}
  {
    if i < |exits| {
      assert exits[..i + 1] == exits[..i] + [exits[i]];
    }
  }

  // ------------------------------------------------------------ the supervisor

  class Supervisor {
    const policy: Policy
    const hasGateway: bool
    var pids: map<Name, int>
    var restarts: seq<real>
    var due: Option<real>
    var stopRequested: bool
    ghost var history: seq<real>
    ghost var clock: real

    /** Past restarts respect the policy, whatever the state of the children. */
    ghost predicate Disciplined()
      reads this
    {
      Discipline(history, restarts, clock, policy)
    }

    /** No half-open window ever holds more than the maximum number of scheduled restarts. */
    lemma RestartWindowBound(start: real)
      requires Disciplined()
      ensures CountFrom(history, start, policy.window) <= policy.maxRestarts
    {
      SpreadBoundsWindows(history, policy, start);
    }

    ghost predicate DistinctChildren()
      reads this
    {
      forall a, b | a in pids && b in pids && pids[a] == pids[b] :: a == b
    }

    /** While running, the server is tracked, and a gateway is either tracked or due, never both. */
    ghost predicate Running()
      reads this
    {
      && Disciplined() && DistinctChildren() && Server in pids
      && (hasGateway ==> (Gateway in pids <==> due.None?))
      && (!hasGateway ==> Gateway !in pids && due.None?)
    }

    constructor (policy: Policy, hasGateway: bool)
      ensures Disciplined() && DistinctChildren() && pids == map[] && due == None && !stopRequested
      ensures this.policy == policy && this.hasGateway == hasGateway && history == []
    {
      this.policy, this.hasGateway := policy, hasGateway;
      pids, restarts, due, stopRequested, history, clock := map[], [], None, false, [], 0.0;
    }

    method RequestStop()
      modifies this`stopRequested
      ensures stopRequested
    {
      stopRequested := true;
    }

    /** The operating system never gives two living children one pid. */
    method Spawn(name: Name, pid: int)
      requires DistinctChildren() && (forall n | n in pids :: pids[n] != pid) && name !in pids
      modifies this`pids
      ensures pids == old(pids)[name := pid] && DistinctChildren()
    {
      pids := pids[name := pid];
    }

    method Start(gatewayPid: int, serverPid: int)
      requires Disciplined() && pids == map[] && due == None && gatewayPid != serverPid
      modifies this`pids
      ensures Running()
      ensures pids == if hasGateway then map[Gateway := gatewayPid, Server := serverPid] else map[Server := serverPid]
    {
      if hasGateway {
        Spawn(Gateway, gatewayPid);
      }
      Spawn(Server, serverPid);
    }

    /** Reap without interpreting: the reported child, if tracked, is forgotten. */
    method Collect(report: Wait)
      modifies this`pids
      ensures pids == match report
                      case Nothing => old(pids)
                      case NoChildren => map[]
                      case Exited(pid) => map n | n in old(pids) && old(pids)[n] != pid :: old(pids)[n]
    {
      match report
      case Nothing =>
      case NoChildren => pids := map[];
      case Exited(pid) => pids := map n | n in pids && pids[n] != pid :: pids[n];
    }

    /** Collect during the grace period, then after the kill until every child is gone. */
    method Shutdown(polls: seq<Wait>, finals: seq<Wait>) returns (done: bool)
      requires DistinctChildren()
      modifies this`pids
      ensures DistinctChildren() && done == (pids == map[])
      ensures forall n | n in pids :: n in old(pids) && pids[n] == old(pids)[n]
      ensures forall n | n in pids :: Exited(pids[n]) !in polls && Exited(pids[n]) !in finals
      ensures NoChildren in polls || NoChildren in finals ==> done
    {
      var i := 0;
      while pids != map[] && i < |polls|
        invariant 0 <= i <= |polls| && DistinctChildren()
        invariant forall n | n in pids :: n in old(pids) && pids[n] == old(pids)[n]
        invariant forall n | n in pids :: Exited(pids[n]) !in polls[..i]
        invariant NoChildren in polls[..i] ==> pids == map[]
      {
        Collect(polls[i]);
        assert polls[..i + 1] == polls[..i] + [polls[i]];
        i := i + 1;
      }
      var j := 0;
      while pids != map[] && j < |finals|
        invariant 0 <= j <= |finals| && DistinctChildren()
        invariant forall n | n in pids :: n in old(pids) && pids[n] == old(pids)[n]
        invariant forall n | n in pids :: i == |polls| && Exited(pids[n]) !in polls && Exited(pids[n]) !in finals[..j]
        invariant pids != map[] ==> NoChildren !in polls && NoChildren !in finals[..j]
      {
        Collect(finals[j]);
        assert finals[..j + 1] == finals[..j] + [finals[j]];
        j := j + 1;
      }
      done := pids == map[];
    }

    /** Schedule a restart, or give up when too many are recent. */
    method OnGatewayExit(now: real) returns (unrecoverable: bool)
      requires Disciplined() && clock <= now
      modifies this`restarts, this`due, this`history, this`clock
      ensures Disciplined() && clock == now
      ensures unrecoverable <==> CountSince(old(history), now, policy.window) >= policy.maxRestarts
      ensures unrecoverable ==> due == old(due) && history == old(history)
      ensures !unrecoverable ==>
                && history == old(history) + [now]
                && due == Some(now + Delay(policy, CountSince(old(history), now, policy.window)))
    {
      var kept := Recent(restarts, now, policy.window);
      ExitKeeps(history, restarts, clock, now, policy);
      clock := now;
      if |kept| >= policy.maxRestarts {
        restarts := kept;
        return true;
      }
      due := Some(now + Delay(policy, |kept|));
      restarts := kept + [now];
      history := history + [now];
      return false;
    }

    /** When the gateway is to be restarted, given the restarts there were and what was due before. */
    ghost function Scheduled(earlier: seq<real>, later: seq<real>, before: Option<real>): Option<real> {
      if |later| <= |earlier| then before
      else
        var last := later[|later| - 1];
        Some(last + Delay(policy, CountSince(earlier, last, policy.window)))
    }

    /** Handle one reported exit; an orphan changes nothing. */
    method HandleExit(pid: int, now: real) returns (code: Option<Exit>)
      requires Running() && clock <= now
      modifies this`pids, this`restarts, this`due, this`history, this`clock
      ensures code.None? ==> Running()
      ensures code.Some? ==> Disciplined() && DistinctChildren() && code.value in {ServerExited, GatewayUnrecoverable}
      ensures old(clock) <= clock <= now
      ensures code == Some(ServerExited) <==> old(pids)[Server] == pid
      ensures code == Some(GatewayUnrecoverable) <==>
                && Gateway in old(pids) && old(pids)[Gateway] == pid
                && CountSince(old(history), now, policy.window) >= policy.maxRestarts
      ensures (forall n | n in old(pids) :: old(pids)[n] != pid) ==> code.None? && pids == old(pids) && due == old(due)
      ensures forall n | n in pids :: n in old(pids) && pids[n] == old(pids)[n] && pids[n] != pid
      ensures forall n | n in old(pids) && old(pids)[n] != pid :: n in pids
      ensures history == if code.None? && Gateway in old(pids) && old(pids)[Gateway] == pid
                         then old(history) + [now] else old(history)
      ensures code.None? ==> due == Scheduled(old(history), history, old(due))
    {
      if Gateway in pids && pids[Gateway] == pid {
        pids := pids - {Gateway};
        var unrecoverable := OnGatewayExit(now);
        return if unrecoverable then Some(GatewayUnrecoverable) else None;
      }
      if pids[Server] == pid {
        pids := pids - {Server};
        return Some(ServerExited);
      }
      return None;
    }

    /** Where a pass over the reported exits stands, since it began with these children and restarts. */
    ghost predicate Reaped(children: map<Name, int>, earlier: seq<real>, before: Option<real>,
                           gone: set<int>, exited: Option<real>, code: Option<Exit>)
      reads this
    {
      && pids == Left(children, gone)
      && history == (if exited.None? then earlier else earlier + [exited.value])
      && (pids == children ==> code.None? && exited.None?)
      && (code.None? ==>
            && Running() && due == Scheduled(earlier, history, before)
            && (exited.Some? ==> Gateway !in pids))
      && (code.Some? ==> Disciplined() && DistinctChildren() && code.value in {ServerExited, GatewayUnrecoverable})
    }

    /** One more reported exit. */
    method ReapOne(pid: int, now: real, ghost children: map<Name, int>, ghost earlier: seq<real>,
                   ghost before: Option<real>, ghost gone: set<int>, ghost exited: Option<real>)
      returns (code: Option<Exit>, ghost last: Option<real>)
      requires Reaped(children, earlier, before, gone, exited, None) && clock <= now
      modifies this`pids, this`restarts, this`due, this`history, this`clock
      ensures Reaped(children, earlier, before, gone + {pid}, last, code)
      ensures old(clock) <= clock <= now
    {
      ghost var was := history;
      code := HandleExit(pid, now);
      LeftStep(children, gone, pid, pids);
      last := if |history| > |was| then Some(now) else exited;
    }

    /** The reported exits in order, until one of them ends the run. */
    method Reap(exits: seq<int>, times: seq<real>, now: real)
      returns (code: Option<Exit>, ghost handled: nat, ghost exited: Option<real>)
      requires Running() && |exits| == |times| && Ordered(times) && clock <= now
      requires forall i | 0 <= i < |times| :: clock <= times[i] <= now
      modifies this`pids, this`restarts, this`due, this`history, this`clock
      ensures handled <= |exits| && (code.None? ==> handled == |exits|)
      ensures Reaped(old(pids), old(history), old(due), Reported(exits[..handled]), exited, code)
      ensures clock <= now
    {
      var i := 0;
      ghost var gone: set<int> := {};
      code, exited := None, None;
      while i < |exits| && code.None?
        invariant 0 <= i <= |exits| && gone == Reported(exits[..i])
        invariant Reaped(old(pids), old(history), old(due), gone, exited, code)
        invariant clock <= now && forall j | i <= j < |times| :: clock <= times[j]
      {
        ReportedNext(exits, i);
        code, exited := ReapOne(exits[i], times[i], old(pids), old(history), old(due), gone, exited);
        gone := gone + {exits[i]};
        i := i + 1;
      }
      handled := i;
    }

    /** One pass of the policy; an exit code ends the run. */
    method Tick(exits: seq<int>, times: seq<real>, now: real, newPid: int, polls: seq<Wait>, finals: seq<Wait>)
      returns (code: Option<Exit>)
      requires Running() && |exits| == |times| && Ordered(times)
      requires forall i | 0 <= i < |times| :: clock <= times[i] <= now
      requires clock <= now && newPid != pids[Server]
      modifies this`pids, this`restarts, this`due, this`history, this`clock
      ensures code.None? ==> Running()
      ensures Disciplined() && old(history) <= history
      ensures old(stopRequested) ==> code == Some(StoppedOnRequest) && history == old(history)
      ensures !old(stopRequested) && (forall n | n in old(pids) :: old(pids)[n] !in exits) ==> code.None?
      ensures code.None? ==> old(pids)[Server] !in exits && pids[Server] == old(pids)[Server]
      ensures code.None? && Gateway in pids ==>
                || pids[Gateway] == newPid
                || (Gateway in old(pids) && pids[Gateway] == old(pids)[Gateway] && pids[Gateway] !in exits)
      ensures code.None? ==>
                var scheduled := Scheduled(old(history), history, old(due));
                if scheduled.Some? && now >= scheduled.value
                then due.None? && Gateway in pids && pids[Gateway] == newPid
                else
                  && due == scheduled
                  && (Gateway in pids ==> Gateway in old(pids) && pids[Gateway] == old(pids)[Gateway])
    {
      if stopRequested {
        var done := Shutdown(polls, finals);
        return Some(StoppedOnRequest);
      }
      ghost var handled, exited;
      code, handled, exited := Reap(exits, times, now);
      ReportedNext(exits, handled);
      assert (forall n | n in old(pids) :: old(pids)[n] !in exits) ==> pids == old(pids);
      if code.Some? {
        var done := Shutdown(polls, finals);
        return code;
      }
      if hasGateway && due.Some? && now >= due.value {
        due := None;
        Spawn(Gateway, newPid);
      }
    }
  }
}
