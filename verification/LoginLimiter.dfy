/**
 * The in-memory login limiter: sliding windows per address, per user and address, and per user. The
 * clock does not go back in the order in which calls take the lock.
 */
module LoginLimiter {
  import opened Basics

  const IP_LIMIT: nat := 10
  const USER_LIMIT: nat := 5
  const USER_GLOBAL_LIMIT: nat := 30
  const WINDOW := 60_000_000_000

  type Counters = map<string, seq<int>>

  // ---------- Event lists ---------------------------------------------------------------

  function Prune(events: seq<int>, cutoff: int): seq<int> {
    if events == [] || events[0] >= cutoff then events else Prune(events[1..], cutoff)
  }

  method PruneEvents(events: seq<int>, now: int, window: int) returns (kept: seq<int>)
    ensures kept == Prune(events, now - window)
  {
    var cutoff := now - window;
    var idx := 0;
    while idx < |events| && events[idx] < cutoff
      invariant 0 <= idx <= |events|
      invariant Prune(events[idx..], cutoff) == Prune(events, cutoff)
    {
      assert events[idx..][1..] == events[idx + 1..];
      idx := idx + 1;
    }
    kept := events[idx..];
  }

  /** How many events are at or after `cutoff`. */
  ghost function CountSince(h: seq<int>, cutoff: int): nat {
    if h == [] then 0 else CountSince(h[..|h| - 1], cutoff) + if h[|h| - 1] >= cutoff then 1 else 0
  }

  /** How many events lie in the closed interval. */
  ghost function CountIn(h: seq<int>, lo: int, hi: int): nat {
    if h == [] then 0 else CountIn(h[..|h| - 1], lo, hi) + if lo <= h[|h| - 1] <= hi then 1 else 0
  }

  ghost predicate Sorted(h: seq<int>) {
    forall i, j :: 0 <= i < j < |h| ==> h[i] <= h[j]
  }

  lemma {:induction false} CountSinceAppend(a: seq<int>, b: seq<int>, cutoff: int)
    ensures CountSince(a + b, cutoff) == CountSince(a, cutoff) + CountSince(b, cutoff)
    decreases |b|
  {
    if b == [] {
      assert a + b == a;
    } else {
      CountSinceAppend(a, b[..|b| - 1], cutoff);
      assert (a + b)[..|a + b| - 1] == a + b[..|b| - 1];
    }
  }

  lemma {:induction false} AllSince(h: seq<int>, cutoff: int)
    requires forall i :: 0 <= i < |h| ==> h[i] >= cutoff
    ensures CountSince(h, cutoff) == |h|
  {
    if h != [] { AllSince(h[..|h| - 1], cutoff); }
  }

  lemma {:induction false} NoneSince(h: seq<int>, cutoff: int)
    requires forall i :: 0 <= i < |h| ==> h[i] < cutoff
    ensures CountSince(h, cutoff) == 0
  {
    if h != [] { NoneSince(h[..|h| - 1], cutoff); }
  }

  lemma {:induction false} PruneIsSuffix(events: seq<int>, cutoff: int) returns (d: nat)
    ensures d <= |events| && Prune(events, cutoff) == events[d..]
    ensures forall i :: 0 <= i < d ==> events[i] < cutoff
    ensures d < |events| ==> events[d] >= cutoff
  {
    d := 0;
    if events != [] && events[0] < cutoff {
      d := PruneIsSuffix(events[1..], cutoff);
      assert forall i :: 1 <= i < |events| ==> events[i] == events[1..][i - 1];
      assert events[1..][d..] == events[d + 1..];
      d := d + 1;
    }
  }

  lemma {:induction false} FewerIn(h: seq<int>, lo: int, hi: int, cutoff: int)
    requires cutoff <= lo
    ensures CountIn(h, lo, hi) <= CountSince(h, cutoff)
  {
    if h != [] { FewerIn(h[..|h| - 1], lo, hi, cutoff); }
  }

  // ---------- The limiter -----------------------------------------------------------------

  datatype State = State(ip: Counters, un: Counters)

  function Get(m: Counters, key: string): seq<int> {
    if key in m then m[key] else []
  }

  /** Pruning writes the shortened list back. */
  function Pruned(m: Counters, key: string, now: int): Counters {
    if key in m then m[key := Prune(m[key], now - WINDOW)] else m
  }

  function Active(m: Counters, key: string, now: int): nat {
    |Prune(Get(m, key), now - WINDOW)|
  }

  function Recorded(m: Counters, key: string, now: int): Counters {
    m[key := Get(m, key) + [now]]
  }

  function UserIpKey(ip: string, username: string): string {
    username + "|" + ip
  }

  /** The lists after the checks, each of which is made only when the ones before passed. */
  ghost function Checked(s: State, ip: string, username: string, now: int): (State, bool) {
    var s1 := s.(ip := Pruned(s.ip, ip, now));
    if Active(s.ip, ip, now) >= IP_LIMIT then (s1, false)
    else
      var key := UserIpKey(ip, username);
      var s2 := s1.(un := Pruned(s1.un, key, now));
      if Active(s1.un, key, now) >= USER_LIMIT then (s2, false)
      else (s2.(un := Pruned(s2.un, username, now)), Active(s2.un, username, now) < USER_GLOBAL_LIMIT)
  }

  ghost function Allowed(s: State, ip: string, username: string, now: int): (State, bool) {
    var c := Checked(s, ip, username, now);
    if !c.1 then c
    else
      var s1 := c.0.(ip := Recorded(c.0.ip, ip, now));
      (if username == "" then s1 else s1.(un := Recorded(Recorded(s1.un, UserIpKey(ip, username), now), username, now)), true)
  }

  /** The lists that are not empty after pruning, pruned. */
  ghost function Cleaned(m: Counters, now: int): Counters {
    map k | k in m && Prune(m[k], now - WINDOW) != [] :: Prune(m[k], now - WINDOW)
  }

  method CleanCounters(m: Counters, now: int) returns (r: Counters)
    ensures r == Cleaned(m, now)
  {
    r := m;
    var pending := m.Keys;
    while pending != {}
      invariant pending <= m.Keys && r.Keys <= m.Keys
      invariant forall k :: k in pending ==> k in r && r[k] == m[k]
      invariant forall k :: k in m && k !in pending ==> (k in r <==> Prune(m[k], now - WINDOW) != []) && (k in r ==> r[k] == Prune(m[k], now - WINDOW))
      decreases pending
    {
      var k :| k in pending;
      pending := pending - {k};
      var kept := PruneEvents(m[k], now, WINDOW);
      if |kept| == 0 {
        r := r - {k};
      } else {
        r := r[k := kept];
      }
    }
  }

  class Limiter {
    var ipCounts: Counters
    var unCounts: Counters

    constructor ()
      ensures Lists() == State(map[], map[])
    {
      ipCounts, unCounts := map[], map[];
    }

    ghost function Lists(): State
      reads this
    {
      State(ipCounts, unCounts)
    }

    method AllowInMemory(ip: string, username: string, now: int) returns (ok: bool)
      modifies this
      ensures (Lists(), ok) == Allowed(old(Lists()), ip, username, now)
    {
      var n := PruneIp(ip, now);
      if n >= IP_LIMIT { return false; }
      var userIpKey := UserIpKey(ip, username);
      n := PruneUser(userIpKey, now);
      if n >= USER_LIMIT { return false; }
      n := PruneUser(username, now);
      if n >= USER_GLOBAL_LIMIT { return false; }
      ipCounts := ipCounts[ip := Get(ipCounts, ip) + [now]];
      if username != "" {
        unCounts := unCounts[userIpKey := Get(unCounts, userIpKey) + [now]];
        unCounts := unCounts[username := Get(unCounts, username) + [now]];
      }
      ok := true;
    }

    method PruneIp(key: string, now: int) returns (n: nat)
      modifies this`ipCounts
      ensures ipCounts == Pruned(old(ipCounts), key, now) && n == Active(old(ipCounts), key, now)
    {
      if key !in ipCounts { return 0; }
      var kept := PruneEvents(ipCounts[key], now, WINDOW);
      ipCounts := ipCounts[key := kept];
      n := |kept|;
    }

    method PruneUser(key: string, now: int) returns (n: nat)
      modifies this`unCounts
      ensures unCounts == Pruned(old(unCounts), key, now) && n == Active(old(unCounts), key, now)
    {
      if key !in unCounts { return 0; }
      var kept := PruneEvents(unCounts[key], now, WINDOW);
      unCounts := unCounts[key := kept];
      n := |kept|;
    }

    method ResetSuccess(ip: string, username: string)
      modifies this`unCounts
      ensures Lists() == old(Lists()).(un := old(unCounts) - {username + "|" + ip})
    {
      unCounts := unCounts - {UserIpKey(ip, username)};
    }

    method Cleanup(now: int)
      modifies this
      ensures Lists() == State(Cleaned(old(ipCounts), now), Cleaned(old(unCounts), now))
    {
      ipCounts := CleanCounters(ipCounts, now);
      unCounts := CleanCounters(unCounts, now);
    }
  }

  // ---------- Every run ----------------------------------------------------------------------

  datatype Op = Allow(ip: string, username: string, now: int) | Reset(ip: string, username: string) | Cleanup(now: int)

  ghost function Apply(s: State, op: Op): State {
    match op
    case Allow(ip, username, now) => Allowed(s, ip, username, now).0
    case Reset(ip, username) => s.(un := s.un - {UserIpKey(ip, username)})
    case Cleanup(now) => State(Cleaned(s.ip, now), Cleaned(s.un, now))
  }

  ghost function After(ops: seq<Op>, n: nat): State
    requires n <= |ops|
  {
    if n == 0 then State(map[], map[]) else Apply(After(ops, n - 1), ops[n - 1])
  }

  /** Whether step `i` is an attempt that is let through. */
  ghost function LetThrough(ops: seq<Op>, i: nat): bool
    requires i < |ops|
  {
    ops[i].Allow? && Allowed(After(ops, i), ops[i].ip, ops[i].username, ops[i].now).1
  }

  /** `log` says of every step whether it let an attempt through. */
  ghost predicate Logged(ops: seq<Op>, log: seq<bool>) {
    |log| == |ops| && forall i {:trigger LetThrough(ops, i)} :: 0 <= i < |ops| ==> log[i] == LetThrough(ops, i)
  }

  /** The times of all accepted attempts from `ip`. */
  ghost function IpHistory(ops: seq<Op>, log: seq<bool>, n: nat, ip: string): seq<int>
    requires n <= |ops| == |log|
  {
    if n == 0 then [] else IpAfter(IpHistory(ops, log, n - 1, ip), ops[n - 1], log[n - 1], ip)
  }

  ghost function IpAfter(h: seq<int>, op: Op, accepted: bool, ip: string): seq<int> {
    if op.Allow? && accepted && op.ip == ip then h + [op.now] else h
  }

  /** The times of all accepted attempts for `username`. */
  ghost function UserHistory(ops: seq<Op>, log: seq<bool>, n: nat, username: string): seq<int>
    requires n <= |ops| == |log|
  {
    if n == 0 then []
    else
      var op, before := ops[n - 1], UserHistory(ops, log, n - 1, username);
      if op.Allow? && log[n - 1] && op.username == username then before + [op.now] else before
  }

  /** An accepted attempt is counted under this key: its user-and-address key or its user name. */
  ghost predicate CountsFor(op: Op, key: string) {
    op.Allow? && op.username != "" && (key == op.username || key == op.username + "|" + op.ip)
  }

  /** Everything counted under `key` since it was last reset. */
  ghost function KeyHistory(ops: seq<Op>, log: seq<bool>, n: nat, key: string): seq<int>
    requires n <= |ops| == |log|
  {
    if n == 0 then [] else KeyAfter(KeyHistory(ops, log, n - 1, key), ops[n - 1], log[n - 1], key)
  }

  ghost function KeyAfter(h: seq<int>, op: Op, accepted: bool, key: string): seq<int> {
    if op.Reset? && key == op.username + "|" + op.ip then []
    else if accepted && CountsFor(op, key) then h + [op.now]
    else h
  }

  ghost predicate Timed(op: Op) {
    !op.Reset?
  }

  ghost predicate InOrder(ops: seq<Op>, i: nat, j: nat)
    requires i < |ops| && j < |ops|
  {
    Timed(ops[i]) && Timed(ops[j]) ==> ops[i].now <= ops[j].now
  }

  ghost predicate ClockOk(ops: seq<Op>) {
    forall i, j {:trigger InOrder(ops, i, j)} :: 0 <= i <= j < |ops| ==> InOrder(ops, i, j)
  }

  /** The stored list is the history without a prefix that has left the window at `t`. */
  ghost predicate Suffix(h: seq<int>, stored: seq<int>, t: int) {
    && |stored| <= |h| && stored == h[|h| - |stored|..]
    && forall i :: 0 <= i < |h| - |stored| ==> h[i] < t - WINDOW
  }

  /** A history of which the first `e` events are too old and the others are not. */
  lemma CountFrom(h: seq<int>, e: nat, cutoff: int)
    requires e <= |h| && (forall i :: 0 <= i < e ==> h[i] < cutoff) && (forall i :: e <= i < |h| ==> h[i] >= cutoff)
    ensures CountSince(h, cutoff) == |h| - e
  {
    assert h == h[..e] + h[e..];
    CountSinceAppend(h[..e], h[e..], cutoff);
    NoneSince(h[..e], cutoff);
    AllSince(h[e..], cutoff);
  }

  /** Where the pruned list starts in the history. */
  lemma PrunedAt(h: seq<int>, stored: seq<int>, t: int, now: int) returns (e: nat)
    requires Suffix(h, stored, t) && t <= now && Sorted(h)
    ensures e <= |h| && Prune(stored, now - WINDOW) == h[e..]
    ensures forall i :: 0 <= i < e ==> h[i] < now - WINDOW
    ensures forall i :: e <= i < |h| ==> h[i] >= now - WINDOW
  {
    var cutoff, first := now - WINDOW, |h| - |stored|;
    var d := PruneIsSuffix(stored, cutoff);
    e := first + d;
    assert h[first..][d..] == h[e..];
    forall i | 0 <= i < e ensures h[i] < cutoff {
      if i >= first { assert h[i] == stored[i - first]; }
    }
    if e < |h| { assert h[e] == stored[d]; }
  }

  /** A stored list tells as much about the window as the whole history. */
  lemma ActiveIsCount(h: seq<int>, stored: seq<int>, t: int, now: int)
    requires Suffix(h, stored, t) && t <= now && Sorted(h)
    ensures |Prune(stored, now - WINDOW)| == CountSince(h, now - WINDOW)
    ensures Suffix(h, Prune(stored, now - WINDOW), now)
  {
    var e := PrunedAt(h, stored, t, now);
    CountFrom(h, e, now - WINDOW);
  }

  lemma SuffixLater(h: seq<int>, stored: seq<int>, t: int, now: int)
    requires Suffix(h, stored, t) && t <= now
    ensures Suffix(h, stored, now)
  {}

  lemma SuffixAppend(h: seq<int>, stored: seq<int>, t: int, x: int)
    requires Suffix(h, stored, t)
    ensures Suffix(h + [x], stored + [x], t)
  {}

  // ---------- Stored lists against the history ---------------------------------------------------

  ghost predicate HistoryOk(h: seq<int>, t: int) {
    Sorted(h) && forall i :: 0 <= i < |h| ==> h[i] <= t
  }

  lemma PrunedKeeps(m: Counters, pruned: string, now: int, key: string, h: seq<int>, t: int)
    requires Suffix(h, Get(m, key), t) && t <= now && Sorted(h)
    ensures Suffix(h, Get(Pruned(m, pruned, now), key), now)
    ensures Active(m, key, now) == CountSince(h, now - WINDOW)
    ensures Active(Pruned(m, pruned, now), key, now) == CountSince(h, now - WINDOW)
  {
    ActiveIsCount(h, Get(m, key), t, now);
    SuffixLater(h, Get(m, key), t, now);
    ActiveIsCount(h, Get(Pruned(m, pruned, now), key), now, now);
  }

  lemma CleanedKeeps(m: Counters, now: int, key: string, h: seq<int>, t: int)
    requires Suffix(h, Get(m, key), t) && t <= now && Sorted(h)
    ensures Suffix(h, Get(Cleaned(m, now), key), now)
  {
    ActiveIsCount(h, Get(m, key), t, now);
  }

  /** The checks, from the whole history. */
  lemma CheckedDecides(s: State, ip: string, username: string, now: int, t: int, hIp: seq<int>, hKey: seq<int>, hUser: seq<int>)
    requires t <= now && Sorted(hIp) && Sorted(hKey) && Sorted(hUser)
    requires Suffix(hIp, Get(s.ip, ip), t) && Suffix(hKey, Get(s.un, UserIpKey(ip, username)), t) && Suffix(hUser, Get(s.un, username), t)
    ensures Checked(s, ip, username, now).1 <==>
              && CountSince(hIp, now - WINDOW) < IP_LIMIT
              && CountSince(hKey, now - WINDOW) < USER_LIMIT
              && CountSince(hUser, now - WINDOW) < USER_GLOBAL_LIMIT
  {
    var key := UserIpKey(ip, username);
    PrunedKeeps(s.ip, ip, now, ip, hIp, t);
    PrunedKeeps(s.un, key, now, key, hKey, t);
    PrunedKeeps(s.un, key, now, username, hUser, t);
  }

  lemma CheckedKeepsIp(s: State, ip: string, username: string, now: int, key: string, h: seq<int>, t: int)
    requires Suffix(h, Get(s.ip, key), t) && t <= now && Sorted(h)
    ensures Suffix(h, Get(Checked(s, ip, username, now).0.ip, key), now)
  {
    PrunedKeeps(s.ip, ip, now, key, h, t);
  }

  lemma CheckedKeepsUn(s: State, ip: string, username: string, now: int, key: string, h: seq<int>, t: int)
    requires Suffix(h, Get(s.un, key), t) && t <= now && Sorted(h)
    ensures Suffix(h, Get(Checked(s, ip, username, now).0.un, key), now)
  {
    SuffixLater(h, Get(s.un, key), t, now);
    PrunedKeeps(s.un, UserIpKey(ip, username), now, key, h, t);
    PrunedKeeps(Pruned(s.un, UserIpKey(ip, username), now), username, now, key, h, now);
  }

  lemma AllowKeepsIp(s: State, op: Op, ip: string, h: seq<int>, t: int)
    requires op.Allow? && t <= op.now && HistoryOk(h, t) && Suffix(h, Get(s.ip, ip), t)
    ensures Suffix(IpAfter(h, op, Allowed(s, op.ip, op.username, op.now).1, ip), Get(Allowed(s, op.ip, op.username, op.now).0.ip, ip), op.now)
  {
    CheckedKeepsIp(s, op.ip, op.username, op.now, ip, h, t);
    SuffixAppend(h, Get(Checked(s, op.ip, op.username, op.now).0.ip, ip), op.now, op.now);
  }

  lemma AllowKeepsKey(s: State, op: Op, key: string, h: seq<int>, t: int)
    requires op.Allow? && t <= op.now && HistoryOk(h, t) && Suffix(h, Get(s.un, key), t)
    ensures Suffix(KeyAfter(h, op, Allowed(s, op.ip, op.username, op.now).1, key), Get(Allowed(s, op.ip, op.username, op.now).0.un, key), op.now)
  {
    var c := Checked(s, op.ip, op.username, op.now);
    CheckedKeepsUn(s, op.ip, op.username, op.now, key, h, t);
    SuffixAppend(h, Get(c.0.un, key), op.now, op.now);
    KeysDiffer(op.ip, op.username);
    RecordedTwice(c.0.un, UserIpKey(op.ip, op.username), op.username, op.now, key);
  }

  lemma KeysDiffer(ip: string, username: string)
    ensures UserIpKey(ip, username) != username
  {}

  lemma RecordedTwice(m: Counters, a: string, b: string, now: int, key: string)
    requires a != b
    ensures Get(Recorded(Recorded(m, a, now), b, now), key) == if key == a || key == b then Get(m, key) + [now] else Get(m, key)
  {}

  ghost function TimeAfter(op: Op, t: int): int {
    if Timed(op) then op.now else t
  }

  lemma IpStep(s: State, op: Op, accepted: bool, ip: string, h: seq<int>, t: int)
    requires HistoryOk(h, t) && Suffix(h, Get(s.ip, ip), t) && t <= TimeAfter(op, t)
    requires op.Allow? ==> accepted == Allowed(s, op.ip, op.username, op.now).1
    ensures Suffix(IpAfter(h, op, accepted, ip), Get(Apply(s, op).ip, ip), TimeAfter(op, t))
  {
    match op
    case Allow(_, _, _) => AllowKeepsIp(s, op, ip, h, t);
    case Reset(_, _) =>
    case Cleanup(now) => CleanedKeeps(s.ip, now, ip, h, t);
  }

  lemma KeyStep(s: State, op: Op, accepted: bool, key: string, h: seq<int>, t: int)
    requires HistoryOk(h, t) && Suffix(h, Get(s.un, key), t) && t <= TimeAfter(op, t)
    requires op.Allow? ==> accepted == Allowed(s, op.ip, op.username, op.now).1
    ensures Suffix(KeyAfter(h, op, accepted, key), Get(Apply(s, op).un, key), TimeAfter(op, t))
  {
    match op
    case Allow(_, _, _) => AllowKeepsKey(s, op, key, h, t);
    case Reset(ip, username) => ResetKeeps(s.un, UserIpKey(ip, username), key, h, t);
    case Cleanup(now) => CleanedKeeps(s.un, now, key, h, t);
  }

  lemma ResetKeeps(m: Counters, reset: string, key: string, h: seq<int>, t: int)
    requires Suffix(h, Get(m, key), t)
    ensures Suffix(if key == reset then [] else h, Get(m - {reset}, key), t)
  {}

  lemma HistoryPush(h: seq<int>, t: int, now: int)
    requires HistoryOk(h, t) && t <= now
    ensures HistoryOk(h, now) && HistoryOk(h + [now], now)
  {}

  /** The time of the latest timed step, or `floor`. */
  ghost function Latest(ops: seq<Op>, n: nat, floor: int): int
    requires n <= |ops|
  {
    if n == 0 then floor else if Timed(ops[n - 1]) then ops[n - 1].now else Latest(ops, n - 1, floor)
  }

  lemma {:induction false} LatestBelow(ops: seq<Op>, n: nat, floor: int, now: int)
    requires n <= |ops| && floor <= now && forall i :: 0 <= i < n && Timed(ops[i]) ==> ops[i].now <= now
    ensures Latest(ops, n, floor) <= now
  {
    if n > 0 { LatestBelow(ops, n - 1, floor, now); }
  }

  /** Nothing is ever timed before `floor`. */
  ghost predicate From(ops: seq<Op>, floor: int) {
    forall i :: 0 <= i < |ops| && Timed(ops[i]) ==> floor <= ops[i].now
  }

  lemma LatestStep(ops: seq<Op>, n: nat, floor: int)
    requires n < |ops| && ClockOk(ops) && From(ops, floor)
    ensures Timed(ops[n]) ==> Latest(ops, n, floor) <= ops[n].now
  {
    if Timed(ops[n]) {
      forall i | 0 <= i < n && Timed(ops[i]) ensures ops[i].now <= ops[n].now { assert InOrder(ops, i, n); }
      LatestBelow(ops, n, floor, ops[n].now);
    }
  }

  lemma {:induction false} IpListsAreSuffixes(ops: seq<Op>, log: seq<bool>, n: nat, ip: string, floor: int)
    requires n <= |ops| && ClockOk(ops) && From(ops, floor) && Logged(ops, log)
    ensures HistoryOk(IpHistory(ops, log, n, ip), Latest(ops, n, floor))
    ensures Suffix(IpHistory(ops, log, n, ip), Get(After(ops, n).ip, ip), Latest(ops, n, floor))
  {
    if n > 0 {
      var i, t := n - 1, Latest(ops, n - 1, floor);
      IpListsAreSuffixes(ops, log, i, ip, floor);
      LatestStep(ops, i, floor);
      assert log[i] == LetThrough(ops, i);
      HistoryPush(IpHistory(ops, log, i, ip), t, TimeAfter(ops[i], t));
      IpStep(After(ops, i), ops[i], log[i], ip, IpHistory(ops, log, i, ip), t);
    }
  }

  lemma {:induction false} KeyListsAreSuffixes(ops: seq<Op>, log: seq<bool>, n: nat, key: string, floor: int)
    requires n <= |ops| && ClockOk(ops) && From(ops, floor) && Logged(ops, log)
    ensures HistoryOk(KeyHistory(ops, log, n, key), Latest(ops, n, floor))
    ensures Suffix(KeyHistory(ops, log, n, key), Get(After(ops, n).un, key), Latest(ops, n, floor))
  {
    if n > 0 {
      var i, t := n - 1, Latest(ops, n - 1, floor);
      KeyListsAreSuffixes(ops, log, i, key, floor);
      LatestStep(ops, i, floor);
      assert log[i] == LetThrough(ops, i);
      HistoryPush(KeyHistory(ops, log, i, key), t, TimeAfter(ops[i], t));
      KeyStep(After(ops, i), ops[i], log[i], key, KeyHistory(ops, log, i, key), t);
    }
  }

  lemma {:induction false} HasFloor(ops: seq<Op>, n: nat) returns (floor: int)
    requires n <= |ops|
    ensures forall i :: 0 <= i < n && Timed(ops[i]) ==> floor <= ops[i].now
  {
    floor := 0;
    if n > 0 {
      floor := HasFloor(ops, n - 1);
      if Timed(ops[n - 1]) && ops[n - 1].now < floor { floor := ops[n - 1].now; }
    }
  }

  /** Whether an attempt is allowed, from all accepted attempts. */
  ghost predicate HistoryAllows(ops: seq<Op>, log: seq<bool>, n: nat)
    requires n < |ops| == |log| && ops[n].Allow?
  {
    var op, cutoff := ops[n], ops[n].now - 60_000_000_000;
    && CountSince(IpHistory(ops, log, n, op.ip), cutoff) < 10
    && CountSince(KeyHistory(ops, log, n, op.username + "|" + op.ip), cutoff) < 5
    && CountSince(KeyHistory(ops, log, n, op.username), cutoff) < 30
  }

  /**
   * The pruned lists refine the full history: over every run with cleanups and resets, each attempt is
   * decided as if every accepted attempt were still stored.
   */
  lemma DecidedByHistory(ops: seq<Op>, log: seq<bool>, n: nat)
    requires n < |ops| && ClockOk(ops) && Logged(ops, log) && ops[n].Allow?
    ensures log[n] <==> HistoryAllows(ops, log, n)
  {
    var op := ops[n];
    var key := UserIpKey(op.ip, op.username);
    var floor := HasFloor(ops, |ops|);
    IpListsAreSuffixes(ops, log, n, op.ip, floor);
    KeyListsAreSuffixes(ops, log, n, key, floor);
    KeyListsAreSuffixes(ops, log, n, op.username, floor);
    LatestStep(ops, n, floor);
    assert log[n] == LetThrough(ops, n);
    CheckedDecides(After(ops, n), op.ip, op.username, op.now, Latest(ops, n, floor),
                   IpHistory(ops, log, n, op.ip), KeyHistory(ops, log, n, key), KeyHistory(ops, log, n, op.username));
  }

  // ---------- Window bounds --------------------------------------------------------------------------

  lemma CountInPush(h: seq<int>, x: int, lo: int, hi: int)
    ensures CountIn(h + [x], lo, hi) == CountIn(h, lo, hi) + if lo <= x <= hi then 1 else 0
  {}

  /** One more event, let in while fewer than `limit` were in its window, keeps every window within the limit. */
  lemma PushWithinLimit(h: seq<int>, x: int, lo: int, limit: nat)
    requires CountIn(h, lo, lo + WINDOW) <= limit && CountSince(h, x - WINDOW) < limit
    ensures CountIn(h + [x], lo, lo + WINDOW) <= limit
  {
    CountInPush(h, x, lo, lo + WINDOW);
    if x <= lo + WINDOW { FewerIn(h, lo, lo + WINDOW, x - WINDOW); }
  }

  /** No closed interval of one window holds more than ten accepted attempts from one address. */
  lemma {:induction false} IpWindowBound(ops: seq<Op>, log: seq<bool>, n: nat, ip: string, lo: int)
    requires n <= |ops| && ClockOk(ops) && Logged(ops, log)
    ensures CountIn(IpHistory(ops, log, n, ip), lo, lo + 60_000_000_000) <= 10
  {
    if n > 0 {
      var i := n - 1;
      IpWindowBound(ops, log, i, ip, lo);
      if ops[i].Allow? && log[i] && ops[i].ip == ip {
        DecidedByHistory(ops, log, i);
        PushWithinLimit(IpHistory(ops, log, i, ip), ops[i].now, lo, IP_LIMIT);
      }
    }
  }

  /** Since the last reset, no closed interval of one window holds more than five for a user and address, unless the two read like the name of another attempt. */
  lemma {:induction false} PairWindowBound(ops: seq<Op>, log: seq<bool>, n: nat, ip: string, username: string, lo: int)
    requires n <= |ops| && ClockOk(ops) && Logged(ops, log)
    requires forall i {:trigger ops[i]} :: 0 <= i < n && ops[i].Allow? ==> ops[i].username != username + "|" + ip
    ensures CountIn(KeyHistory(ops, log, n, username + "|" + ip), lo, lo + 60_000_000_000) <= 5
  {
    if n > 0 {
      var i, key := n - 1, username + "|" + ip;
      PairWindowBound(ops, log, i, ip, username, lo);
      if ops[i].Allow? && log[i] && CountsFor(ops[i], key) {
        DecidedByHistory(ops, log, i);
        PushWithinLimit(KeyHistory(ops, log, i, key), ops[i].now, lo, USER_LIMIT);
      }
    }
  }

  /** All attempts and resets come from these addresses. */
  ghost predicate FromAddresses(ops: seq<Op>, addresses: iset<string>) {
    forall i {:trigger ops[i]} :: 0 <= i < |ops| && !ops[i].Cleanup? ==> ops[i].ip in addresses
  }

  /** The name does not read like some name, the separator and one of the addresses. */
  ghost predicate Apart(username: string, addresses: iset<string>) {
    forall ip, u :: ip in addresses ==> username != u + "|" + ip
  }

  ghost predicate NoSeparator(username: string) {
    forall i :: 0 <= i < |username| ==> username[i] != '|'
  }

  /** A name without separator is, whatever the addresses. */
  lemma PlainIsApart(username: string, addresses: iset<string>)
    requires NoSeparator(username)
    ensures Apart(username, addresses)
  {
    forall ip, u | ip in addresses ensures username != u + "|" + ip {
      assert (u + "|" + ip)[|u|] == '|';
    }
  }

  /** Nothing else is counted under such a name and nothing resets it. */
  lemma {:induction false} UserKeyIsUser(ops: seq<Op>, log: seq<bool>, n: nat, username: string, addresses: iset<string>)
    requires n <= |ops| == |log| && FromAddresses(ops, addresses) && username != "" && Apart(username, addresses)
    ensures KeyHistory(ops, log, n, username) == UserHistory(ops, log, n, username)
  {
    if n > 0 {
      UserKeyIsUser(ops, log, n - 1, username, addresses);
      if !ops[n - 1].Cleanup? { assert username != UserIpKey(ops[n - 1].ip, ops[n - 1].username); }
    }
  }

  /** An attempt for such a name is let through only while fewer than thirty were in its window. */
  lemma UserLetThrough(ops: seq<Op>, log: seq<bool>, i: nat, username: string, addresses: iset<string>)
    requires i < |ops| && ClockOk(ops) && Logged(ops, log) && FromAddresses(ops, addresses) && username != "" && Apart(username, addresses)
    requires ops[i].Allow? && log[i] && ops[i].username == username
    ensures CountSince(UserHistory(ops, log, i, username), ops[i].now - WINDOW) < USER_GLOBAL_LIMIT
  {
    DecidedByHistory(ops, log, i);
    UserKeyIsUser(ops, log, i, username, addresses);
  }

  /** No closed interval of one window holds more than thirty accepted attempts for one such name. */
  lemma {:induction false} UserWindowBound(ops: seq<Op>, log: seq<bool>, n: nat, username: string, addresses: iset<string>, lo: int)
    requires n <= |ops| && ClockOk(ops) && Logged(ops, log) && FromAddresses(ops, addresses) && username != "" && Apart(username, addresses)
    ensures CountIn(UserHistory(ops, log, n, username), lo, lo + 60_000_000_000) <= 30
  {
    if n > 0 {
      var i := n - 1;
      var h := UserHistory(ops, log, i, username);
      UserWindowBound(ops, log, i, username, addresses, lo);
      if ops[i].Allow? && log[i] && ops[i].username == username {
        UserLetThrough(ops, log, i, username, addresses);
        PushWithinLimit(h, ops[i].now, lo, USER_GLOBAL_LIMIT);
        assert UserHistory(ops, log, n, username) == h + [ops[i].now];
      }
    }
  }

  // ---------- Which names are bounded ----------------------------------------------------------------

  /** In this run, no window of one minute starting at `lo` holds more than thirty accepted attempts for the name. */
  ghost predicate Within(ops: seq<Op>, log: seq<bool>, n: nat, username: string, lo: int) {
    n <= |ops| && ClockOk(ops) && Logged(ops, log) ==> CountIn(UserHistory(ops, log, n, username), lo, lo + 60_000_000_000) <= 30
  }

  /** The bound holds over all runs with attempts and resets from these addresses. */
  ghost predicate AlwaysBounded(username: string, addresses: iset<string>) {
    forall ops, log, n: nat, lo {:trigger Within(ops, log, n, username, lo), FromAddresses(ops, addresses)} ::
      FromAddresses(ops, addresses) ==> Within(ops, log, n, username, lo)
  }

  ghost function MakeLog(ops: seq<Op>): (log: seq<bool>)
    ensures Logged(ops, log)
  {
    seq(|ops|, i requires 0 <= i < |ops| => LetThrough(ops, i))
  }

  /** The first `m` steps are attempts for the name at time `t`, each from another address of the pool. */
  ghost predicate Flood(ops: seq<Op>, pool: seq<string>, username: string, m: nat, t: int) {
    m <= |ops| && m <= |pool| && Distinct(pool) && forall i :: 0 <= i < m ==> ops[i] == Allow(pool[i], username, t)
  }

  lemma DistinctKeys(a: string, b: string, username: string)
    requires a != b
    ensures UserIpKey(a, username) != UserIpKey(b, username)
  {
    assert UserIpKey(a, username)[|username| + 1..] == a && UserIpKey(b, username)[|username| + 1..] == b;
  }

  /** An address that has not been used yet has no history, alone or with the name. */
  lemma {:induction false} FreshAddress(ops: seq<Op>, log: seq<bool>, pool: seq<string>, username: string, m: nat, t: int, k: nat, j: nat)
    requires Flood(ops, pool, username, m, t) && Logged(ops, log) && k <= m && k <= j < |pool|
    ensures IpHistory(ops, log, k, pool[j]) == [] && KeyHistory(ops, log, k, UserIpKey(pool[j], username)) == []
  {
    if k > 0 {
      FreshAddress(ops, log, pool, username, m, t, k - 1, j);
      DistinctKeys(pool[k - 1], pool[j], username);
      KeysDiffer(pool[j], username);
    }
  }

  lemma {:induction false} CountSinceAtMost(h: seq<int>, cutoff: int)
    ensures CountSince(h, cutoff) <= |h|
  {
    if h != [] { CountSinceAtMost(h[..|h| - 1], cutoff); }
  }

  lemma {:induction false} EmptyNameUncounted(ops: seq<Op>, log: seq<bool>, n: nat)
    requires n <= |ops| == |log| && forall i :: 0 <= i < |ops| ==> ops[i].Allow?
    ensures KeyHistory(ops, log, n, "") == []
  {
    if n > 0 { EmptyNameUncounted(ops, log, n - 1); }
  }

  /** `n` events at the same time. */
  function Times(n: nat, t: int): (h: seq<int>)
    ensures |h| == n
  {
    if n == 0 then [] else Times(n - 1, t) + [t]
  }

  lemma {:induction false} CountTimes(n: nat, t: int, lo: int, hi: int)
    requires lo <= t <= hi
    ensures CountIn(Times(n, t), lo, hi) == n
  {
    if n > 0 {
      var before := Times(n - 1, t);
      CountTimes(n - 1, t, lo, hi);
      CountInPush(before, t, lo, hi);
      assert Times(n, t) == before + [t];
    }
  }

  /** Attempts for one name from ever new addresses are all let through, up to thirty; without limit for the empty name. */
  lemma {:induction false} FloodAccepted(ops: seq<Op>, log: seq<bool>, pool: seq<string>, username: string, m: nat, t: int, k: nat)
    requires Flood(ops, pool, username, m, t) && Logged(ops, log) && ClockOk(ops) && k <= m
    requires (username == "" && |ops| == m) || m <= USER_GLOBAL_LIMIT
    ensures UserHistory(ops, log, k, username) == Times(k, t)
    ensures |KeyHistory(ops, log, k, username)| <= k
  {
    if k > 0 {
      var i := k - 1;
      FloodAccepted(ops, log, pool, username, m, t, i);
      FreshAddress(ops, log, pool, username, m, t, i, i);
      if |ops| == m && username == "" { EmptyNameUncounted(ops, log, i); }
      CountSinceAtMost(KeyHistory(ops, log, i, username), t - WINDOW);
      DecidedByHistory(ops, log, i);
    }
  }

  ghost predicate Pool(pool: seq<string>, addresses: iset<string>) {
    Distinct(pool) && forall i :: 0 <= i < |pool| ==> pool[i] in addresses
  }

  /** As many attempts with an empty name as there are addresses can be let through at one moment. */
  lemma EmptyNameUnbounded(pool: seq<string>, addresses: iset<string>, t: int) returns (ops: seq<Op>, log: seq<bool>)
    requires Pool(pool, addresses)
    ensures ClockOk(ops) && Logged(ops, log) && FromAddresses(ops, addresses)
    ensures |ops| == |pool| && CountIn(UserHistory(ops, log, |ops|, ""), t, t + WINDOW) == |pool|
  {
    var m := |pool|;
    ops := seq(m, i requires 0 <= i < m => Allow(pool[i], "", t));
    log := MakeLog(ops);
    FloodAccepted(ops, log, pool, "", m, t, m);
    CountTimes(m, t, t, t + WINDOW);
  }

  /** Thirty attempts for a name, a success that resets its counter, and one more attempt: all are let through. */
  ghost predicate FloodAndReset(ops: seq<Op>, pool: seq<string>, user: string, ip: string, t: int) {
    var name, m := UserIpKey(ip, user), USER_GLOBAL_LIMIT;
    |ops| == m + 2 && m < |pool| && Flood(ops, pool, name, m, t) && ops[m] == Reset(ip, user) && ops[m + 1] == Allow(pool[m], name, t)
  }

  lemma OneMoreLetThrough(ops: seq<Op>, log: seq<bool>, pool: seq<string>, user: string, ip: string, t: int)
    requires FloodAndReset(ops, pool, user, ip, t) && Logged(ops, log) && ClockOk(ops)
    ensures log[USER_GLOBAL_LIMIT + 1]
  {
    var name, m := UserIpKey(ip, user), USER_GLOBAL_LIMIT;
    FreshAddress(ops, log, pool, name, m, t, m, m);
    KeysDiffer(pool[m], name);
    assert KeyHistory(ops, log, m + 1, name) == [];
    assert KeyHistory(ops, log, m + 1, UserIpKey(pool[m], name)) == [];
    assert IpHistory(ops, log, m + 1, pool[m]) == [];
    DecidedByHistory(ops, log, m + 1);
  }

  lemma FloodAndResetCounts(ops: seq<Op>, log: seq<bool>, pool: seq<string>, user: string, ip: string, t: int)
    requires FloodAndReset(ops, pool, user, ip, t) && Logged(ops, log) && ClockOk(ops)
    ensures CountIn(UserHistory(ops, log, |ops|, UserIpKey(ip, user)), t, t + WINDOW) == USER_GLOBAL_LIMIT + 1
  {
    var name, m := UserIpKey(ip, user), USER_GLOBAL_LIMIT;
    FloodAccepted(ops, log, pool, name, m, t, m);
    OneMoreLetThrough(ops, log, pool, user, ip, t);
    assert UserHistory(ops, log, m + 1, name) == Times(m, t);
    assert UserHistory(ops, log, m + 2, name) == Times(m + 1, t);
    CountTimes(m + 1, t, t, t + WINDOW);
  }

  /** A name that reads like another user's name and address: that user's success resets its counter. */
  lemma SeparatorUnbounded(pool: seq<string>, addresses: iset<string>, user: string, ip: string, t: int) returns (ops: seq<Op>, log: seq<bool>)
    requires Pool(pool, addresses) && |pool| > USER_GLOBAL_LIMIT && ip in addresses
    ensures ClockOk(ops) && Logged(ops, log) && FromAddresses(ops, addresses)
    ensures CountIn(UserHistory(ops, log, |ops|, UserIpKey(ip, user)), t, t + WINDOW) == USER_GLOBAL_LIMIT + 1
  {
    var name, m := UserIpKey(ip, user), USER_GLOBAL_LIMIT;
    ops := seq(m, i requires 0 <= i < m => Allow(pool[i], name, t)) + [Reset(ip, user), Allow(pool[m], name, t)];
    log := MakeLog(ops);
    FloodAndResetCounts(ops, log, pool, user, ip, t);
  }

  /**
   * When attempts can come from more than thirty addresses, the thirty-per-minute bound holds over all runs
   * exactly for the nonempty names that do not end in the separator and one of those addresses.
   */
  lemma BoundedIffApart(username: string, addresses: iset<string>, pool: seq<string>)
    requires Pool(pool, addresses) && |pool| > USER_GLOBAL_LIMIT
    ensures AlwaysBounded(username, addresses) <==> username != "" && Apart(username, addresses)
  {
    if username == "" {
      var ops, log := EmptyNameUnbounded(pool, addresses, 0);
      assert !Within(ops, log, |ops|, username, 0);
    } else if Apart(username, addresses) {
      forall ops, log, n: nat, lo | FromAddresses(ops, addresses) ensures Within(ops, log, n, username, lo) {
        if n <= |ops| && ClockOk(ops) && Logged(ops, log) { UserWindowBound(ops, log, n, username, addresses, lo); }
      }
    } else {
      var ip, u :| ip in addresses && username == u + "|" + ip;
      var ops, log := SeparatorUnbounded(pool, addresses, u, ip, 0);
      assert !Within(ops, log, |ops|, username, 0);
    }
  }
}
