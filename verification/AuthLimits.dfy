/** The limiter of failed authentications, against the full history of failures. */
module AuthLimits {

  /** Times are in nanoseconds of a clock that never goes back. */
  const LIMIT: nat := 10
  const WINDOW: nat := 60_000_000_000
  const BAN: nat := 60_000_000_000
  const MAX_HOSTS: nat := 4096

  /** What ever happened: a failure of a host, and whether it got the host
      blocked; or the failure lists dropped because there were too many. */
  datatype Event = Failure(host: string, time: int, blocks: bool) | Dropped

  /** The times of a host's failures since it was last blocked, or since the lists were dropped. */
  function Since(h: seq<Event>, host: string): seq<int>
    decreases |h|
  {
    if h == [] then []
    else
      var e, earlier := h[|h| - 1], h[..|h| - 1];
      if e.Dropped? then []
      else if e.host != host then Since(earlier, host)
      else if e.blocks then []
      else Since(earlier, host) + [e.time]
  }

  /** The times less than a window before now. */
  function Within(ts: seq<int>, now: int): seq<int> {
    if ts == [] then []
    else Within(ts[..|ts| - 1], now) + if now - ts[|ts| - 1] < WINDOW then [ts[|ts| - 1]] else []
  }

  /** Some failure of the host got it blocked less than the ban before now. */
  ghost predicate Banned(h: seq<Event>, host: string, now: int) {
    exists k :: 0 <= k < |h| && h[k].Failure? && h[k].host == host && h[k].blocks && now < h[k].time + BAN
  }

  /** The events are in the order of the clock, none after now. */
  ghost predicate Clocked(h: seq<Event>, now: int) {
    (forall k :: 0 <= k < |h| && h[k].Failure? ==> h[k].time <= now)
  }

  lemma {:induction false} WithinAppend(ts: seq<int>, t: int, now: int)
    ensures Within(ts + [t], now) == Within(ts, now) + if now - t < WINDOW then [t] else []
  {
    assert (ts + [t])[..|ts|] == ts;
  }

  /** Pruning early loses nothing that a later look would count. */
  lemma {:induction false} PruneKeeps(ts: seq<int>, now: int, later: int)
    requires now <= later
    ensures Within(Within(ts, now), later) == Within(ts, later)
  {
    if ts != [] {
      var t, init := ts[|ts| - 1], ts[..|ts| - 1];
      PruneKeeps(init, now, later);
      if now - t < WINDOW {
        WithinAppend(Within(init, now), t, later);
      } else {
        assert Within(init, now) + [] == Within(init, now);
        assert Within(init, later) + [] == Within(init, later);
      }
    }
  }

  lemma {:induction false} WithinShorter(ts: seq<int>, now: int)
    ensures |Within(ts, now)| <= |ts|
  {
    if ts != [] {
      WithinShorter(ts[..|ts| - 1], now);
    }
  }

  lemma SinceAppend(h: seq<Event>, e: Event, host: string)
    ensures Since(h + [e], host) ==
            if e.Dropped? then []
            else if e.host != host then Since(h, host)
            else if e.blocks then []
            else Since(h, host) + [e.time]
  {
    assert (h + [e])[..|h|] == h;
  }

  lemma BannedAppend(h: seq<Event>, e: Event, host: string, now: int)
    ensures Banned(h + [e], host, now) <==>
            Banned(h, host, now) || (e.Failure? && e.host == host && e.blocks && now < e.time + BAN)
  {
    if Banned(h, host, now) {
      var k :| 0 <= k < |h| && h[k].Failure? && h[k].host == host && h[k].blocks && now < h[k].time + BAN;
      assert (h + [e])[k] == h[k];
    }
    if e.Failure? && e.host == host && e.blocks && now < e.time + BAN {
      assert (h + [e])[|h|] == e;
    }
  }

  /** Ten failures of a host inside one window, after none that still count, block
      it at the tenth and not before: the count the limiter compares is the number
      of failures so far. */
  lemma {:induction false} BurstCounts(h: seq<Event>, host: string, times: seq<int>, now: int)
    requires Within(Since(h, host), now) == []
    requires forall k :: 0 <= k < |times| ==> now - times[k] < WINDOW
    ensures var events := seq(|times|, k requires 0 <= k < |times| => Failure(host, times[k], false));
            |Within(Since(h + events, host), now)| == |times|
    decreases |times|
  {
    var events := seq(|times|, k requires 0 <= k < |times| => Failure(host, times[k], false));
    if times == [] {
      assert h + events == h;
    } else {
      var n := |times| - 1;
      var init := times[..n];
      var fewer := seq(|init|, k requires 0 <= k < |init| => Failure(host, init[k], false));
      BurstCounts(h, host, init, now);
      assert h + events == (h + fewer) + [Failure(host, times[n], false)];
      SinceAppend(h + fewer, Failure(host, times[n], false), host);
      WithinAppend(Since(h + fewer, host), times[n], now);
    }
  }

  function FailsOf(fails: map<string, seq<int>>, host: string): seq<int> {
    if host in fails then fails[host] else []
  }

  ghost predicate ListsOk(fails: map<string, seq<int>>, h: seq<Event>, clock: int) {
    (forall host, now :: clock <= now ==> Within(FailsOf(fails, host), now) == Within(Since(h, host), now)) &&
    (forall host :: |FailsOf(fails, host)| < LIMIT)
  }

  ghost predicate BansOk(blocked: map<string, int>, h: seq<Event>, clock: int) {
    forall host, now :: clock <= now ==> (Banned(h, host, now) <==> host in blocked && now < blocked[host])
  }

  class AuthLimiter {
    var fails: map<string, seq<int>>
    var blocked: map<string, int>
    ghost var history: seq<Event>
    ghost var clock: int

    /** The stored lists count, at any time from now on, what the full history
        counts; every list is shorter than the limit; the bans stored are the bans
        the history gives. */
    ghost predicate Valid()
      reads this
    {
      Clocked(history, clock) && |fails| <= MAX_HOSTS + 1 &&
      ListsOk(fails, history, clock) && BansOk(blocked, history, clock)
    }

    constructor ()
      ensures Valid() && history == []
    {
      fails, blocked, history, clock := map[], map[], [], 0;
    }

    /** Allow: refused exactly while banned by some failure in the history; a ban
        that is over is forgotten. */
    method Allow(host: string, now: int) returns (ok: bool)
      requires Valid() && clock <= now
      modifies this`blocked, this`clock
      ensures Valid() && clock == now
      ensures ok == !Banned(history, host, now)
      ensures blocked == if ok then old(blocked) - {host} else old(blocked)
    {
      clock := now;
      if host in blocked && now < blocked[host] {
        return false;
      }
      if host in blocked {
        blocked := blocked - {host};
      }
      ok := true;
    }

    /** Fail: true exactly when this is the tenth failure of the host inside the
        last window since it was last blocked or the lists were dropped; they are
        dropped exactly when more than 4096 hosts have one. */
    method Fail(host: string, now: int) returns (justBlocked: bool)
      requires Valid() && clock <= now
      modifies this
      ensures Valid() && clock == now
      ensures var before := if |old(fails)| > MAX_HOSTS then old(history) + [Dropped] else old(history);
              var recent := |Within(Since(before, host), now)|;
              recent < LIMIT && (justBlocked <==> recent + 1 == LIMIT) &&
              history == before + [Failure(host, now, justBlocked)]
    {
      clock := now;
      if |fails| > MAX_HOSTS {
        DropAll();
      }
      ghost var before := history;
      var stored := FailsOf(fails, host);
      var keep := Prune(stored, now);
      WithinShorter(stored, now);
      assert keep == Within(Since(before, host), now);
      keep := keep + [now];
      justBlocked := |keep| >= LIMIT;
      if justBlocked {
        Block(host, now);
      } else {
        Record(host, now, keep);
      }
    }

    method DropAll()
      requires Valid()
      modifies this`fails, this`history
      ensures Valid() && history == old(history) + [Dropped] && fails == map[]
    {
      fails := map[];
      history := history + [Dropped];
      forall host ensures Since(history, host) == [] {
        SinceAppend(old(history), Dropped, host);
      }
      forall host, now ensures Banned(history, host, now) <==> Banned(old(history), host, now) {
        BannedAppend(old(history), Dropped, host, now);
      }
    }

    /** The loop that keeps the times inside the window. */
    method Prune(stored: seq<int>, now: int) returns (keep: seq<int>)
      ensures keep == Within(stored, now)
    {
      keep := [];
      for k := 0 to |stored|
        invariant keep == Within(stored[..k], now)
      {
        assert stored[..k + 1] == stored[..k] + [stored[k]];
        WithinAppend(stored[..k], stored[k], now);
        if now - stored[k] < WINDOW {
          keep := keep + [stored[k]];
        }
      }
      assert stored[..|stored|] == stored;
    }

    method Block(host: string, now: int)
      requires Valid() && clock == now
      modifies this`fails, this`blocked, this`history
      ensures Valid() && history == old(history) + [Failure(host, now, true)]
    {
      BlockLists(fails, history, host, now);
      BlockBans(blocked, history, host, now);
      FewerKeys(fails, host);
      blocked := blocked[host := now + BAN];
      fails := fails - {host};
      history := history + [Failure(host, now, true)];
    }

    method Record(host: string, now: int, keep: seq<int>)
      requires Valid() && clock == now && |keep| < LIMIT && |fails| <= MAX_HOSTS
      requires keep == Within(Since(history, host), now) + [now]
      modifies this`fails, this`history
      ensures Valid() && history == old(history) + [Failure(host, now, false)]
    {
      RecordLists(fails, history, host, now, keep);
      RecordBans(blocked, history, host, now);
      MoreKeys(fails, host, keep);
      fails := fails[host := keep];
      history := history + [Failure(host, now, false)];
    }
  }

  /** A block clears the host's list, as the history forgets its failures. */
  lemma BlockLists(fails: map<string, seq<int>>, h: seq<Event>, host: string, now: int)
    requires ListsOk(fails, h, now)
    ensures ListsOk(fails - {host}, h + [Failure(host, now, true)], now)
  {
    var e, rest := Failure(host, now, true), fails - {host};
    forall other, later | now <= later
      ensures Within(FailsOf(rest, other), later) == Within(Since(h + [e], other), later)
      ensures |FailsOf(rest, other)| < LIMIT
    {
      SinceAppend(h, e, other);
      assert FailsOf(rest, other) == if other == host then [] else FailsOf(fails, other);
    }
    forall other ensures |FailsOf(rest, other)| < LIMIT {
      assert FailsOf(rest, other) == if other == host then [] else FailsOf(fails, other);
    }
  }

  lemma BlockBans(blocked: map<string, int>, h: seq<Event>, host: string, now: int)
    requires Clocked(h, now) && BansOk(blocked, h, now)
    ensures BansOk(blocked[host := now + BAN], h + [Failure(host, now, true)], now)
  {
    var e, more := Failure(host, now, true), blocked[host := now + BAN];
    forall other, later | now <= later
      ensures Banned(h + [e], other, later) <==> other in more && later < more[other]
    {
      BannedAppend(h, e, other, later);
      if other == host && Banned(h, other, later) {
        BanBound(h, other, later, now);
      }
    }
  }

  /** A failure recorded extends the host's pruned list as it extends the history's. */
  lemma RecordLists(fails: map<string, seq<int>>, h: seq<Event>, host: string, now: int, keep: seq<int>)
    requires ListsOk(fails, h, now) && |keep| < LIMIT && keep == Within(Since(h, host), now) + [now]
    ensures ListsOk(fails[host := keep], h + [Failure(host, now, false)], now)
  {
    var e, more, ts := Failure(host, now, false), fails[host := keep], Since(h, host);
    forall other, later | now <= later
      ensures Within(FailsOf(more, other), later) == Within(Since(h + [e], other), later)
    {
      SinceAppend(h, e, other);
      if other == host {
        WithinAppend(Within(ts, now), now, later);
        PruneKeeps(ts, now, later);
        WithinAppend(ts, now, later);
      } else {
        assert FailsOf(more, other) == FailsOf(fails, other);
      }
    }
    forall other ensures |FailsOf(more, other)| < LIMIT {
      assert FailsOf(more, other) == if other == host then keep else FailsOf(fails, other);
    }
  }

  lemma RecordBans(blocked: map<string, int>, h: seq<Event>, host: string, now: int)
    requires BansOk(blocked, h, now)
    ensures BansOk(blocked, h + [Failure(host, now, false)], now)
  {
    forall other, later ensures Banned(h + [Failure(host, now, false)], other, later) <==> Banned(h, other, later) {
      BannedAppend(h, Failure(host, now, false), other, later);
    }
  }

  /** A ban in the history ends no later than one given now. */
  lemma BanBound(h: seq<Event>, host: string, later: int, now: int)
    requires Clocked(h, now) && Banned(h, host, later)
    ensures later < now + BAN
  {
  }

  lemma FewerKeys(m: map<string, seq<int>>, k: string)
    ensures |m - {k}| <= |m|
  {
    assert (m - {k}).Keys == m.Keys - {k};
  }

  lemma MoreKeys(m: map<string, seq<int>>, k: string, v: seq<int>)
    ensures |m[k := v]| <= |m| + 1
  {
    assert m[k := v].Keys == m.Keys + {k};
  }
}
