/**
 What the token bucket promises over whole runs: how much it admits, that no other policy on the
 same bucket admits more, and what the numbers in its answers mean.
 */
module RateBounds {
  import opened Arithmetic
  import opened Wrappers
  import opened RateLimit

  // ---------- where the refinement stops ----------

  function Repeat(t: int, n: nat): (times: seq<int>)
    ensures |times| == n
    ensures forall i :: 0 <= i < n ==> times[i] == t
  {
    if n == 0 then [] else [t] + Repeat(t, n - 1)
  }

  /** The lazy script cannot be told from the eager bucket by any nondecreasing trace. */
  ghost predicate Indistinguishable(cfg: Config)
    requires cfg.Valid()
  {
    forall times, start ::
      Nondecreasing(times) && (times != [] ==> start <= times[0])
      ==> LazyRun(cfg, None, times) == EagerRun(cfg, FullBucket(cfg, start), times)
  }

  lemma {:induction false} DrainThenAsk(cfg: Config, k: nat, late: int)
    requires cfg.Valid() && k <= cfg.limit && late >= 3600
    ensures var times := Repeat(0, k) + [late];
            && LazyRun(cfg, Some(Stored(Bucket(k * cfg.window, 0), 3600)), times)[k] == Check(cfg, None, late).1
            && EagerRun(cfg, Bucket(k * cfg.window, 0), times)[k] == EagerCheck(cfg, Bucket(0, 0), late).1
    decreases k
  {
    hide WholeTokens, SecondsToFull;
    var times := Repeat(0, k) + [late];
    if k > 0 {
      MulMono(k, cfg.limit, cfg.window);
      MulMono(1, k, cfg.window);
      assert k * cfg.window - cfg.window == (k - 1) * cfg.window;
      assert times[1..] == Repeat(0, k - 1) + [late];
      DrainThenAsk(cfg, k - 1, late);
    }
  }

  lemma LateAnswersDiffer(cfg: Config)
    requires cfg.Valid() && cfg.window > 3600
    ensures Check(cfg, None, 3600).1 != EagerCheck(cfg, Bucket(0, 0), 3600).1
  {
    CapacityCoversCost(cfg);
    var w, full, refilled := cfg.window, cfg.Capacity() - cfg.window, 3600 * cfg.limit - cfg.window;
    MulMono(3600 + 1, w, cfg.limit);
    assert full == (cfg.limit - 1) * w;
    assert full / w == cfg.limit - 1 by { QuotientIs(full, w, cfg.limit - 1); }
    if refilled >= 0 {
      assert refilled == (refilled / w) * w + refilled % w;
      assert (refilled / w) * w < (cfg.limit - 1) * w;
    }
  }

  /** The hour after which Redis forgets a key is safe exactly for windows of at most an hour. */
  lemma RefinementExactlyUpToAnHour(cfg: Config)
    requires cfg.Valid()
    ensures Indistinguishable(cfg) <==> cfg.window <= 3600
  {
    if cfg.window <= 3600 {
      forall times, start | Nondecreasing(times) && (times != [] ==> start <= times[0])
        ensures LazyRun(cfg, None, times) == EagerRun(cfg, FullBucket(cfg, start), times)
      {
        LazyRefinesEager(cfg, times, start);
      }
    } else {
      var k := cfg.limit - 1;
      var rest := Repeat(0, k) + [3600];
      var times := [0] + rest;
      assert times[1..] == rest;
      CapacityCoversCost(cfg);
      assert cfg.Capacity() - cfg.window == k * cfg.window;
      DrainThenAsk(cfg, k, 3600);
      LateAnswersDiffer(cfg);
      assert LazyRun(cfg, None, times)[k + 1] == Check(cfg, None, 3600).1;
      assert EagerRun(cfg, FullBucket(cfg, 0), times)[k + 1] == EagerCheck(cfg, Bucket(0, 0), 3600).1;
      assert Nondecreasing(times);
    }
  }

  // ---------- how much is admitted ----------

  /** The number of admissions among `replies` whose request time lies in [lo, hi]. */
  function AdmittedIn(times: seq<int>, replies: seq<Reply>, lo: int, hi: int): nat
    requires |times| == |replies|
    decreases |times|
  {
    if times == [] then 0 else
      (if replies[0].allowed && lo <= times[0] <= hi then 1 else 0) + AdmittedIn(times[1..], replies[1..], lo, hi)
  }

  lemma {:induction false} NoneAdmittedAfter(times: seq<int>, replies: seq<Reply>, lo: int, hi: int)
    requires |times| == |replies|
    requires forall i :: 0 <= i < |times| ==> hi < times[i]
    ensures AdmittedIn(times, replies, lo, hi) == 0
    decreases |times|
  {
    if times != [] { NoneAdmittedAfter(times[1..], replies[1..], lo, hi); }
  }

  lemma TimeAdds(rate: nat, a: int, b: int, c: int)
    ensures rate * (c - a) == (b - a) * rate + rate * (c - b)
  {
  }

  lemma EagerRunStep(cfg: Config, b: Bucket, times: seq<int>, lo: int, hi: int)
    requires cfg.Valid() && times != []
    ensures var (next, reply) := EagerCheck(cfg, b, times[0]);
            AdmittedIn(times, EagerRun(cfg, b, times), lo, hi)
            == (if reply.allowed && lo <= times[0] <= hi then 1 else 0)
               + AdmittedIn(times[1..], EagerRun(cfg, next, times[1..]), lo, hi)
  {
    hide WholeTokens, SecondsToFull, Level;
    assert EagerRun(cfg, b, times)[1..] == EagerRun(cfg, EagerCheck(cfg, b, times[0]).0, times[1..]);
  }

  /** An eager check pays for an admission with tokens it held or refilled. */
  lemma EagerCheckPays(cfg: Config, b: Bucket, now: int)
    requires cfg.Valid() && Sane(cfg, b) && b.lastUpdate <= now
    ensures var (next, reply) := EagerCheck(cfg, b, now);
            var price := cfg.window * (if reply.allowed then 1 else 0);
            && Sane(cfg, next) && next.lastUpdate == now
            && next.tokens + price <= cfg.Capacity()
            && next.tokens + price <= b.tokens + (now - b.lastUpdate) * cfg.limit
  {
    hide WholeTokens, SecondsToFull;
    LevelInRange(cfg, Some(b), now);
  }

  /** From any eager bucket, admissions up to `hi` are paid by its tokens and the refill until `hi`. */
  lemma {:induction false} EagerBudget(cfg: Config, b: Bucket, times: seq<int>, lo: int, hi: int)
    requires cfg.Valid() && Sane(cfg, b) && Nondecreasing(times)
    requires lo <= b.lastUpdate <= hi && (times != [] ==> b.lastUpdate <= times[0])
    ensures cfg.window * AdmittedIn(times, EagerRun(cfg, b, times), lo, hi)
            <= b.tokens + cfg.limit * (hi - b.lastUpdate)
    decreases |times|
  {
    hide EagerCheck, EagerRun, AdmittedIn;
    MulMono(0, hi - b.lastUpdate, cfg.limit);
    if times == [] || times[0] > hi {
      NoneAdmittedAfter(times, EagerRun(cfg, b, times), lo, hi);
      return;
    }
    var now, rest := times[0], times[1..];
    var (next, reply) := EagerCheck(cfg, b, now);
    EagerCheckPays(cfg, b, now);
    EagerBudget(cfg, next, rest, lo, hi);
    TimeAdds(cfg.limit, b.lastUpdate, now, hi);
    MulAdds(cfg.window, if reply.allowed then 1 else 0, AdmittedIn(rest, EagerRun(cfg, next, rest), lo, hi));
    EagerRunStep(cfg, b, times, lo, hi);
  }

  lemma {:induction false} EagerRateBound(cfg: Config, b: Bucket, times: seq<int>, lo: int, hi: int)
    requires cfg.Valid() && Sane(cfg, b) && Nondecreasing(times) && lo <= hi
    requires times != [] ==> b.lastUpdate <= times[0]
    ensures cfg.window * AdmittedIn(times, EagerRun(cfg, b, times), lo, hi) <= cfg.Capacity() + cfg.limit * (hi - lo)
    decreases |times|
  {
    hide EagerCheck, EagerRun, AdmittedIn, Level, Script, ClockRun, Config.Capacity;
    MulMono(0, hi - lo, cfg.limit);
    if times == [] || times[0] > hi {
      NoneAdmittedAfter(times, EagerRun(cfg, b, times), lo, hi);
      return;
    }
    var now, rest := times[0], times[1..];
    var (next, reply) := EagerCheck(cfg, b, now);
    EagerCheckPays(cfg, b, now);
    EagerRunStep(cfg, b, times, lo, hi);
    if now < lo {
      EagerRateBound(cfg, next, rest, lo, hi);
    } else {
      EagerBudget(cfg, next, rest, lo, hi);
      MulMono(hi - now, hi - lo, cfg.limit);
      MulAdds(cfg.window, if reply.allowed then 1 else 0, AdmittedIn(rest, EagerRun(cfg, next, rest), lo, hi));
    }
  }

  /** At most `limit + (limit / window) * (hi - lo)` requests are admitted in any interval [lo, hi]. */
  lemma RateBound(cfg: Config, times: seq<int>, lo: int, hi: int)
    requires cfg.Valid() && cfg.window <= 3600 && Nondecreasing(times) && lo <= hi
    ensures cfg.window * AdmittedIn(times, LazyRun(cfg, None, times), lo, hi)
            <= cfg.limit * cfg.window + cfg.limit * (hi - lo)
  {
    var start := if times == [] then 0 else times[0];
    LazyRefinesEager(cfg, times, start);
    EagerRateBound(cfg, FullBucket(cfg, start), times, lo, hi);
  }

  ghost predicate RateBounded(cfg: Config)
    requires cfg.Valid()
  {
    forall times, lo, hi ::
      Nondecreasing(times) && lo <= hi ==>
        cfg.window * AdmittedIn(times, LazyRun(cfg, None, times), lo, hi)
            <= cfg.limit * cfg.window + cfg.limit * (hi - lo)
  }

  /** A key left with k whole tokens at `t`, when Redis's clock showed `st`. */
  function Holding(cfg: Config, k: nat, t: int, st: int): Option<Stored> {
    Some(Stored(Bucket(k * cfg.window, t), st + 3600))
  }

  /** The first k answers are admissions, and `rest` follows. */
  ghost predicate AdmitsFirst(replies: seq<Reply>, k: nat, rest: seq<Reply>) {
    |replies| == k + |rest| && (forall i :: 0 <= i < k ==> replies[i].allowed) && replies[k..] == rest
  }

  lemma OneMoreFirst(replies: seq<Reply>, k: nat, rest: seq<Reply>)
    requires replies != [] && replies[0].allowed && AdmitsFirst(replies[1..], k, rest)
    ensures AdmitsFirst(replies, k + 1, rest)
  {
    forall i | 0 <= i < k + 1 ensures replies[i].allowed {
      if i > 0 { assert replies[i] == replies[1..][i - 1]; }
    }
    assert replies[k + 1..] == replies[1..][k..];
  }

  lemma RepeatCons(t: int, n: nat, rest: seq<int>)
    ensures Repeat(t, n + 1) + rest == [t] + (Repeat(t, n) + rest)
  {
  }

  /** A bucket of k whole tokens admits the first k of any requests in the same second. */
  lemma {:induction false} Burst(cfg: Config, t: int, st: int, k: nat, times: seq<int>, server: seq<int>)
    requires cfg.Valid() && k <= cfg.limit && |times| == |server|
    ensures AdmitsFirst(ClockRun(cfg, Holding(cfg, k, t, st), Repeat(t, k) + times, Repeat(st, k) + server), k,
                        ClockRun(cfg, Holding(cfg, 0, t, st), times, server))
    decreases k
  {
    if k == 0 {
      assert Repeat(t, k) + times == times && Repeat(st, k) + server == server;
    } else {
      Burst(cfg, t, st, k - 1, times, server);
      var ts, ss := Repeat(t, k - 1) + times, Repeat(st, k - 1) + server;
      BurstStep(cfg, k, t, st);
      RepeatCons(t, k - 1, times);
      RepeatCons(st, k - 1, server);
      RunCons(cfg, Holding(cfg, k, t, st), t, st, ts, ss);
      hide ClockRun, Holding, AdmitsFirst, Script, Repeat;
      OneMoreFirst(ClockRun(cfg, Holding(cfg, k, t, st), [t] + ts, [st] + ss), k - 1,
                   ClockRun(cfg, Holding(cfg, 0, t, st), times, server));
    }
  }

  lemma BurstStep(cfg: Config, k: nat, t: int, st: int)
    requires cfg.Valid() && 1 <= k <= cfg.limit
    ensures var (next, reply) := Script(cfg, Holding(cfg, k, t, st), t, st);
            reply.allowed && next == Holding(cfg, k - 1, t, st)
  {
    hide WholeTokens, SecondsToFull;
    MulMono(k, cfg.limit, cfg.window);
    MulMono(1, k, cfg.window);
    assert k * cfg.window - cfg.window == (k - 1) * cfg.window;
  }

  lemma RunCons(cfg: Config, stored: Option<Stored>, now: int, serverNow: int, times: seq<int>, server: seq<int>)
    requires cfg.Valid() && |times| == |server|
    ensures var (next, reply) := Script(cfg, stored, now, serverNow);
            var replies := ClockRun(cfg, stored, [now] + times, [serverNow] + server);
            replies != [] && replies[0] == reply && replies[1..] == ClockRun(cfg, next, times, server)
  {
    assert ([now] + times)[1..] == times && ([serverNow] + server)[1..] == server;
  }

  lemma TwiceIsMore(w: nat, k: nat, moved: nat)
    requires moved < w && k >= 1
    ensures w * (k + k) > k * w + k * moved
  {
    MulMono(moved + 1, w, k);
    assert w * (k + k) == k * w + k * w;
  }

  lemma FirstOfBurst(cfg: Config, stored: Option<Stored>, t: int, st: int)
    requires cfg.Valid() && Live(stored, st).None?
    ensures var (next, reply) := Script(cfg, stored, t, st);
            reply.allowed && next == Holding(cfg, cfg.limit - 1, t, st)
  {
    hide WholeTokens, SecondsToFull;
    CapacityCoversCost(cfg);
    MulAdds(cfg.window, cfg.limit - 1, 1);
  }

  /** A burst against a key that is absent, or that Redis has dropped, is admitted whole. */
  lemma BurstOnForgottenKey(cfg: Config, stored: Option<Stored>, t: int, st: int, times: seq<int>, server: seq<int>)
    requires cfg.Valid() && Live(stored, st).None? && |times| == |server|
    ensures AdmitsFirst(ClockRun(cfg, stored, Repeat(t, cfg.limit) + times, Repeat(st, cfg.limit) + server), cfg.limit,
                        ClockRun(cfg, Holding(cfg, 0, t, st), times, server))
  {
    hide ClockRun, Holding, AdmitsFirst, Script, Config.Capacity;
    var k := cfg.limit - 1;
    var ts, ss := Repeat(t, k) + times, Repeat(st, k) + server;
    Burst(cfg, t, st, k, times, server);
    FirstOfBurst(cfg, stored, t, st);
    RunCons(cfg, stored, t, st, ts, ss);
    RepeatCons(t, k, times);
    RepeatCons(st, k, server);
    OneMoreFirst(ClockRun(cfg, stored, [t] + ts, [st] + ss), k, ClockRun(cfg, Holding(cfg, 0, t, st), times, server));
  }

  lemma {:induction false} AllAdmittedIn(times: seq<int>, replies: seq<Reply>, k: nat, lo: int, hi: int)
    requires |times| == |replies| && k <= |times|
    requires forall i :: 0 <= i < k ==> replies[i].allowed && lo <= times[i] <= hi
    ensures AdmittedIn(times, replies, lo, hi) == k + AdmittedIn(times[k..], replies[k..], lo, hi)
    decreases k
  {
    if k > 0 {
      AllAdmittedIn(times[1..], replies[1..], k - 1, lo, hi);
      assert times[1..][k - 1..] == times[k..] && replies[1..][k - 1..] == replies[k..];
    }
  }

  /** A burst at 0, and another when Redis has just dropped the key; the caller's clock then shows `t`. */
  lemma TwoBursts(cfg: Config, t: int, times: seq<int>, server: seq<int>) returns (replies: seq<Reply>)
    requires cfg.Valid()
    requires times == Repeat(0, cfg.limit) + Repeat(t, cfg.limit)
             && server == Repeat(0, cfg.limit) + Repeat(3600, cfg.limit)
    ensures replies == ClockRun(cfg, None, times, server)
    ensures forall i :: 0 <= i < |replies| ==> replies[i].allowed
  {
    var burst := cfg.limit;
    var late, lateServer := Repeat(t, burst), Repeat(3600, burst);
    replies := ClockRun(cfg, None, times, server);
    BurstOnForgottenKey(cfg, None, 0, 0, late, lateServer);
    BurstOnForgottenKey(cfg, Some(Stored(Bucket(0, 0), 3600)), t, 3600, [], []);
    assert late + [] == late && lateServer + [] == lateServer;
    forall i | 0 <= i < |replies| ensures replies[i].allowed {
      if i >= burst { assert replies[i] == replies[burst..][i - burst]; }
    }
  }

  /** The documented rate holds for every run exactly if a window is at most the hour a key is kept. */
  lemma RateBoundExactlyUpToAnHour(cfg: Config)
    requires cfg.Valid()
    ensures RateBounded(cfg) <==> cfg.window <= 3600
  {
    if cfg.window <= 3600 {
      forall times, lo, hi | Nondecreasing(times) && lo <= hi
        ensures cfg.window * AdmittedIn(times, LazyRun(cfg, None, times), lo, hi)
                <= cfg.limit * cfg.window + cfg.limit * (hi - lo)
      {
        RateBound(cfg, times, lo, hi);
      }
    } else {
      TwoBurstsExceed(cfg);
    }
  }

  lemma TwoBurstsExceed(cfg: Config)
    requires cfg.Valid() && cfg.window > 3600
    ensures !RateBounded(cfg)
  {
    var k := cfg.limit;
    var times := Repeat(0, k) + Repeat(3600, k);
    var replies := TwoBursts(cfg, 3600, times, times);
    assert replies == LazyRun(cfg, None, times);
    hide ClockRun, LazyRun;
    assert times[k + k..] == [] && AdmittedIn(times[k + k..], replies[k + k..], 0, 3600) == 0;
    AllAdmittedIn(times, replies, k + k, 0, 3600);
    hide AdmittedIn, LazyRun;
    TwiceIsMore(cfg.window, k, 3600);
    assert Nondecreasing(times);
    assert k * (3600 - 0) == k * 3600;
  }

  // ---------- when the clocks disagree ----------

  function Admitted(replies: seq<Reply>): nat {
    if replies == [] then 0 else (if replies[0].allowed then 1 else 0) + Admitted(replies[1..])
  }

  /** The requests that find no key: the first one, and any after Redis, by its own clock, has dropped it. */
  function FoundNoKey(cfg: Config, stored: Option<Stored>, times: seq<int>, server: seq<int>): nat
    requires cfg.Valid() && |times| == |server|
    decreases |times|
  {
    if times == [] then 0 else
      (if Live(stored, server[0]).None? then 1 else 0)
      + FoundNoKey(cfg, Script(cfg, stored, times[0], server[0]).0, times[1..], server[1..])
  }

  /** The forward moves of the caller's clock from one admission to the next, where the key is still there. */
  function LiveMoves(cfg: Config, stored: Option<Stored>, times: seq<int>, server: seq<int>): nat
    requires cfg.Valid() && |times| == |server|
    decreases |times|
  {
    if times == [] then 0 else
      var live := Live(stored, server[0]);
      (if live.Some? && Admits(cfg, live, times[0]) then Max(0, times[0] - live.value.lastUpdate) else 0)
      + LiveMoves(cfg, Script(cfg, stored, times[0], server[0]).0, times[1..], server[1..])
  }

  /** The tokens a key was left with. */
  function Held(stored: Option<Stored>): int {
    if stored.Some? then stored.value.bucket.tokens else 0
  }

  /**
   An admission is paid by what the key held, by a whole bucket if there was none, or by the refill
   since its last update.
   */
  lemma ScriptPays(cfg: Config, stored: Option<Stored>, now: int, serverNow: int)
    requires cfg.Valid() && SaneStored(cfg, stored)
    ensures var (next, reply) := Script(cfg, stored, now, serverNow);
            var live := Live(stored, serverNow);
            && SaneStored(cfg, next)
            && reply.allowed == Admits(cfg, live, now)
            && Held(next) + cfg.window * (if reply.allowed then 1 else 0)
               <= Held(stored) + cfg.Capacity() * (if live.None? then 1 else 0)
                  + cfg.limit * (if live.Some? && reply.allowed then Max(0, now - live.value.lastUpdate) else 0)
  {
    hide WholeTokens, SecondsToFull;
    LevelInRange(cfg, Live(stored, serverNow), now);
    CapacityCoversCost(cfg);
  }

  lemma SkewedRunStep(cfg: Config, stored: Option<Stored>, times: seq<int>, server: seq<int>)
    requires cfg.Valid() && |times| == |server| && times != []
    ensures var (next, reply) := Script(cfg, stored, times[0], server[0]);
            var live := Live(stored, server[0]);
            && Admitted(ClockRun(cfg, stored, times, server))
               == (if reply.allowed then 1 else 0) + Admitted(ClockRun(cfg, next, times[1..], server[1..]))
            && FoundNoKey(cfg, stored, times, server)
               == (if live.None? then 1 else 0) + FoundNoKey(cfg, next, times[1..], server[1..])
            && LiveMoves(cfg, stored, times, server)
               == (if live.Some? && Admits(cfg, live, times[0]) then Max(0, times[0] - live.value.lastUpdate) else 0)
                  + LiveMoves(cfg, next, times[1..], server[1..])
  {
    hide Script, Admits, Live;
    var replies := ClockRun(cfg, stored, times, server);
    assert replies[1..] == ClockRun(cfg, Script(cfg, stored, times[0], server[0]).0, times[1..], server[1..]);
  }

  lemma {:induction false} SkewedBudget(cfg: Config, stored: Option<Stored>, times: seq<int>, server: seq<int>)
    requires cfg.Valid() && |times| == |server| && SaneStored(cfg, stored)
    ensures cfg.window * Admitted(ClockRun(cfg, stored, times, server))
            <= Held(stored) + cfg.Capacity() * FoundNoKey(cfg, stored, times, server)
               + cfg.limit * LiveMoves(cfg, stored, times, server)
    decreases |times|
  {
    if times == [] { return; }
    hide Script, ClockRun, Admitted, FoundNoKey, LiveMoves, Admits, Live, Config.Capacity;
    var now, serverNow := times[0], server[0];
    var (next, reply) := Script(cfg, stored, now, serverNow);
    var live := Live(stored, serverNow);
    ScriptPays(cfg, stored, now, serverNow);
    SkewedRunStep(cfg, stored, times, server);
    SkewedBudget(cfg, next, times[1..], server[1..]);
    MulAdds(cfg.window, if reply.allowed then 1 else 0, Admitted(ClockRun(cfg, next, times[1..], server[1..])));
    MulAdds(cfg.Capacity(), if live.None? then 1 else 0, FoundNoKey(cfg, next, times[1..], server[1..]));
    MulAdds(cfg.limit, if live.Some? && reply.allowed then Max(0, now - live.value.lastUpdate) else 0,
            LiveMoves(cfg, next, times[1..], server[1..]));
  }

  /**
   Whatever the caller's clock and Redis's show: all admissions together are at most one burst for each
   request that finds no key, plus the refill of the forward moves between admissions on a live key.
   */
  lemma RateBoundUnderClockSkew(cfg: Config, times: seq<int>, server: seq<int>)
    requires cfg.Valid() && |times| == |server|
    ensures cfg.window * Admitted(ClockRun(cfg, None, times, server))
            <= cfg.limit * cfg.window * FoundNoKey(cfg, None, times, server)
               + cfg.limit * LiveMoves(cfg, None, times, server)
  {
    SkewedBudget(cfg, None, times, server);
  }

  /** The sum of the forward moves between successive admitted timestamps, `last` being the previous one. */
  function ForwardMoves(last: int, times: seq<int>, replies: seq<Reply>): nat
    requires |times| == |replies|
    decreases |times|
  {
    if times == [] then 0
    else if replies[0].allowed then Max(0, times[0] - last) + ForwardMoves(times[0], times[1..], replies[1..])
    else ForwardMoves(last, times[1..], replies[1..])
  }

  /** Between no two requests does the caller's clock fall behind Redis's by more than `lag`. */
  predicate LagsAtMost(lag: nat, times: seq<int>, server: seq<int>)
    requires |times| == |server|
  {
    forall i, j :: 0 <= i < j < |times| ==> (server[j] - server[i]) - (times[j] - times[i]) <= lag
  }

  /**
   Since `last`, when Redis's clock showed `lastServer`, the caller's clock has not fallen behind by
   more than `lag`.
   */
  predicate LagsSince(lag: nat, last: int, lastServer: int, times: seq<int>, server: seq<int>)
    requires |times| == |server|
  {
    forall i :: 0 <= i < |times| ==> (server[i] - lastServer) - (times[i] - last) <= lag
  }

  lemma LagsOnward(lag: nat, last: int, lastServer: int, times: seq<int>, server: seq<int>)
    requires |times| == |server| && times != [] && LagsAtMost(lag, times, server)
    ensures LagsAtMost(lag, times[1..], server[1..]) && LagsSince(lag, times[0], server[0], times[1..], server[1..])
    ensures LagsSince(lag, last, lastServer, times, server) ==>
              (server[0] - lastServer) - (times[0] - last) <= lag
                  && LagsSince(lag, last, lastServer, times[1..], server[1..])
  {
  }

  /**
   An admission is paid by tokens and forward moves alone if a drop leaves the caller's clock time to
   refill the bucket.
   */
  lemma LaggingScriptPays(cfg: Config, stored: Stored, now: int, serverNow: int)
    requires cfg.Valid() && Sane(cfg, stored.bucket)
    requires serverNow >= stored.expiresAt ==> now - stored.bucket.lastUpdate >= cfg.window
    ensures var (next, reply) := Script(cfg, Some(stored), now, serverNow);
            && next.Some? && SaneStored(cfg, next)
            && (!reply.allowed ==> next == Some(stored))
            && (reply.allowed ==>
                  && next.value.bucket.lastUpdate == now && next.value.expiresAt == serverNow + 3600
                  && next.value.bucket.tokens + cfg.window
                     <= stored.bucket.tokens + cfg.limit * Max(0, now - stored.bucket.lastUpdate))
  {
    hide WholeTokens, SecondsToFull;
    CapacityCoversCost(cfg);
    LevelInRange(cfg, Live(Some(stored), serverNow), now);
    if serverNow >= stored.expiresAt {
      MulMono(cfg.window, now - stored.bucket.lastUpdate, cfg.limit);
    }
  }

  lemma MovingRunStep(cfg: Config, stored: Option<Stored>, last: int, times: seq<int>, server: seq<int>)
    requires cfg.Valid() && |times| == |server| && times != []
    ensures var (next, reply) := Script(cfg, stored, times[0], server[0]);
            var replies, later := ClockRun(cfg, stored, times, server), ClockRun(cfg, next, times[1..], server[1..]);
            && Admitted(replies) == (if reply.allowed then 1 else 0) + Admitted(later)
            && ForwardMoves(last, times, replies)
               == if reply.allowed then Max(0, times[0] - last) + ForwardMoves(times[0], times[1..], later)
                  else ForwardMoves(last, times[1..], later)
  {
    hide Script;
    var replies := ClockRun(cfg, stored, times, server);
    assert replies[1..] == ClockRun(cfg, Script(cfg, stored, times[0], server[0]).0, times[1..], server[1..]);
  }

  /** While the lag leaves a dropped key time to refill, the drop adds nothing. */
  lemma {:induction false} LaggingBudget(
      cfg: Config, stored: Stored, lag: nat, lastServer: int, times: seq<int>, server: seq<int>)
    requires cfg.Valid() && |times| == |server| && cfg.window + lag <= 3600 && Sane(cfg, stored.bucket)
    requires stored.expiresAt == lastServer + 3600
    requires LagsAtMost(lag, times, server) && LagsSince(lag, stored.bucket.lastUpdate, lastServer, times, server)
    ensures var replies := ClockRun(cfg, Some(stored), times, server);
            cfg.window * Admitted(replies)
            <= stored.bucket.tokens + cfg.limit * ForwardMoves(stored.bucket.lastUpdate, times, replies)
    decreases |times|
  {
    if times == [] { return; }
    hide Script, ClockRun, Admitted, ForwardMoves, LagsAtMost, LagsSince, Config.Capacity;
    var b, now, serverNow := stored.bucket, times[0], server[0];
    var (next, reply) := Script(cfg, Some(stored), now, serverNow);
    var later := ClockRun(cfg, next, times[1..], server[1..]);
    LagsOnward(lag, b.lastUpdate, lastServer, times, server);
    LaggingScriptPays(cfg, stored, now, serverNow);
    MovingRunStep(cfg, Some(stored), b.lastUpdate, times, server);
    if reply.allowed {
      LaggingBudget(cfg, next.value, lag, serverNow, times[1..], server[1..]);
      MulAdds(cfg.limit, Max(0, now - b.lastUpdate), ForwardMoves(now, times[1..], later));
      MulAdds(cfg.window, 1, Admitted(later));
    } else {
      LaggingBudget(cfg, stored, lag, lastServer, times[1..], server[1..]);
    }
  }

  lemma FirstIsAdmitted(cfg: Config, now: int, serverNow: int)
    requires cfg.Valid()
    ensures var (next, reply) := Script(cfg, None, now, serverNow);
            && reply.allowed && next == Some(Stored(Bucket(cfg.Capacity() - cfg.window, now), serverNow + 3600))
            && Sane(cfg, next.value.bucket)
  {
    hide WholeTokens, SecondsToFull;
    CapacityCoversCost(cfg);
  }

  lemma LaggingRateBound(cfg: Config, lag: nat, times: seq<int>, server: seq<int>)
    requires cfg.Valid() && |times| == |server| && times != [] && cfg.window + lag <= 3600
             && LagsAtMost(lag, times, server)
    ensures var replies := ClockRun(cfg, None, times, server);
            cfg.window * Admitted(replies)
                <= cfg.limit * cfg.window + cfg.limit * ForwardMoves(times[0], times, replies)
  {
    hide Script, ClockRun, Admitted, ForwardMoves, LagsAtMost, LagsSince;
    var next := Script(cfg, None, times[0], server[0]).0;
    FirstIsAdmitted(cfg, times[0], server[0]);
    MovingRunStep(cfg, None, times[0], times, server);
    LagsOnward(lag, times[0], server[0], times, server);
    LaggingBudget(cfg, next.value, lag, server[0], times[1..], server[1..]);
    MulAdds(cfg.window, 1, Admitted(ClockRun(cfg, next, times[1..], server[1..])));
  }

  /** On all runs with at most this lag, admissions stay within one burst plus the refill of the forward moves. */
  ghost predicate BoundedDespiteLag(cfg: Config, lag: nat)
    requires cfg.Valid()
  {
    forall times, server ::
      |times| == |server| && times != [] && Nondecreasing(server) && LagsAtMost(lag, times, server) ==>
        var replies := ClockRun(cfg, None, times, server);
        cfg.window * Admitted(replies) <= cfg.limit * cfg.window + cfg.limit * ForwardMoves(times[0], times, replies)
  }

  lemma {:induction false} AllAdmitted(replies: seq<Reply>)
    requires forall i :: 0 <= i < |replies| ==> replies[i].allowed
    ensures Admitted(replies) == |replies|
    decreases |replies|
  {
    if replies != [] { AllAdmitted(replies[1..]); }
  }

  lemma {:induction false} MovesOfBurst(last: int, t: int, k: nat, times: seq<int>, replies: seq<Reply>)
    requires |replies| == k + |times| && k >= 1 && forall i :: 0 <= i < |replies| ==> replies[i].allowed
    ensures ForwardMoves(last, Repeat(t, k) + times, replies) == Max(0, t - last) + ForwardMoves(t, times, replies[k..])
    decreases k
  {
    var ts := Repeat(t, k) + times;
    if k == 1 {
      assert ts[1..] == times;
    } else {
      assert ts[1..] == Repeat(t, k - 1) + times;
      MovesOfBurst(t, t, k - 1, times, replies[1..]);
      assert replies[1..][k - 1..] == replies[k..];
    }
  }

  /** The caller's clock may lag behind Redis's exactly by what an hour exceeds the window. */
  lemma BoundedExactlyUpToLag(cfg: Config, lag: nat)
    requires cfg.Valid()
    ensures BoundedDespiteLag(cfg, lag) <==> cfg.window + lag <= 3600
  {
    if cfg.window + lag <= 3600 {
      forall times, server | |times| == |server| && times != [] && Nondecreasing(server)
          && LagsAtMost(lag, times, server)
        ensures var replies := ClockRun(cfg, None, times, server);
                cfg.window * Admitted(replies)
                    <= cfg.limit * cfg.window + cfg.limit * ForwardMoves(times[0], times, replies)
      {
        LaggingRateBound(cfg, lag, times, server);
      }
    } else {
      LaggingBurstsExceed(cfg, lag);
    }
  }

  lemma TwoBurstsMove(cfg: Config, moved: nat, times: seq<int>, server: seq<int>) returns (replies: seq<Reply>)
    requires cfg.Valid()
    requires times == Repeat(0, cfg.limit) + Repeat(moved, cfg.limit)
    requires server == Repeat(0, cfg.limit) + Repeat(3600, cfg.limit)
    ensures replies == ClockRun(cfg, None, times, server)
    ensures Admitted(replies) == cfg.limit + cfg.limit && ForwardMoves(0, times, replies) == moved
  {
    var k := cfg.limit;
    replies := TwoBursts(cfg, moved, times, server);
    hide ClockRun;
    AllAdmitted(replies);
    MovesOfBurst(0, 0, k, Repeat(moved, k), replies);
    assert Repeat(moved, k) + [] == Repeat(moved, k);
    assert ForwardMoves(moved, [], replies[k..][k..]) == 0;
    MovesOfBurst(0, moved, k, [], replies[k..]);
  }

  lemma LaggingBurstsExceed(cfg: Config, lag: nat)
    requires cfg.Valid() && cfg.window + lag > 3600
    ensures !BoundedDespiteLag(cfg, lag)
  {
    var k, moved := cfg.limit, 3600 - Min(lag, 3600);
    var times, server := Repeat(0, k) + Repeat(moved, k), Repeat(0, k) + Repeat(3600, k);
    assert Nondecreasing(server) && LagsAtMost(lag, times, server) && times[0] == 0;
    hide ClockRun, LagsAtMost, Nondecreasing, ForwardMoves, Admitted;
    var replies := TwoBurstsMove(cfg, moved, times, server);
    TwiceIsMore(cfg.window, k, moved);
  }

  // ---------- no policy admits more ----------

  /** A policy that spends a token from the same refilling, capped bucket whenever it says yes. */
  predicate NeverOverdraws(cfg: Config, b: Bucket, times: seq<int>, policy: seq<bool>)
    requires |times| == |policy|
    decreases |times|
  {
    times == [] || (
      var level := Level(cfg, Some(b), times[0]);
      && (policy[0] ==> level >= cfg.window)
      && NeverOverdraws(cfg, Bucket(if policy[0] then level - cfg.window else level, times[0]), times[1..], policy[1..])
    )
  }

  function Yeses(policy: seq<bool>): nat {
    if policy == [] then 0 else (if policy[0] then 1 else 0) + Yeses(policy[1..])
  }

  /**
   `ahead` is how many more requests the script has admitted so far than the policy; the tokens
   spent on them are all the script's bucket can lack, now and at any later time.
   */
  ghost predicate Covers(cfg: Config, stored: Option<Stored>, other: Bucket, ahead: nat, since: int) {
    && other.lastUpdate <= since
    && (stored.Some? ==> stored.value.bucket.lastUpdate <= since)
    && forall u :: u >= since ==>
      Level(cfg, Live(stored, u), u) + ahead * cfg.window >= Level(cfg, Some(other), u)
  }

  lemma LeadPays(w: nat, mine: int, theirs: int, ahead: nat, says: bool)
    requires w >= 1 && mine + ahead * w >= theirs && (says ==> theirs >= w)
    ensures var admits := mine >= w;
            var lead := ahead + (if admits then 1 else 0) - (if says then 1 else 0);
            && lead >= 0
            && (if admits then mine - w else mine) + lead * w >= (if says then theirs - w else theirs)
  {
    var admits := mine >= w;
    assert ahead == 0 ==> ahead * w == 0;
    MulAdds(w, ahead, (if admits then 1 else 0) - (if says then 1 else 0));
  }

  lemma CoversNext(cfg: Config, stored: Option<Stored>, other: Bucket, ahead: nat, since: int, now: int, says: bool)
    requires cfg.Valid() && Covers(cfg, stored, other, ahead, since) && since <= now
    requires says ==> Level(cfg, Some(other), now) >= cfg.window
    ensures var (next, reply) := Script(cfg, stored, now, now);
            var theirs := Level(cfg, Some(other), now);
            var lead := ahead + (if reply.allowed then 1 else 0) - (if says then 1 else 0);
            && lead >= 0
            && Covers(cfg, next, Bucket(if says then theirs - cfg.window else theirs, now), lead, now)
  {
    hide WholeTokens, SecondsToFull;
    var mine, theirs := Level(cfg, Live(stored, now), now), Level(cfg, Some(other), now);
    var (next, reply) := Script(cfg, stored, now, now);
    LeadPays(cfg.window, mine, theirs, ahead, says);
    var lead := ahead + (if reply.allowed then 1 else 0) - (if says then 1 else 0);
    var otherNext := Bucket(if says then theirs - cfg.window else theirs, now);
    MulMono(0, lead, cfg.window);
    forall u | u >= now
      ensures Level(cfg, Live(next, u), u) + lead * cfg.window >= Level(cfg, Some(otherNext), u)
    {
      LevelGrows(cfg, stored, now, u);
    }
  }

  /** What the script holds at `u`, if nothing was written since `now`, is at least the refill of what it held then. */
  lemma LevelGrows(cfg: Config, stored: Option<Stored>, now: int, u: int)
    requires cfg.Valid() && now <= u && (stored.Some? ==> stored.value.bucket.lastUpdate <= now)
    ensures Level(cfg, Live(stored, u), u) >= Min(cfg.Capacity(),
                                                  Level(cfg, Live(stored, now), now) + (u - now) * cfg.limit)
  {
    if Live(stored, u).Some? {
      var b := stored.value.bucket;
      RefillInSteps(cfg.Capacity(), b.tokens, now - b.lastUpdate, u - now, cfg.limit);
    }
  }

  lemma {:induction false} GreedyStaysAhead(
      cfg: Config, stored: Option<Stored>, other: Bucket, ahead: nat, since: int, times: seq<int>, policy: seq<bool>)
    requires cfg.Valid() && |times| == |policy| && Nondecreasing(times) && (times != [] ==> since <= times[0])
    requires Covers(cfg, stored, other, ahead, since)
    requires NeverOverdraws(cfg, other, times, policy)
    ensures ahead + Admitted(LazyRun(cfg, stored, times)) >= Yeses(policy)
    decreases |times|
  {
    hide WholeTokens, SecondsToFull;
    if times == [] { return; }
    var now := times[0];
    CoversNext(cfg, stored, other, ahead, since, now, policy[0]);
    var (next, reply) := Script(cfg, stored, now, now);
    var theirs := Level(cfg, Some(other), now);
    var lead := ahead + (if reply.allowed then 1 else 0) - (if policy[0] then 1 else 0);
    GreedyStaysAhead(cfg, next, Bucket(if policy[0] then theirs - cfg.window else theirs, now), lead, now,
                     times[1..], policy[1..]);
    assert LazyRun(cfg, stored, times)[1..] == LazyRun(cfg, next, times[1..]);
  }

  lemma {:induction false} RunOfPrefix(cfg: Config, stored: Option<Stored>, times: seq<int>, n: nat)
    requires cfg.Valid() && n <= |times|
    ensures LazyRun(cfg, stored, times[..n]) == LazyRun(cfg, stored, times)[..n]
    decreases n
  {
    if n > 0 {
      assert times[..n][1..] == times[1..][..n - 1];
      RunOfPrefix(cfg, Script(cfg, stored, times[0], times[0]).0, times[1..], n - 1);
    }
  }

  lemma {:induction false} PolicyOfPrefix(cfg: Config, b: Bucket, times: seq<int>, policy: seq<bool>, n: nat)
    requires |times| == |policy| && n <= |times| && NeverOverdraws(cfg, b, times, policy)
    ensures NeverOverdraws(cfg, b, times[..n], policy[..n])
    decreases n
  {
    if n > 0 {
      var level := Level(cfg, Some(b), times[0]);
      assert times[..n][1..] == times[1..][..n - 1] && policy[..n][1..] == policy[1..][..n - 1];
      PolicyOfPrefix(cfg, Bucket(if policy[0] then level - cfg.window else level, times[0]), times[1..], policy[1..],
                     n - 1);
    }
  }

  /** At every point of every nondecreasing trace, the script has admitted at least as many as any other policy. */
  lemma GreedyIsOptimal(cfg: Config, times: seq<int>, policy: seq<bool>, start: int, n: nat)
    requires cfg.Valid() && Nondecreasing(times)
    requires times != [] ==> start <= times[0]
    requires |times| == |policy| && NeverOverdraws(cfg, FullBucket(cfg, start), times, policy)
    requires n <= |times|
    ensures Admitted(LazyRun(cfg, None, times)[..n]) >= Yeses(policy[..n])
  {
    var full := FullBucket(cfg, start);
    RunOfPrefix(cfg, None, times, n);
    PolicyOfPrefix(cfg, full, times, policy, n);
    forall u | u >= start ensures Level(cfg, Live(None, u), u) + 0 * cfg.window >= Level(cfg, Some(full), u) {
    }
    GreedyStaysAhead(cfg, None, full, 0, start, times[..n], policy[..n]);
  }

  // ---------- what the answers mean ----------

  lemma LevelAfterScript(cfg: Config, stored: Option<Stored>, now: int, serverNow: int)
    requires cfg.Valid() && SaneStored(cfg, stored)
    ensures var (next, reply) := Script(cfg, stored, now, serverNow);
            var level := Level(cfg, Live(stored, serverNow), now);
            && reply.allowed == (level >= cfg.window)
            && Level(cfg, Live(next, serverNow), now) == if reply.allowed then level - cfg.window else level
  {
    LevelInRange(cfg, Live(stored, serverNow), now);
  }

  /** The script keeps every bucket between empty and full. */
  lemma ScriptKeepsSane(cfg: Config, stored: Option<Stored>, now: int, serverNow: int)
    requires cfg.Valid() && SaneStored(cfg, stored)
    ensures SaneStored(cfg, Script(cfg, stored, now, serverNow).0)
  {
    LevelInRange(cfg, Live(stored, serverNow), now);
  }

  lemma {:induction false} RemainingRun(cfg: Config, stored: Option<Stored>, now: int, serverNow: int, n: nat, i: nat)
    requires cfg.Valid() && SaneStored(cfg, stored) && i < n
    ensures ClockRun(cfg, stored, Repeat(now, n), Repeat(serverNow, n))[i].allowed
            <==> i < Level(cfg, Live(stored, serverNow), now) / cfg.window
    decreases n
  {
    hide Script, Level, ClockRun;
    var next := Script(cfg, stored, now, serverNow).0;
    var level, left := Level(cfg, Live(stored, serverNow), now), Level(cfg, Live(next, serverNow), now);
    LevelInRange(cfg, Live(stored, serverNow), now);
    LevelAfterScript(cfg, stored, now, serverNow);
    RunCons(cfg, stored, now, serverNow, Repeat(now, n - 1), Repeat(serverNow, n - 1));
    if level >= cfg.window { QuotientShift(level, cfg.window); } else { QuotientIs(level, cfg.window, 0); }
    if i > 0 {
      ScriptKeepsSane(cfg, stored, now, serverNow);
      RemainingRun(cfg, next, now, serverNow, n - 1, i - 1);
    }
  }

  /** `remaining = k`: of any number of further requests in the same second, exactly the first k succeed. */
  lemma RemainingIsExact(cfg: Config, stored: Option<Stored>, now: int, serverNow: int, n: nat)
    requires cfg.Valid() && SaneStored(cfg, stored)
    ensures var (next, reply) := Script(cfg, stored, now, serverNow);
            var replies := ClockRun(cfg, next, Repeat(now, n), Repeat(serverNow, n));
            forall i :: 0 <= i < n ==> (replies[i].allowed <==> i < reply.remaining)
  {
    LevelInRange(cfg, Live(stored, serverNow), now);
    var (next, reply) := Script(cfg, stored, now, serverNow);
    ScriptKeepsSane(cfg, stored, now, serverNow);
    LevelAfterScript(cfg, stored, now, serverNow);
    hide Level, ClockRun, SecondsToFull, Config.Capacity;
    forall i | 0 <= i < n
      ensures ClockRun(cfg, next, Repeat(now, n), Repeat(serverNow, n))[i].allowed <==> i < reply.remaining
    {
      RemainingRun(cfg, next, now, serverNow, n, i);
    }
  }

  /** How far the key's last update lies in the future of a rejected request. */
  function Lag(stored: Option<Stored>, now: int, reply: Reply): nat {
    if reply.allowed || stored.None? then 0 else Max(0, stored.value.bucket.lastUpdate - now)
  }

  /** Seconds until Redis drops the key a request leaves behind. */
  function DropsIn(stored: Option<Stored>, serverNow: int, reply: Reply): int {
    if reply.allowed || stored.None? then 3600 else stored.value.expiresAt - serverNow
  }

  /** The bucket is full once both clocks have moved on by `wait`. */
  ghost predicate FullAfter(cfg: Config, stored: Option<Stored>, now: int, serverNow: int, wait: nat) {
    Level(cfg, Live(stored, serverNow + wait), now + wait) == cfg.Capacity()
  }

  lemma FullIff(cfg: Config, b: Bucket, u: int)
    requires cfg.Valid() && Sane(cfg, b) && b.tokens < cfg.Capacity()
    ensures Level(cfg, Some(b), u) == cfg.Capacity() <==> (u - b.lastUpdate) * cfg.limit >= cfg.Capacity() - b.tokens
  {
    var elapsed := u - b.lastUpdate;
    if elapsed <= 0 {
      MulMono(elapsed, 0, cfg.limit);
      assert Max(0, elapsed) * cfg.limit == 0;
    }
  }

  lemma FullAfterAdmission(cfg: Config, tokens: nat, now: int, serverNow: int, wait: nat)
    requires cfg.Valid() && tokens < cfg.Capacity()
    ensures FullAfter(cfg, Some(Stored(Bucket(tokens, now), serverNow + 3600)), now, serverNow, wait)
            <==> wait >= SecondsToFull(cfg, tokens) || wait >= 3600
  {
    FullIff(cfg, Bucket(tokens, now), now + wait);
    CeilDivIsLeast(cfg.Capacity() - tokens, cfg.limit, wait);
  }

  lemma FullAfterRejection(cfg: Config, stored: Stored, now: int, serverNow: int, wait: nat)
    requires cfg.Valid() && Sane(cfg, stored.bucket) && serverNow < stored.expiresAt
    requires Level(cfg, Some(stored.bucket), now) < cfg.Capacity()
    ensures FullAfter(cfg, Some(stored), now, serverNow, wait)
            <==> || wait >= SecondsToFull(cfg, Level(cfg, Some(stored.bucket), now))
                 + Max(0, stored.bucket.lastUpdate - now)
                 || wait >= stored.expiresAt - serverNow
  {
    var b := stored.bucket;
    var level := Level(cfg, Some(b), now);
    var gone, lag := Max(0, now - b.lastUpdate), Max(0, b.lastUpdate - now);
    UncappedLevel(cfg, b, now);
    FullIff(cfg, b, now + wait);
    LevelOfForgotten(cfg, now + wait);
    hide Level;
    CeilDivIsLeast(cfg.Capacity() - level, cfg.limit, wait - lag);
    MulAdds(cfg.limit, wait - lag, gone);
  }

  lemma UncappedLevel(cfg: Config, b: Bucket, now: int)
    requires cfg.Valid() && Sane(cfg, b) && Level(cfg, Some(b), now) < cfg.Capacity()
    ensures 0 <= Level(cfg, Some(b), now) == b.tokens + Max(0, now - b.lastUpdate) * cfg.limit
  {
    MulMono(0, Max(0, now - b.lastUpdate), cfg.limit);
  }

  lemma LevelOfForgotten(cfg: Config, now: int)
    ensures Level(cfg, None, now) == cfg.Capacity()
  {
  }

  lemma RejectionFindsKey(cfg: Config, stored: Option<Stored>, now: int, serverNow: int)
    requires cfg.Valid() && !Admits(cfg, Live(stored, serverNow), now)
    ensures stored.Some? && serverNow < stored.value.expiresAt && Live(stored, serverNow) == Some(stored.value.bucket)
  {
    CapacityCoversCost(cfg);
  }

  /** After a request the bucket is full from the reported wait plus the lag on, or once Redis drops the key. */
  lemma FullExactlyAfter(cfg: Config, stored: Option<Stored>, now: int, serverNow: int, wait: nat)
    requires cfg.Valid() && SaneStored(cfg, stored)
    ensures var (next, reply) := Script(cfg, stored, now, serverNow);
            FullAfter(cfg, next, now, serverNow, wait)
            <==> wait >= Min(reply.resetAfter + Lag(stored, now, reply), DropsIn(stored, serverNow, reply))
  {
    hide WholeTokens, SecondsToFull, FullAfter, Level;
    CapacityCoversCost(cfg);
    LevelInRange(cfg, Live(stored, serverNow), now);
    var level := Level(cfg, Live(stored, serverNow), now);
    if level >= cfg.window {
      FullAfterAdmission(cfg, level - cfg.window, now, serverNow, wait);
    } else {
      RejectionFindsKey(cfg, stored, now, serverNow);
      FullAfterRejection(cfg, stored.value, now, serverNow, wait);
    }
  }

  /** `resetAfter` is the least idle wait after which the bucket is full. */
  ghost predicate ResetIsExact(cfg: Config, stored: Option<Stored>, now: int, serverNow: int)
    requires cfg.Valid()
  {
    var (next, reply) := Script(cfg, stored, now, serverNow);
    forall wait: nat :: FullAfter(cfg, next, now, serverNow, wait) <==> wait >= reply.resetAfter
  }

  lemma ResetAfterPositive(cfg: Config, stored: Option<Stored>, now: int, serverNow: int)
    requires cfg.Valid() && SaneStored(cfg, stored)
    ensures Script(cfg, stored, now, serverNow).1.resetAfter >= 1
    ensures DropsIn(stored, serverNow, Script(cfg, stored, now, serverNow).1) >= 1
  {
    CapacityCoversCost(cfg);
    LevelInRange(cfg, Live(stored, serverNow), now);
    var level := Level(cfg, Live(stored, serverNow), now);
    if level < cfg.window { RejectionFindsKey(cfg, stored, now, serverNow); }
    var left := if level >= cfg.window then level - cfg.window else level;
    CeilDivIsLeast(cfg.Capacity() - left, cfg.limit, 0);
  }

  /**
   The reported reset time is exact exactly if the request did not lag behind the key's last update and
   the key lives that long, or if Redis drops the key at that very second.
   */
  lemma ResetAfterIsExactExactlyIf(cfg: Config, stored: Option<Stored>, now: int, serverNow: int)
    requires cfg.Valid() && SaneStored(cfg, stored)
    ensures var reply := Script(cfg, stored, now, serverNow).1;
            var drop := DropsIn(stored, serverNow, reply);
            ResetIsExact(cfg, stored, now, serverNow)
            <==> (Lag(stored, now, reply) == 0 && reply.resetAfter <= drop) || reply.resetAfter == drop
  {
    var (next, reply) := Script(cfg, stored, now, serverNow);
    var lag, drop := Lag(stored, now, reply), DropsIn(stored, serverNow, reply);
    ResetAfterPositive(cfg, stored, now, serverNow);
    hide Script, FullAfter, Lag, DropsIn;
    forall wait: nat
      ensures FullAfter(cfg, next, now, serverNow, wait) <==> wait >= Min(reply.resetAfter + lag, drop)
    {
      FullExactlyAfter(cfg, stored, now, serverNow, wait);
    }
    var least := Min(reply.resetAfter + lag, drop);
    if least != reply.resetAfter {
      var wait := Min(least, reply.resetAfter);
      assert FullAfter(cfg, next, now, serverNow, wait) <==> wait >= least;
      assert !(FullAfter(cfg, next, now, serverNow, wait) <==> wait >= reply.resetAfter);
    }
  }

  /** With one clock that does not go back, every reset time is exact. */
  ghost predicate ResetsAreExact(cfg: Config)
    requires cfg.Valid()
  {
    forall b, now :: Sane(cfg, b) && b.lastUpdate <= now ==> ExactOnOneClock(cfg, b, now)
  }

  ghost predicate ExactOnOneClock(cfg: Config, b: Bucket, now: int)
    requires cfg.Valid()
  {
    ResetIsExact(cfg, Some(Stored(b, b.lastUpdate + 3600)), now, now)
  }

  lemma SecondsToFullWithin(cfg: Config, tokens: int, wait: nat)
    requires cfg.Valid() && tokens <= cfg.Capacity() && wait * cfg.limit >= cfg.Capacity() - tokens
    ensures SecondsToFull(cfg, tokens) <= wait
  {
    CeilDivIsLeast(cfg.Capacity() - tokens, cfg.limit, wait);
  }

  lemma ResetWithinWindow(cfg: Config, b: Bucket, now: int)
    requires cfg.Valid() && cfg.window <= 3600 && Sane(cfg, b) && b.lastUpdate <= now
    ensures ResetIsExact(cfg, Some(Stored(b, b.lastUpdate + 3600)), now, now)
  {
    hide ResetIsExact, SecondsToFull, WholeTokens, Level, Config.Capacity;
    var stored := Some(Stored(b, b.lastUpdate + 3600));
    var level := Level(cfg, Live(stored, now), now);
    LevelInRange(cfg, Live(stored, now), now);
    ResetAfterIsExactExactlyIf(cfg, stored, now, now);
    assert cfg.Capacity() == cfg.window * cfg.limit by { CapacityIs(cfg); }
    if level >= cfg.window {
      SecondsToFullWithin(cfg, level - cfg.window, cfg.window);
    } else {
      RejectionFindsKey(cfg, stored, now, now);
      CapacityCoversCost(cfg);
      UncappedLevel(cfg, b, now);
      RefillLeft(cfg, b.tokens, now - b.lastUpdate);
      SecondsToFullWithin(cfg, level, cfg.window - (now - b.lastUpdate));
    }
  }

  lemma CapacityIs(cfg: Config)
    ensures cfg.Capacity() == cfg.window * cfg.limit
  {
  }

  lemma RefillLeft(cfg: Config, tokens: nat, gone: nat)
    requires cfg.Valid() && tokens + gone * cfg.limit < cfg.Capacity()
    ensures cfg.window - gone >= 0
    ensures (cfg.window - gone) * cfg.limit >= cfg.Capacity() - (tokens + gone * cfg.limit)
  {
    CapacityIs(cfg);
    if gone > cfg.window { MulMono(cfg.window, gone, cfg.limit); }
    MulAdds(cfg.limit, cfg.window - gone, gone);
  }

  /** The last of a burst is told to wait a whole window, but a key dropped before that is full sooner. */
  lemma LongWindowResetsEarly(cfg: Config)
    requires cfg.Valid() && cfg.window > 3600
    ensures !ResetIsExact(cfg, Some(Stored(Bucket(cfg.window, 0), 3600)), 0, 0)
  {
    var stored := Some(Stored(Bucket(cfg.window, 0), 3600));
    CapacityCoversCost(cfg);
    ResetAfterIsExactExactlyIf(cfg, stored, 0, 0);
    hide ResetIsExact;
    assert Level(cfg, Live(stored, 0), 0) == cfg.window;
    CeilDivIsLeast(cfg.Capacity(), cfg.limit, cfg.window - 1);
    MulAdds(cfg.limit, cfg.window - 1, 1);
  }

  /** Reset times are exact, on one clock that does not go back, exactly for windows of at most an hour. */
  lemma ResetExactlyUpToAnHour(cfg: Config)
    requires cfg.Valid()
    ensures ResetsAreExact(cfg) <==> cfg.window <= 3600
  {
    hide ResetIsExact;
    if cfg.window <= 3600 {
      forall b, now | Sane(cfg, b) && b.lastUpdate <= now
        ensures ExactOnOneClock(cfg, b, now)
      {
        ResetWithinWindow(cfg, b, now);
      }
    } else {
      LongWindowResetsEarly(cfg);
      CapacityCoversCost(cfg);
      var b := Bucket(cfg.window, 0);
      assert Sane(cfg, b) && !ExactOnOneClock(cfg, b, 0);
    }
  }

  // ---------- obeying Retry-After ----------

  /** Seconds of refill until one request can be paid for. */
  function SecondsToOne(cfg: Config, tokens: int): int
    requires cfg.Valid()
  {
    CeilDiv(cfg.window - tokens, cfg.limit)
  }

  lemma PaidIff(cfg: Config, b: Bucket, u: int)
    requires cfg.Valid() && Sane(cfg, b) && b.tokens < cfg.window
    ensures Admits(cfg, Some(b), u) <==> (u - b.lastUpdate) * cfg.limit >= cfg.window - b.tokens
  {
    CapacityCoversCost(cfg);
    var elapsed := u - b.lastUpdate;
    if elapsed <= 0 {
      MulMono(elapsed, 0, cfg.limit);
      assert Max(0, elapsed) * cfg.limit == 0;
    }
  }

  /**
   A rejected request repeated after `wait` idle seconds is admitted exactly from the refill of one
   request plus the lag on, or once the key is dropped.
   */
  lemma RetryIsAdmittedExactlyFrom(cfg: Config, stored: Option<Stored>, now: int, serverNow: int, wait: nat)
    requires cfg.Valid() && SaneStored(cfg, stored) && !Script(cfg, stored, now, serverNow).1.allowed
    ensures var (next, reply) := Script(cfg, stored, now, serverNow);
            Script(cfg, next, now + wait, serverNow + wait).1.allowed
            <==> || wait >= SecondsToOne(cfg, Level(cfg, Live(stored, serverNow), now)) + Lag(stored, now, reply)
                 || wait >= DropsIn(stored, serverNow, reply)
  {
    hide Level, SecondsToFull, WholeTokens, Config.Capacity;
    CapacityCoversCost(cfg);
    RejectionFindsKey(cfg, stored, now, serverNow);
    LevelOfForgotten(cfg, now + wait);
    RetryPays(cfg, stored.value.bucket, now, wait);
  }

  lemma RetryPays(cfg: Config, b: Bucket, now: int, wait: nat)
    requires cfg.Valid() && Sane(cfg, b) && !Admits(cfg, Some(b), now)
    ensures Admits(cfg, Some(b), now + wait)
            <==> wait >= SecondsToOne(cfg, Level(cfg, Some(b), now)) + Max(0, b.lastUpdate - now)
  {
    CapacityCoversCost(cfg);
    var level := Level(cfg, Some(b), now);
    var gone, lag := Max(0, now - b.lastUpdate), Max(0, b.lastUpdate - now);
    UncappedLevel(cfg, b, now);
    hide Level, Config.Capacity;
    MulMono(0, gone, cfg.limit);
    PaidIff(cfg, b, now + wait);
    CeilDivIsLeast(cfg.window - level, cfg.limit, wait - lag);
    MulAdds(cfg.limit, wait - lag, gone);
  }

  /**
   A rejected client that obeys Retry-After is admitted exactly if its clock lags behind the key's last
   update by no more than a full bucket takes longer than one token, or if Redis drops the key in time.
   */
  lemma RetryAfterResetIsAdmittedExactlyIf(cfg: Config, stored: Option<Stored>, now: int, serverNow: int)
    requires cfg.Valid() && SaneStored(cfg, stored) && !Script(cfg, stored, now, serverNow).1.allowed
    ensures var (next, reply) := Script(cfg, stored, now, serverNow);
            Script(cfg, next, now + reply.resetAfter, serverNow + reply.resetAfter).1.allowed
            <==> || Lag(stored, now, reply)
                 <= reply.resetAfter - SecondsToOne(cfg, Level(cfg, Live(stored, serverNow), now))
                 || DropsIn(stored, serverNow, reply) <= reply.resetAfter
  {
    ResetAfterPositive(cfg, stored, now, serverNow);
    RetryIsAdmittedExactlyFrom(cfg, stored, now, serverNow, Script(cfg, stored, now, serverNow).1.resetAfter);
  }

  /** Unless the clock has gone back, whoever waits the reported time is admitted, for windows of any length. */
  lemma RetryAfterResetIsAdmitted(cfg: Config, stored: Option<Stored>, now: int, serverNow: int, wait: nat)
    requires cfg.Valid() && SaneStored(cfg, stored)
    requires var reply := Script(cfg, stored, now, serverNow).1;
             Lag(stored, now, reply) == 0 && wait >= reply.resetAfter
    ensures Script(cfg, Script(cfg, stored, now, serverNow).0, now + wait, serverNow + wait).1.allowed
  {
    FullExactlyAfter(cfg, stored, now, serverNow, wait);
    CapacityCoversCost(cfg);
  }

  /**
   With a clock that is set back by a minute, one request a minute: the client waits as told and is
   told to wait again.
   */
  lemma SetBackClientWaitsTwice()
    ensures var cfg, stored := Config(1, 60), Some(Stored(Bucket(0, 100), 3700));
            var (next, reply) := Script(cfg, stored, 40, 100);
            var again := Script(cfg, next, 40 + reply.resetAfter, 100 + reply.resetAfter).1;
            !reply.allowed && reply.resetAfter == 60 && !again.allowed && again.resetAfter == 60
  {
  }
}
