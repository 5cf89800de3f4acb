/**
 rate_limit.lua as it is written, on whole and fractional tokens, and its caller `check_limit`. A key
 may be asked with different limits and windows; asked with one, the script is that of `RateLimit`.
 */
module LuaBucket {
  import opened Arithmetic
  import opened RateLimit
  import opened Wrappers

  datatype LuaState = LuaState(tokens: real, lastUpdate: int, expiresAt: int)

  datatype LimitError = CacheOffline

  function RealMin(a: real, b: real): real { if a <= b then a else b }

  function Ceil(x: real): int { -((-x).Floor) }

  /** What the script finds: the tokens it stored, or a full bucket, refilled and capped. */
  function LuaLevel(capacity: real, fillRate: real, stored: Option<LuaState>, now: int, serverNow: int): real {
    var live := stored.Some? && serverNow < stored.value.expiresAt;
    var lastTokens := if live then stored.value.tokens else capacity;
    var lastUpdate := if live then stored.value.lastUpdate else now;
    RealMin(capacity, lastTokens + Max(0, now - lastUpdate) as real * fillRate)
  }

  /** One evaluation: KEYS[1] as it is stored, and ARGV[1] to ARGV[4]. */
  function LuaScript(stored: Option<LuaState>, capacity: real, fillRate: real, now: int, cost: real, serverNow: int)
    : (Option<LuaState>, Reply)
    requires fillRate > 0.0
  {
    var level := LuaLevel(capacity, fillRate, stored, now, serverNow);
    var allowed := level >= cost;
    var left := if allowed then level - cost else level;
    (if allowed then Some(LuaState(left, now, serverNow + KEY_TTL)) else stored,
     Reply(left.Floor, Ceil((capacity - left) / fillRate), allowed))
  }

  function FillRate(limit: nat, window: nat): (rate: real)
    requires limit >= 1 && window >= 1
    ensures rate > 0.0
  {
    limit as real / window as real
  }

  // ---------- the code ----------

  /** The rate-limit keys of Redis behind `RedisLikeRepository::check_limit`. */
  class RateLimiter {
    var connected: bool
    var buckets: map<string, LuaState>

    constructor ()
      ensures buckets == map[] && connected
    {
      connected := true;
      buckets := map[];
    }

    function Lookup(key: string): Option<LuaState>
      reads this
    {
      if key in buckets then Some(buckets[key]) else None
    }

    method CheckLimit(key: string, limit: nat, window: nat, now: int, serverNow: int)
      returns (r: Result<Reply, LimitError>)
      requires limit >= 1 && window >= 1
      modifies this
      ensures connected == old(connected)
      ensures !connected ==> r == Err(CacheOffline) && buckets == old(buckets)
      ensures var script := LuaScript(old(Lookup(key)), limit as real, FillRate(limit, window), now, 1.0, serverNow);
              connected ==> r == Ok(script.1) && Lookup(key) == script.0
      ensures forall other :: other != key ==> Lookup(other) == old(Lookup(other))
    {
      if !connected {
        return Err(CacheOffline);
      }
      var capacity, fillRate, cost := limit as real, FillRate(limit, window), 1.0;
      var lastTokens, lastUpdate := capacity, now;
      if key in buckets && serverNow < buckets[key].expiresAt {
        lastTokens, lastUpdate := buckets[key].tokens, buckets[key].lastUpdate;
      }
      var delta := Max(0, now - lastUpdate);
      var currentTokens := RealMin(capacity, lastTokens + delta as real * fillRate);
      assert currentTokens == LuaLevel(capacity, fillRate, Lookup(key), now, serverNow);
      hide LuaLevel, FillRate, Ceil, RealMin;
      var allowed := false;
      if currentTokens >= cost {
        currentTokens := currentTokens - cost;
        allowed := true;
        buckets := buckets[key := LuaState(currentTokens, now, serverNow + KEY_TTL)];
      }
      var resetAfter := Ceil((capacity - currentTokens) / fillRate);
      r := Ok(Reply(currentTokens.Floor, resetAfter, allowed));
    }
  }

  // ---------- asked with one limit and one window ----------

  /** Whole tokens from units of 1/window. */
  function Tokens(cfg: Config, units: int): real
    requires cfg.Valid()
  {
    units as real / cfg.window as real
  }

  function Unscaled(cfg: Config, stored: Option<Stored>): Option<LuaState>
    requires cfg.Valid()
  {
    match stored
    case None => None
    case Some(s) => Some(LuaState(Tokens(cfg, s.bucket.tokens), s.bucket.lastUpdate, s.expiresAt))
  }

  lemma TokensTimes(cfg: Config, units: int)
    requires cfg.Valid()
    ensures Tokens(cfg, units) * cfg.window as real == units as real
  {
  }

  /** Scaling keeps the order, sums and differences. */
  lemma TokensOrder(cfg: Config, a: int, b: int)
    requires cfg.Valid()
    ensures Tokens(cfg, a) <= Tokens(cfg, b) <==> a <= b
    ensures Tokens(cfg, a) + Tokens(cfg, b) == Tokens(cfg, a + b)
    ensures Tokens(cfg, a) - Tokens(cfg, b) == Tokens(cfg, a - b)
  {
    TokensTimes(cfg, a);
    TokensTimes(cfg, b);
    TimesKeepsOrder(Tokens(cfg, a), Tokens(cfg, b), cfg.window as real);
  }

  lemma WholeQuantities(cfg: Config, delta: nat)
    requires cfg.Valid()
    ensures Tokens(cfg, cfg.Capacity()) == cfg.limit as real
    ensures Tokens(cfg, cfg.window) == 1.0
    ensures Tokens(cfg, delta * cfg.limit) == delta as real * FillRate(cfg.limit, cfg.window)
  {
    var w, l := cfg.window as real, cfg.limit as real;
    assert cfg.Capacity() as real == l * w;
    TimesAndBack(l, w);
    TimesThenOver(delta as real, l, w);
    RealProduct(delta, cfg.limit);
  }

  lemma TimesAndBack(x: real, w: real)
    requires w > 0.0
    ensures (x * w) / w == x && w / w == 1.0
  {
  }

  lemma TimesThenOver(x: real, y: real, w: real)
    requires w > 0.0
    ensures (x * y) / w == x * (y / w)
  {
    var q := y / w;
    assert q * w == y;
    assert x * y == (x * q) * w;
    TimesAndBack(x * q, w);
  }

  lemma RealProduct(a: nat, b: nat)
    ensures (a * b) as real == a as real * b as real
  {
  }

  lemma FloorOfTokens(cfg: Config, units: int)
    requires cfg.Valid()
    ensures Tokens(cfg, units).Floor == WholeTokens(cfg, units)
  {
    var q, w := units / cfg.window, cfg.window as real;
    assert units == q * cfg.window + units % cfg.window;
    FloorIs(Tokens(cfg, units), w, units as real, q);
  }

  lemma FloorIs(x: real, d: real, a: real, q: int)
    requires d > 0.0 && x * d == a && q as real * d <= a < (q + 1) as real * d
    ensures x.Floor == q
  {
    TimesKeepsOrder(q as real, x, d);
    TimesKeepsOrder((q + 1) as real, x, d);
    hide *;
    assert q as real <= x < (q + 1) as real;
    var f := x.Floor;
    assert f as real <= x < (f + 1) as real;
  }

  lemma TimesKeepsOrder(x: real, y: real, d: real)
    requires d > 0.0
    ensures x <= y <==> x * d <= y * d
  {
    assert (y - x) * d == y * d - x * d;
    if x < y {
      PositiveTimes(y - x, d);
    } else if y < x {
      PositiveTimes(x - y, d);
      assert (x - y) * d == x * d - y * d;
    }
  }

  lemma PositiveTimes(x: real, y: real)
    requires x > 0.0 && y > 0.0
    ensures x * y > 0.0
  {
  }

  lemma CeilOfMissing(cfg: Config, units: int)
    requires cfg.Valid()
    ensures Ceil((cfg.limit as real - Tokens(cfg, units)) / FillRate(cfg.limit, cfg.window))
            == SecondsToFull(cfg, units)
  {
    var missing, l := cfg.Capacity() - units, cfg.limit as real;
    WholeQuantities(cfg, 0);
    TokensOrder(cfg, cfg.Capacity(), units);
    var x := Tokens(cfg, missing) / FillRate(cfg.limit, cfg.window);
    QuotientOfRates(missing as real, cfg.window as real, l);
    CeilIs(x, cfg.limit, missing);
  }

  lemma QuotientOfRates(m: real, w: real, l: real)
    requires w > 0.0 && l > 0.0
    ensures ((m / w) / (l / w)) * l == m
  {
    var rate, y := l / w, (m / w) / (l / w);
    assert y * rate == m / w;
    assert (y * rate) * w == m;
    assert rate * w == l;
    assert (y * rate) * w == y * (rate * w);
  }

  lemma CeilIs(x: real, d: nat, m: int)
    requires d >= 1 && x * d as real == m as real
    ensures Ceil(x) == CeilDiv(m, d)
  {
    var c := CeilDiv(m, d);
    assert m + d - 1 == c * d + (m + d - 1) % d;
    assert -m >= (-c) * d && -m < (-c + 1) * d;
    FloorIs(-x, d as real, (-m) as real, -c);
  }

  /**
   The script on whole tokens and on units of 1/window are the same: same admission, same answer, same
   key left behind.
   */
  lemma ScriptIsScaled(cfg: Config, stored: Option<Stored>, now: int, serverNow: int)
    requires cfg.Valid()
    ensures var (next, reply) := Script(cfg, stored, now, serverNow);
            LuaScript(Unscaled(cfg, stored), cfg.limit as real, FillRate(cfg.limit, cfg.window), now, 1.0, serverNow)
            == (Unscaled(cfg, next), reply)
  {
    var level := Level(cfg, Live(stored, serverNow), now);
    LevelIsScaled(cfg, stored, now, serverNow);
    WholeQuantities(cfg, 0);
    TokensOrder(cfg, cfg.window, level);
    TokensOrder(cfg, level, cfg.window);
    var left := if level >= cfg.window then level - cfg.window else level;
    FloorOfTokens(cfg, left);
    CeilOfMissing(cfg, left);
    hide Tokens, Level, LuaLevel, FillRate, Ceil, WholeTokens, SecondsToFull;
  }

  lemma LevelIsScaled(cfg: Config, stored: Option<Stored>, now: int, serverNow: int)
    requires cfg.Valid()
    ensures LuaLevel(cfg.limit as real, FillRate(cfg.limit, cfg.window), Unscaled(cfg, stored), now, serverNow)
            == Tokens(cfg, Level(cfg, Live(stored, serverNow), now))
  {
    hide FillRate, Tokens, Config.Capacity;
    WholeQuantities(cfg, 0);
    if Live(stored, serverNow).Some? {
      var b := stored.value.bucket;
      var gain := Max(0, now - b.lastUpdate) * cfg.limit;
      WholeQuantities(cfg, Max(0, now - b.lastUpdate));
      TokensOrder(cfg, b.tokens, gain);
      TokensOrder(cfg, cfg.Capacity(), b.tokens + gain);
      assert Level(cfg, Live(stored, serverNow), now) == Min(cfg.Capacity(), b.tokens + gain);
    }
  }

  /** The answers of the script to a key asked with one limit and one window. */
  function LuaRun(cfg: Config, stored: Option<LuaState>, times: seq<int>, server: seq<int>): (replies: seq<Reply>)
    requires cfg.Valid() && |times| == |server|
    ensures |replies| == |times|
    decreases |times|
  {
    if times == [] then [] else
      var rate := FillRate(cfg.limit, cfg.window);
      var (next, reply) := LuaScript(stored, cfg.limit as real, rate, times[0], 1.0, server[0]);
      [reply] + LuaRun(cfg, next, times[1..], server[1..])
  }

  /** What is proved of the runs of `RateLimit` holds of the script as it is written. */
  lemma {:induction false} LuaRunIsClockRun(cfg: Config, stored: Option<Stored>, times: seq<int>, server: seq<int>)
    requires cfg.Valid() && |times| == |server|
    ensures LuaRun(cfg, Unscaled(cfg, stored), times, server) == ClockRun(cfg, stored, times, server)
    decreases |times|
  {
    if times != [] {
      ScriptIsScaled(cfg, stored, times[0], server[0]);
      hide Unscaled, LuaScript, Script, FillRate;
      LuaRunIsClockRun(cfg, Script(cfg, stored, times[0], server[0]).0, times[1..], server[1..]);
    }
  }

  // ---------- the script in plain numbers ----------

  /** A key that an admission has written is read for 3600 seconds of Redis's clock, and not any longer. */
  lemma KeyLivesAnHour(stored: Option<LuaState>, limit: nat, window: nat, now: int, serverNow: int, later: int,
                       wait: nat)
    requires limit >= 1 && window >= 1
    requires LuaScript(stored, limit as real, FillRate(limit, window), now, 1.0, serverNow).1.allowed
    ensures var key := LuaScript(stored, limit as real, FillRate(limit, window), now, 1.0, serverNow).0;
            && key.Some? && key.value.lastUpdate == now
            && var found := LuaLevel(limit as real, FillRate(limit, window), key, later, serverNow + wait);
               var kept := key.value.tokens + Max(0, later - now) as real * FillRate(limit, window);
               found == if wait < 3600 && kept <= limit as real then kept else limit as real
  {
    hide FillRate;
  }

  /** The first request for a key is admitted, leaves one token less than the limit, and says when that is refilled. */
  lemma FirstAnswer(limit: nat, window: nat, now: int, serverNow: int)
    requires limit >= 1 && window >= 1
    ensures LuaScript(None, limit as real, FillRate(limit, window), now, 1.0, serverNow).1
            == Reply(limit - 1, (window + limit - 1) / limit, true)
  {
    var cfg := Config(limit, window);
    ScriptIsScaled(cfg, None, now, serverNow);
    CapacityCoversCost(cfg);
    MulAdds(window, limit - 1, 1);
    QuotientIs(cfg.Capacity() - window, window, limit - 1);
    assert cfg.Capacity() - (cfg.Capacity() - window) == window;
  }

  /** The refill of a key emptied at 0 with limit 30 and window 60: five tokens after ten seconds. */
  lemma EmptiedWriteKey()
    ensures LuaScript(Some(LuaState(0.0, 0, 3600)), 30.0, FillRate(30, 60), 10, 1.0, 10).1 == Reply(4, 52, true)
  {
    assert 10.0 * FillRate(30, 60) == 5.0;
    assert (30.0 - 4.0) / FillRate(30, 60) == 52.0;
  }
}
