/**
 The token bucket of rate_limit.lua for a key that is asked with one limit and one window.

 Tokens are counted in units of 1/window, so that every quantity of the script is a whole
 number: the capacity is `limit * window`, one second refills `limit`, one request costs `window`.
 `LuaBucket` has the script on the tokens it stores, and shows that this one is the same, scaled.
 */
module RateLimit {
  import opened Arithmetic
  import opened Wrappers

  /** Seconds after the last admission at which Redis drops the key. */
  const KEY_TTL := 3600

  datatype Config = Config(limit: nat, window: nat) {
    predicate Valid() { limit >= 1 && window >= 1 }

    function Capacity(): nat { limit * window }
  }

  datatype Bucket = Bucket(tokens: int, lastUpdate: int)

  /** A bucket with the moment, by Redis's clock, at which EXPIRE removes it. */
  datatype Stored = Stored(bucket: Bucket, expiresAt: int)

  datatype Reply = Reply(remaining: int, resetAfter: int, allowed: bool)

  // ---------- the script as a function ----------

  /** The tokens the script finds at time `now`: the stored ones, refilled and capped. */
  function Level(cfg: Config, bucket: Option<Bucket>, now: int): int {
    match bucket
    case None => cfg.Capacity()
    case Some(b) => Min(cfg.Capacity(), b.tokens + Max(0, now - b.lastUpdate) * cfg.limit)
  }

  /** Whole tokens left. */
  function WholeTokens(cfg: Config, tokens: int): int
    requires cfg.Valid()
  {
    tokens / cfg.window
  }

  /** Seconds until a bucket holding `tokens` is full. */
  function SecondsToFull(cfg: Config, tokens: int): int
    requires cfg.Valid()
  {
    CeilDiv(cfg.Capacity() - tokens, cfg.limit)
  }

  function Answer(cfg: Config, tokens: int, allowed: bool): Reply
    requires cfg.Valid()
  {
    Reply(WholeTokens(cfg, tokens), SecondsToFull(cfg, tokens), allowed)
  }

  predicate Admits(cfg: Config, bucket: Option<Bucket>, now: int) {
    Level(cfg, bucket, now) >= cfg.window
  }

  /** One evaluation of the script: the bucket it leaves behind and its answer. */
  function Check(cfg: Config, bucket: Option<Bucket>, now: int): (Option<Bucket>, Reply)
    requires cfg.Valid()
  {
    var level := Level(cfg, bucket, now);
    if level >= cfg.window
    then (Some(Bucket(level - cfg.window, now)), Answer(cfg, level - cfg.window, true))
    else (bucket, Answer(cfg, level, false))
  }

  /** What HMGET sees of a key at Redis time `serverNow`. */
  function Live(stored: Option<Stored>, serverNow: int): Option<Bucket> {
    if stored.Some? && serverNow < stored.value.expiresAt then Some(stored.value.bucket) else None
  }

  /** One `check_limit` against a key: HMSET and EXPIRE happen on admission only. */
  function Script(cfg: Config, stored: Option<Stored>, now: int, serverNow: int): (Option<Stored>, Reply)
    requires cfg.Valid()
  {
    var (b, reply) := Check(cfg, Live(stored, serverNow), now);
    if reply.allowed then (Some(Stored(b.value, serverNow + KEY_TTL)), reply) else (stored, reply)
  }

  predicate Sane(cfg: Config, b: Bucket) {
    0 <= b.tokens <= cfg.Capacity()
  }

  predicate SaneStored(cfg: Config, stored: Option<Stored>) {
    stored.Some? ==> Sane(cfg, stored.value.bucket)
  }

  // ---------- arithmetic ----------

  /** Refilling in two steps is refilling in one, whatever the cap cuts off in between. */
  lemma RefillInSteps(cap: int, tokens: int, first: nat, second: nat, rate: nat)
    ensures Min(cap, Min(cap, tokens + first * rate) + second * rate) == Min(cap, tokens + (first + second) * rate)
  {
    assert (first + second) * rate == first * rate + second * rate;
    MulMono(0, second, rate);
  }

  lemma LevelInRange(cfg: Config, bucket: Option<Bucket>, now: int)
    requires cfg.Valid() && (bucket.Some? ==> Sane(cfg, bucket.value))
    ensures 0 <= Level(cfg, bucket, now) <= cfg.Capacity()
  {
    if bucket.Some? {
      MulMono(0, Max(0, now - bucket.value.lastUpdate), cfg.limit);
    }
  }

  lemma CapacityCoversCost(cfg: Config)
    requires cfg.Valid()
    ensures cfg.Capacity() >= cfg.window
  {
    MulMono(1, cfg.limit, cfg.window);
  }

  // ---------- the eager bucket ----------

  /** The bucket that persists every refill, on rejection too, and never expires. */
  function EagerCheck(cfg: Config, b: Bucket, now: int): (Bucket, Reply)
    requires cfg.Valid()
  {
    var level := Level(cfg, Some(b), now);
    if level >= cfg.window
    then (Bucket(level - cfg.window, now), Answer(cfg, level - cfg.window, true))
    else (Bucket(level, now), Answer(cfg, level, false))
  }

  predicate Nondecreasing(times: seq<int>) {
    forall i, j :: 0 <= i <= j < |times| ==> times[i] <= times[j]
  }

  /**
   The answers of the script to requests the caller stamps with `times`, evaluated when Redis's clock
   shows `server`.
   */
  function ClockRun(cfg: Config, stored: Option<Stored>, times: seq<int>, server: seq<int>): (replies: seq<Reply>)
    requires cfg.Valid() && |times| == |server|
    ensures |replies| == |times|
    decreases |times|
  {
    if times == [] then [] else
      var (next, reply) := Script(cfg, stored, times[0], server[0]);
      [reply] + ClockRun(cfg, next, times[1..], server[1..])
  }

  /** The answers of the script to requests at `times`, Redis's clock agreeing with the caller's. */
  function LazyRun(cfg: Config, stored: Option<Stored>, times: seq<int>): (replies: seq<Reply>)
    requires cfg.Valid()
    ensures |replies| == |times|
  {
    ClockRun(cfg, stored, times, times)
  }

  function EagerRun(cfg: Config, b: Bucket, times: seq<int>): (replies: seq<Reply>)
    requires cfg.Valid()
    ensures |replies| == |times|
    decreases |times|
  {
    if times == [] then [] else
      var (next, reply) := EagerCheck(cfg, b, times[0]);
      [reply] + EagerRun(cfg, next, times[1..])
  }

  function FullBucket(cfg: Config, now: int): Bucket {
    Bucket(cfg.Capacity(), now)
  }

  /** From `since` on, the stored key and the eager bucket hold the same tokens. */
  ghost predicate Agree(cfg: Config, stored: Option<Stored>, b: Bucket, since: int) {
    && b.lastUpdate <= since
    && Sane(cfg, b)
    && SaneStored(cfg, stored)
    && forall u :: u >= since ==> Level(cfg, Live(stored, u), u) == Level(cfg, Some(b), u)
  }

  lemma AgreeAfterAdmission(cfg: Config, tokens: int, now: int)
    requires cfg.Valid() && cfg.window <= 3600 && 0 <= tokens <= cfg.Capacity()
    ensures Agree(cfg, Some(Stored(Bucket(tokens, now), now + 3600)), Bucket(tokens, now), now)
  {
    var b, s := Bucket(tokens, now), Some(Stored(Bucket(tokens, now), now + 3600));
    forall u | u >= now ensures Level(cfg, Live(s, u), u) == Level(cfg, Some(b), u) {
      if u >= now + 3600 {
        MulMono(cfg.window, u - now, cfg.limit);
      }
    }
  }

  lemma AgreeAfterRejection(cfg: Config, stored: Option<Stored>, b: Bucket, since: int, now: int)
    requires cfg.Valid() && Agree(cfg, stored, b, since) && since <= now
    ensures Agree(cfg, stored, Bucket(Level(cfg, Some(b), now), now), now)
  {
    var level := Level(cfg, Some(b), now);
    LevelInRange(cfg, Some(b), now);
    forall u | u >= now ensures Level(cfg, Live(stored, u), u) == Level(cfg, Some(Bucket(level, now)), u) {
      RefillInSteps(cfg.Capacity(), b.tokens, now - b.lastUpdate, u - now, cfg.limit);
    }
  }

  lemma {:induction false} AgreeingRuns(cfg: Config, stored: Option<Stored>, b: Bucket, since: int, times: seq<int>)
    requires cfg.Valid() && cfg.window <= 3600 && Agree(cfg, stored, b, since)
    requires Nondecreasing(times) && (times != [] ==> since <= times[0])
    ensures LazyRun(cfg, stored, times) == EagerRun(cfg, b, times)
    decreases |times|
  {
    if times != [] {
      var now := times[0];
      var level := Level(cfg, Some(b), now);
      assert level == Level(cfg, Live(stored, now), now);
      LevelInRange(cfg, Some(b), now);
      if level >= cfg.window {
        AgreeAfterAdmission(cfg, level - cfg.window, now);
      } else {
        AgreeAfterRejection(cfg, stored, b, since, now);
      }
      AgreeingRuns(cfg, Script(cfg, stored, now, now).0, EagerCheck(cfg, b, now).0, now, times[1..]);
    }
  }

  /**
   On every nondecreasing trace the script, which writes nothing on rejection and loses its key
   after an hour, answers exactly as the bucket that persists every refill and never expires.
   */
  lemma LazyRefinesEager(cfg: Config, times: seq<int>, start: int)
    requires cfg.Valid() && cfg.window <= 3600
    requires Nondecreasing(times) && (times != [] ==> start <= times[0])
    ensures LazyRun(cfg, None, times) == EagerRun(cfg, FullBucket(cfg, start), times)
  {
    forall u | u >= start ensures Level(cfg, Live(None, u), u) == Level(cfg, Some(FullBucket(cfg, start)), u) {
      MulMono(0, u - start, cfg.limit);
    }
    AgreeingRuns(cfg, None, FullBucket(cfg, start), start, times);
  }
}
