/** Arming a watch (`internal/api/api.go`, `createWatch`): how long it lives and
    what is stored. */
module Api {
  import opened Base
  import opened Schema

  const SECOND: int := 1_000_000_000
  const DEFAULT_TTL: int := 30 * 60 * SECOND
  const MAX_TTL: int := 6 * 60 * 60 * SECOND

  datatype Request = Request(
    device: string,
    kind: Kind,
    operatorKeys: seq<string>,
    minRangeM: int,
    threshold: int,
    ttlSeconds: int,
    repeats: bool)

  /** A 64-bit two's-complement product. */
  function Wrap(x: int): (r: int)
    ensures -0x8000_0000_0000_0000 <= r < 0x8000_0000_0000_0000
    ensures -0x8000_0000_0000_0000 <= x < 0x8000_0000_0000_0000 ==> r == x
  {
    (x + 0x8000_0000_0000_0000) % 0x1_0000_0000_0000_0000 - 0x8000_0000_0000_0000
  }

  function TtlOf(ttlSeconds: int): int {
    var ttl := Wrap(ttlSeconds * SECOND);
    if ttl <= 0 then DEFAULT_TTL else if ttl > MAX_TTL then MAX_TTL else ttl
  }

  function WatchOf(r: Request, fence: string, baseline: seq<string>, id: string, now: int): Watch {
    Watch(id, if r.device == "" then "unknown" else r.device, r.kind, fence, r.operatorKeys, r.minRangeM, r.threshold,
          baseline, r.repeats, Armed, Unix(now), Unix(now + TtlOf(r.ttlSeconds)), None)
  }

  /** No watch outlives six hours, and none expires before it was created. A
      request of a whole number of seconds that fits gets exactly what it asked
      for, half an hour when it asked for none, six hours when it asked for more. */
  lemma LifetimeIsBounded(r: Request, fence: string, baseline: seq<string>, id: string, now: int)
    ensures var w := WatchOf(r, fence, baseline, id, now);
            && 0 <= w.expiresAt - w.createdAt <= 21600
            && (-9_223_372_036 <= r.ttlSeconds <= 9_223_372_036 ==>
                  w.expiresAt - w.createdAt
                  == if r.ttlSeconds <= 0 then 1800 else if r.ttlSeconds > 21600 then 21600 else r.ttlSeconds)
  {
    UnixMonotone(now, now + TtlOf(r.ttlSeconds));
    UnixMonotone(now + TtlOf(r.ttlSeconds), now + MAX_TTL);
  }

  function Clamped(ttl: int): int {
    if ttl <= 0 then DEFAULT_TTL else if ttl > MAX_TTL then MAX_TTL else ttl
  }

  /** A request is honoured exactly when its length in nanoseconds fits 64 bits,
      or what it wraps to happens to be clamped to the same. */
  lemma HonouredExactly(ttlSeconds: int)
    ensures var asked := ttlSeconds * SECOND;
            TtlOf(ttlSeconds) == Clamped(asked) <==>
              || -0x8000_0000_0000_0000 <= asked < 0x8000_0000_0000_0000
              || (asked > 0 && Wrap(asked) >= MAX_TTL)
              || (asked < 0 && (Wrap(asked) <= 0 || Wrap(asked) == DEFAULT_TTL))
  {}

  /** Beyond that the product wraps, and a very long request can get a watch that
      has expired by the time it is armed. */
  lemma HugeLifetimeWraps(r: Request, now: int)
    requires r.ttlSeconds == 20_211_507_185_753_197 && now % SECOND == 0
    ensures var w := WatchOf(r, "f", [], "w", now); w.expiresAt == w.createdAt
  {
    assert r.ttlSeconds * SECOND == 1_095_668 * 0x1_0000_0000_0000_0000 + 512;
  }
}
