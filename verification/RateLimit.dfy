/** The Redis fixed-window rate limiter: one atomic script per hit. Times are milliseconds.
    Redis keeps a key through the millisecond its expiry names, so a live key's remaining
    time can be 0. */
module RateLimit {
  import opened Wrappers
  import opened Text

  datatype Entry = Entry(count: nat, expireAt: Option<int>)

  type Store = map<string, Entry>

  const KEY_PREFIX := "isp:rl:"
  const IDENTIFIER_LIMIT := 10
  const IDENTIFIER_WINDOW_SECONDS := 300

  predicate Live(store: Store, key: string, now: int) {
    key in store && (store[key].expireAt.None? || now <= store[key].expireAt.value)
  }

  // ---------------------------------------------------------------- Redis commands

  function Incr(store: Store, key: string, now: int): Store {
    store[key := if Live(store, key, now) then Entry(store[key].count + 1, store[key].expireAt) else Entry(1, None)]
  }

  /** A time to live that is not positive deletes the key. */
  function PExpire(store: Store, key: string, ttl: int, now: int): Store {
    if key !in store then store
    else if ttl <= 0 then store - {key}
    else store[key := store[key].(expireAt := Some(now + ttl))]
  }

  function PTtl(store: Store, key: string, now: int): int {
    if key !in store then -2
    else if store[key].expireAt.None? then -1
    else store[key].expireAt.value - now
  }

  /** The script: its reply, and the store it leaves. */
  function Script(store: Store, key: string, limit: int, window: int, now: int): (int, Store) {
    var counted := Incr(store, key, now);
    var n := counted[key].count;
    var timed := if n == 1 then PExpire(counted, key, window, now) else counted;
    if n > limit then
      var ttl := PTtl(timed, key, now);
      if ttl < 0 then (window, PExpire(timed, key, window, now)) else (ttl, timed)
    else (-1, timed)
  }

  // ---------------------------------------------------------------- enforcement

  /** A call to Redis can fail before the script ran, or after it, with the reply lost. */
  datatype Fate = Up | Lost(counted: bool)

  datatype Verdict = Admitted | TooMany(retryAfter: int)

  datatype Hit = Hit(key: string, limit: int, windowSeconds: int, now: int, fate: Fate)

  function CeilDiv(a: int, b: int): int
    requires b > 0
  {
    -((-a) / b)
  }

  function RetryAfter(ttl: int): int {
    var seconds := CeilDiv(ttl, 1000);
    if seconds > 1 then seconds else 1
  }

  function Enforced(store: Store, h: Hit): (Verdict, Store) {
    var (ttl, after) := Script(store, KEY_PREFIX + h.key, h.limit, h.windowSeconds * 1000, h.now);
    match h.fate
    case Up => (if ttl >= 0 then TooMany(RetryAfter(ttl)) else Admitted, after)
    case Lost(counted) => (Admitted, if counted then after else store)
  }

  /** One login-like request: the times and fates of its two possible Redis calls. */
  datatype Attempt = Attempt(
    scope: string,
    ip: string,
    identifier: Option<string>,
    ipNow: int,
    ipFate: Fate,
    idNow: int,
    idFate: Fate)

  function IpHit(a: Attempt, ipLimit: int, ipWindow: int): Hit {
    Hit(a.scope + ":ip:" + a.ip, ipLimit, ipWindow, a.ipNow, a.ipFate)
  }

  predicate HasIdentifier(a: Attempt) {
    a.identifier.Some? && a.identifier.value != ""
  }

  function IdKey(scope: string, identifier: string): string {
    scope + ":id:" + Lower(Strip(identifier))
  }

  function IdHit(a: Attempt): Hit
    requires HasIdentifier(a)
  {
    Hit(IdKey(a.scope, a.identifier.value), IDENTIFIER_LIMIT, IDENTIFIER_WINDOW_SECONDS, a.idNow, a.idFate)
  }

  /** The hits an attempt makes: the identifier is only counted once the IP layer admits. */
  function HitsOf(store: Store, a: Attempt, ipLimit: int, ipWindow: int): seq<Hit> {
    var ip := IpHit(a, ipLimit, ipWindow);
    if Enforced(store, ip).0.Admitted? && HasIdentifier(a) then [ip, IdHit(a)] else [ip]
  }

  class RateLimiter {
    var store: Store

    method RunScript(key: string, limit: int, window: int, now: int) returns (reply: int)
      modifies this
      ensures (reply, store) == Script(old(store), key, limit, window, now)
    {
      store := Incr(store, key, now);
      var n := store[key].count;
      if n == 1 {
        store := PExpire(store, key, window, now);
      }
      if n > limit {
        var ttl := PTtl(store, key, now);
        if ttl < 0 {
          store := PExpire(store, key, window, now);
          ttl := window;
        }
        return ttl;
      }
      return -1;
    }

    method Enforce(enabled: bool, h: Hit) returns (verdict: Verdict)
      modifies this
      ensures !enabled ==> verdict == Admitted && store == old(store)
      ensures enabled ==> (verdict, store) == Enforced(old(store), h)
      ensures forall k | k != "isp:rl:" + h.key ::
                (k in store <==> k in old(store)) && (k in store ==> store[k] == old(store)[k])
    {
      if !enabled {
        return Admitted;
      }
      if h.fate == Lost(false) {
        return Admitted;
      }
      var ttl := RunScript(KEY_PREFIX + h.key, h.limit, h.windowSeconds * 1000, h.now);
      if h.fate.Up? && ttl >= 0 {
        var retryAfter := CeilDiv(ttl, 1000);
        if retryAfter < 1 {
          retryAfter := 1;
        }
        return TooMany(retryAfter);
      }
      return Admitted;
    }

    method LimitCredentialAttempt(a: Attempt, ipLimit: int, ipWindow: int) returns (verdict: Verdict)
      modifies this
      ensures var ip := Hit(a.scope + ":ip:" + a.ip, ipLimit, ipWindow, a.ipNow, a.ipFate);
              var id := Hit(a.scope + ":id:" + Clean(a.identifier), 10, 300, a.idNow, a.idFate);
              var (first, between) := Enforced(old(store), ip);
              (verdict, store) == if first.Admitted? && !Blank(a.identifier) then Enforced(between, id)
                                  else (first, between)
      ensures var hits := HitsOf(old(store), a, ipLimit, ipWindow);
              var (first, between) := Enforced(old(store), hits[0]);
              (verdict, store) == if |hits| == 2 then Enforced(between, hits[1]) else (first, between)
    {
      verdict := Enforce(true, IpHit(a, ipLimit, ipWindow));
      if verdict.Admitted? && HasIdentifier(a) {
        verdict := Enforce(true, IdHit(a));
      }
    }
  }
}
