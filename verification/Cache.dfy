/** The in-process layer, the shared Redis layer and the two-layer cache over
    them. Times are milliseconds, lifetimes seconds. */
module Cache {
  import opened Common

  datatype Entry<T> = Entry(value: T, expiresAt: int)

  type Layer<T> = map<string, Entry<T>>

  function Lookup<T>(layer: Layer<T>, key: string, now: int): Option<T> {
    if key in layer && now <= layer[key].expiresAt then Some(layer[key].value) else None
  }

  /** An expired entry is dropped when it is read. */
  function Purged<T>(layer: Layer<T>, key: string, now: int): Layer<T> {
    if key in layer && now > layer[key].expiresAt then layer - {key} else layer
  }

  function Stored<T>(layer: Layer<T>, key: string, value: T, ttl: int, now: int): Layer<T> {
    if ttl <= 0 then layer - {key} else layer[key := Entry(value, now + ttl * 1000)]
  }

  class InProcessCache<T> {
    var store: Layer<T>

    constructor ()
      ensures store == map[]
    {
      store := map[];
    }

    method Get(key: string, now: int) returns (r: Option<T>)
      modifies this
      ensures r == Lookup(old(store), key, now)
      ensures store == Purged(old(store), key, now)
    {
      if key !in store {
        return None;
      }
      var entry := store[key];
      if now > entry.expiresAt {
        store := store - {key};
        return None;
      }
      return Some(entry.value);
    }

    method Set(key: string, value: T, ttl: int, now: int)
      modifies this
      ensures store == Stored(old(store), key, value, ttl, now)
    {
      if ttl <= 0 {
        store := store - {key};
        return;
      }
      store := store[key := Entry(value, now + ttl * 1000)];
    }

    method Delete(key: string)
      modifies this
      ensures store == old(store) - {key}
    {
      store := store - {key};
    }
  }

  /** The Redis server: SET with EX, GET, DEL. */
  class Redis<T> {
    var data: Layer<T>

    method Get(key: string, now: int) returns (r: Option<T>)
      ensures r == Lookup(data, key, now)
    {
      return if key in data && now <= data[key].expiresAt then Some(data[key].value) else None;
    }

    method SetEx(key: string, value: T, ttl: int, now: int)
      requires ttl > 0
      modifies this
      ensures data == old(data)[key := Entry(value, now + ttl * 1000)]
    {
      data := data[key := Entry(value, now + ttl * 1000)];
    }

    method Del(key: string)
      modifies this
      ensures data == old(data) - {key}
    {
      data := data - {key};
    }
  }

  class RedisCache<T> {
    const redis: Redis<T>
    const prefix: string

    constructor (redis: Redis<T>, prefix: string)
      ensures this.redis == redis && this.prefix == prefix
    {
      this.redis := redis;
      this.prefix := prefix;
    }

    method Get(key: string, now: int) returns (r: Option<T>)
      ensures r == Lookup(redis.data, prefix + key, now)
    {
      r := redis.Get(prefix + key, now);
    }

    method Set(key: string, value: T, ttl: int, now: int)
      modifies redis
      ensures redis.data == Stored(old(redis.data), prefix + key, value, ttl, now)
    {
      if ttl <= 0 {
        redis.Del(prefix + key);
        return;
      }
      redis.SetEx(prefix + key, value, ttl, now);
    }

    method Delete(key: string)
      modifies redis
      ensures redis.data == old(redis.data) - {prefix + key}
    {
      redis.Del(prefix + key);
    }
  }

  /** Both layers; the shared one is absent when Redis is switched off. */
  datatype Layers<T> = Layers(l1: Layer<T>, l2: Option<Layer<T>>)

  datatype Lifetimes = Lifetimes(l1: int, l2: int, prefix: string)

  function Min(a: int, b: int): int {
    if a <= b then a else b
  }

  function GetResult<T>(c: Layers<T>, cfg: Lifetimes, key: string, now: int): Option<T> {
    var hit := Lookup(c.l1, key, now);
    if hit.Some? then hit
    else if c.l2.None? then None
    else Lookup(c.l2.value, cfg.prefix + key, now)
  }

  function AfterGet<T>(c: Layers<T>, cfg: Lifetimes, key: string, now: int): Layers<T> {
    var l1 := Purged(c.l1, key, now);
    var found := GetResult(c, cfg, key, now);
    if Lookup(c.l1, key, now).Some? || found.None? then c.(l1 := l1)
    else c.(l1 := Stored(l1, key, found.value, cfg.l1, now))
  }

  function AfterSet<T>(c: Layers<T>, cfg: Lifetimes, key: string, value: T, ttl: int, now: int): Layers<T> {
    Layers(
      Stored(c.l1, key, value, Min(ttl, cfg.l1), now),
      if c.l2.None? then None
      else Some(Stored(c.l2.value, cfg.prefix + key, value, Min(ttl, cfg.l2), now)))
  }

  function AfterDelete<T>(c: Layers<T>, cfg: Lifetimes, key: string): Layers<T> {
    Layers(c.l1 - {key}, if c.l2.None? then None else Some(c.l2.value - {cfg.prefix + key}))
  }

  class TwoLayerCache<T> {
    const l1: InProcessCache<T>
    const l2: RedisCache?<T>
    const l1Ttl: int
    const l2Ttl: int

    constructor (l1: InProcessCache<T>, l2: RedisCache?<T>, l1Ttl: int, l2Ttl: int)
      ensures this.l1 == l1 && this.l2 == l2 && this.l1Ttl == l1Ttl && this.l2Ttl == l2Ttl
    {
      this.l1, this.l2, this.l1Ttl, this.l2Ttl := l1, l2, l1Ttl, l2Ttl;
    }

    ghost function Footprint(): set<object> {
      {l1} + if l2 == null then {} else {l2.redis}
    }

    function Config(): Lifetimes {
      Lifetimes(l1Ttl, l2Ttl, if l2 == null then "" else l2.prefix)
    }

    ghost function State(): Layers<T>
      reads Footprint()
    {
      Layers(l1.store, if l2 == null then None else Some(l2.redis.data))
    }

    method Get(key: string, now: int) returns (r: Option<T>)
      modifies Footprint()
      ensures r == GetResult(old(State()), Config(), key, now)
      ensures State() == AfterGet(old(State()), Config(), key, now)
    {
      r := l1.Get(key, now);
      if r.Some? || l2 == null {
        return;
      }
      r := l2.Get(key, now);
      if r.Some? {
        l1.Set(key, r.value, l1Ttl, now);
      }
    }

    method Set(key: string, value: T, ttl: int, now: int)
      modifies Footprint()
      ensures State() == AfterSet(old(State()), Config(), key, value, ttl, now)
    {
      l1.Set(key, value, Min(ttl, l1Ttl), now);
      if l2 != null {
        l2.Set(key, value, Min(ttl, l2Ttl), now);
      }
    }

    method Delete(key: string)
      modifies Footprint()
      ensures State() == AfterDelete(old(State()), Config(), key)
    {
      l1.Delete(key);
      if l2 != null {
        l2.Delete(key);
      }
    }
  }

  // ---- Lifetime over whole runs --------------------------------------------

  datatype Op<T> = Get(key: string) | Set(key: string, value: T, ttl: int) | Delete(key: string)

  datatype Timed<T> = Timed(op: Op<T>, at: int)

  function Step<T>(c: Layers<T>, cfg: Lifetimes, s: Timed<T>): Layers<T> {
    match s.op
    case Get(key) => AfterGet(c, cfg, key, s.at)
    case Set(key, value, ttl) => AfterSet(c, cfg, key, value, ttl, s.at)
    case Delete(key) => AfterDelete(c, cfg, key)
  }

  function Run<T>(c: Layers<T>, cfg: Lifetimes, steps: seq<Timed<T>>): Layers<T>
    decreases steps
  {
    if steps == [] then c
    else Step(Run(c, cfg, steps[..|steps| - 1]), cfg, steps[|steps| - 1])
  }

  /** The last set of `key` that no later delete undid, with its time and lifetime. */
  datatype LastSet<T> = LastSet(value: T, at: int, ttl: int)

  function LastSetOf<T>(steps: seq<Timed<T>>, key: string): Option<LastSet<T>>
    decreases steps
  {
    if steps == [] then None else
    var s := steps[|steps| - 1];
    match s.op
    case Set(k, v, ttl) => if k == key then Some(LastSet(v, s.at, ttl)) else LastSetOf(steps[..|steps| - 1], key)
    case Delete(k) => if k == key then None else LastSetOf(steps[..|steps| - 1], key)
    case Get(_) => LastSetOf(steps[..|steps| - 1], key)
  }

  function Deadline<T>(last: LastSet<T>, cfg: Lifetimes): int {
    last.at + (Min(last.ttl, cfg.l2) + cfg.l1) * 1000
  }

  /** What either layer may hold under `key`. */
  ghost predicate Holding<T>(c: Layers<T>, cfg: Lifetimes, key: string, last: Option<LastSet<T>>) {
    && (key in c.l1 ==>
          && last.Some? && c.l1[key].value == last.value.value
          && c.l1[key].expiresAt <= Deadline(last.value, cfg))
    && (c.l2.Some? && cfg.prefix + key in c.l2.value ==>
          && last.Some? && c.l2.value[cfg.prefix + key].value == last.value.value
          && c.l2.value[cfg.prefix + key].expiresAt <= last.value.at + Min(last.value.ttl, cfg.l2) * 1000)
  }

  lemma PrefixInjective(prefix: string, a: string, b: string)
    requires prefix + a == prefix + b
    ensures a == b
  {
    assert (prefix + a)[|prefix|..] == a && (prefix + b)[|prefix|..] == b;
  }

  lemma StepKeepsHolding<T>(c: Layers<T>, cfg: Lifetimes, key: string, steps: seq<Timed<T>>)
    requires cfg.l1 >= 0 && cfg.l2 >= 0 && steps != []
    requires Holding(c, cfg, key, LastSetOf(steps[..|steps| - 1], key))
    ensures Holding(Step(c, cfg, steps[|steps| - 1]), cfg, key, LastSetOf(steps, key))
  {
    var op := steps[|steps| - 1].op;
    if cfg.prefix + op.key == cfg.prefix + key {
      PrefixInjective(cfg.prefix, op.key, key);
    }
  }

  lemma {:induction false} RunHolds<T>(cfg: Lifetimes, key: string, steps: seq<Timed<T>>, shared: bool)
    requires cfg.l1 >= 0 && cfg.l2 >= 0
    ensures var start := Layers(map[], if shared then Some(map[]) else None);
            Holding(Run(start, cfg, steps), cfg, key, LastSetOf(steps, key))
  {
    if steps != [] {
      RunHolds(cfg, key, steps[..|steps| - 1], shared);
      var start: Layers<T> := Layers(map[], if shared then Some(map[]) else None);
      StepKeepsHolding(Run(start, cfg, steps[..|steps| - 1]), cfg, key, steps);
    }
  }

  /** After any run, `get` returns nothing or the value last set and not deleted
      since; and nothing once more than min(ttl, l2Ttl) + l1Ttl seconds have gone
      by, however often the first layer was refilled from the second. */
  lemma LifetimeBound<T>(cfg: Lifetimes, key: string, steps: seq<Timed<T>>, shared: bool, now: int)
    requires cfg.l1 >= 0 && cfg.l2 >= 0
    ensures var start := Layers(map[], if shared then Some(map[]) else None);
            var r := GetResult(Run(start, cfg, steps), cfg, key, now);
            var last := LastSetOf(steps, key);
            r.Some? ==> last.Some? && r.value == last.value.value && now <= Deadline(last.value, cfg)
  {
    RunHolds(cfg, key, steps, shared);
  }
}
