/** What several processes read through the two-layer cache, each with a first layer of its
    own: how long a value set by one is there for all, and how soon an old one is gone. */
module CacheHits {
  import opened Common
  import opened Cache

  /** The first layers by process; the shared layer, absent when it is switched off. */
  datatype Cluster<T> = Cluster(own: map<nat, Layer<T>>, shared: Option<Layer<T>>)

  datatype Act<T> = Act(pid: nat, op: Op<T>, at: int)

  function Own<T>(y: Cluster<T>, p: nat): Layer<T> {
    if p in y.own then y.own[p] else map[]
  }

  /** The cache as process `p` has it. */
  function At<T>(y: Cluster<T>, p: nat): Layers<T> {
    Layers(Own(y, p), y.shared)
  }

  function AfterAct<T>(y: Cluster<T>, cfg: Lifetimes, a: Act<T>): Cluster<T> {
    var c := Step(At(y, a.pid), cfg, Timed(a.op, a.at));
    Cluster(y.own[a.pid := c.l1], c.l2)
  }

  function RunActs<T>(y: Cluster<T>, cfg: Lifetimes, acts: seq<Act<T>>): Cluster<T>
    decreases acts
  {
    if acts == [] then y
    else AfterAct(RunActs(y, cfg, acts[..|acts| - 1]), cfg, acts[|acts| - 1])
  }

  function Empty<T>(shared: bool): Cluster<T> {
    Cluster(map[], if shared then Some(map[]) else None)
  }

  /** The clock never runs back, and is now at `now`. */
  ghost predicate Forward<T>(acts: seq<Act<T>>, now: int) {
    && (forall i, j :: 0 <= i < j < |acts| ==> acts[i].at <= acts[j].at)
    && (forall i :: 0 <= i < |acts| ==> acts[i].at <= now)
  }

  lemma ForwardPrefix<T>(acts: seq<Act<T>>, n: nat, now: int)
    requires n < |acts| && Forward(acts, now)
    ensures Forward(acts[..n], acts[n].at)
  {
  }

  /** Neither set nor deleted from step `k` on. */
  ghost predicate Untouched<T>(acts: seq<Act<T>>, k: nat, key: string) {
    forall j :: k <= j < |acts| ==> acts[j].op.Get? || acts[j].op.key != key
  }

  // ---- First layers ------------------------------------------------------------------

  /** No first layer keeps `key` for more than its lifetime from now. */
  ghost predicate Brief<T>(y: Cluster<T>, cfg: Lifetimes, key: string, now: int) {
    forall p :: key in Own(y, p) ==> Own(y, p)[key].expiresAt <= now + cfg.l1 * 1000
  }

  lemma LayerBrief<T>(c: Layers<T>, cfg: Lifetimes, s: Timed<T>, key: string)
    requires key in c.l1 ==> c.l1[key].expiresAt <= s.at + cfg.l1 * 1000
    ensures var l1 := Step(c, cfg, s).l1; key in l1 ==> l1[key].expiresAt <= s.at + cfg.l1 * 1000
  {
  }

  lemma {:induction false} AlwaysBrief<T>(cfg: Lifetimes, acts: seq<Act<T>>, shared: bool, key: string, now: int)
    requires Forward(acts, now)
    ensures Brief(RunActs(Empty<T>(shared), cfg, acts), cfg, key, now)
  {
    if acts != [] {
      var before, last := acts[..|acts| - 1], acts[|acts| - 1];
      ForwardPrefix(acts, |acts| - 1, now);
      AlwaysBrief(cfg, before, shared, key, last.at);
      var y := RunActs(Empty<T>(shared), cfg, before);
      LayerBrief(At(y, last.pid), cfg, Timed(last.op, last.at), key);
      forall p ensures Own(AfterAct(y, cfg, last), p)
                    == if p == last.pid then Step(At(y, p), cfg, Timed(last.op, last.at)).l1 else Own(y, p) {
      }
    }
  }

  // ---- A value that was set -------------------------------------------------------------

  /** The shared layer has `entry`; a first layer has its value for not much longer, or is
      not the setter's and drops what it has by `stale`. */
  ghost predicate SetFor<T>(y: Cluster<T>, cfg: Lifetimes, key: string, entry: Entry<T>, setter: nat, stale: int) {
    && y.shared.Some? && cfg.prefix + key in y.shared.value && y.shared.value[cfg.prefix + key] == entry
    && forall p :: key in Own(y, p) ==>
         || (Own(y, p)[key].value == entry.value && Own(y, p)[key].expiresAt <= entry.expiresAt + cfg.l1 * 1000)
         || (p != setter && Own(y, p)[key].expiresAt <= stale)
  }

  lemma OtherKey(prefix: string, a: string, b: string)
    requires a != b
    ensures prefix + a != prefix + b
  {
    if prefix + a == prefix + b {
      PrefixInjective(prefix, a, b);
    }
  }

  lemma StepKeepsSet<T>(y: Cluster<T>, cfg: Lifetimes, key: string, entry: Entry<T>, setter: nat, stale: int, a: Act<T>)
    requires SetFor(y, cfg, key, entry, setter, stale)
    requires a.op.Get? || a.op.key != key
    ensures SetFor(AfterAct(y, cfg, a), cfg, key, entry, setter, stale)
  {
    if a.op.key != key {
      OtherKey(cfg.prefix, a.op.key, key);
    }
    forall p ensures Own(AfterAct(y, cfg, a), p)
                  == if p == a.pid then Step(At(y, p), cfg, Timed(a.op, a.at)).l1 else Own(y, p) {
    }
  }

  lemma SettingSets<T>(y: Cluster<T>, cfg: Lifetimes, a: Act<T>)
    requires a.op.Set? && a.op.ttl > 0 && cfg.l2 > 0 && y.shared.Some?
    requires Brief(y, cfg, a.op.key, a.at)
    ensures SetFor(AfterAct(y, cfg, a), cfg, a.op.key, Entry(a.op.value, a.at + Min(a.op.ttl, cfg.l2) * 1000),
                   a.pid, a.at + cfg.l1 * 1000)
  {
    forall p ensures Own(AfterAct(y, cfg, a), p)
                  == if p == a.pid then Step(At(y, p), cfg, Timed(a.op, a.at)).l1 else Own(y, p) {
    }
  }

  lemma {:induction false} StaysSet<T>(cfg: Lifetimes, acts: seq<Act<T>>, k: nat, now: int)
    requires k < |acts| && acts[k].op.Set? && acts[k].op.ttl > 0 && cfg.l2 > 0
    requires Forward(acts, now) && Untouched(acts, k + 1, acts[k].op.key)
    ensures SetFor(RunActs(Empty<T>(true), cfg, acts), cfg, acts[k].op.key,
                   Entry(acts[k].op.value, acts[k].at + Min(acts[k].op.ttl, cfg.l2) * 1000),
                   acts[k].pid, acts[k].at + cfg.l1 * 1000)
    decreases |acts|
  {
    var n := |acts| - 1;
    ForwardPrefix(acts, n, now);
    if k == n {
      AlwaysBrief(cfg, acts[..n], true, acts[k].op.key, acts[k].at);
      StillShared(cfg, acts[..n]);
      SettingSets(RunActs(Empty<T>(true), cfg, acts[..n]), cfg, acts[k]);
    } else {
      StaysSet(cfg, acts[..n], k, acts[n].at);
      StepKeepsSet(RunActs(Empty<T>(true), cfg, acts[..n]), cfg, acts[k].op.key,
                   Entry(acts[k].op.value, acts[k].at + Min(acts[k].op.ttl, cfg.l2) * 1000),
                   acts[k].pid, acts[k].at + cfg.l1 * 1000, acts[n]);
    }
  }

  lemma {:induction false} StillShared<T>(cfg: Lifetimes, acts: seq<Act<T>>)
    ensures RunActs(Empty<T>(true), cfg, acts).shared.Some?
  {
    if acts != [] {
      StillShared(cfg, acts[..|acts| - 1]);
    }
  }

  /** Over the shared layer a value is there for every process: after it was set for `ttl`
      seconds and not set or deleted since, a read within the shorter of `ttl` and the
      shared layer's lifetime finds something. It finds that very value if the reader set
      it, if the reader has no live copy of its own, and whenever the first layer's
      lifetime has passed since. */
  lemma SetIsFound<T>(cfg: Lifetimes, acts: seq<Act<T>>, k: nat, reader: nat, now: int)
    requires k < |acts| && acts[k].op.Set? && acts[k].op.ttl > 0 && cfg.l2 > 0
    requires Forward(acts, now) && Untouched(acts, k + 1, acts[k].op.key)
    requires now <= acts[k].at + 1000 * acts[k].op.ttl && now <= acts[k].at + 1000 * cfg.l2
    ensures var y, key := RunActs(Empty<T>(true), cfg, acts), acts[k].op.key;
            var r := GetResult(At(y, reader), cfg, key, now);
            && r.Some?
            && (reader == acts[k].pid ==> r.value == acts[k].op.value)
            && ((key in Own(y, reader) ==> now > Own(y, reader)[key].expiresAt) ==> r.value == acts[k].op.value)
            && (now > acts[k].at + 1000 * cfg.l1 ==> r.value == acts[k].op.value)
  {
    StaysSet(cfg, acts, k, now);
  }

  /** And when it and the lifetimes of both layers have run out no process finds anything. */
  lemma SetIsForgotten<T>(cfg: Lifetimes, acts: seq<Act<T>>, k: nat, reader: nat, now: int)
    requires k < |acts| && acts[k].op.Set? && acts[k].op.ttl > 0 && cfg.l2 > 0 && cfg.l1 >= 0
    requires Forward(acts, now) && Untouched(acts, k + 1, acts[k].op.key)
    requires now > acts[k].at + 1000 * (acts[k].op.ttl + cfg.l1) || now > acts[k].at + 1000 * (cfg.l2 + cfg.l1)
    ensures GetResult(At(RunActs(Empty<T>(true), cfg, acts), reader), cfg, acts[k].op.key, now).None?
  {
    StaysSet(cfg, acts, k, now);
  }

  /** Without the shared layer the process that set a value finds it within the shorter of
      `ttl` and the first layer's lifetime, unless it set or deleted it again. */
  lemma {:induction false} OwnSetIsFound<T>(cfg: Lifetimes, acts: seq<Act<T>>, k: nat, now: int)
    requires k < |acts| && acts[k].op.Set? && acts[k].op.ttl > 0 && cfg.l1 > 0 && Forward(acts, now)
    requires forall j :: k < j < |acts| && acts[j].pid == acts[k].pid ==>
                           acts[j].op.Get? || acts[j].op.key != acts[k].op.key
    requires now <= acts[k].at + 1000 * acts[k].op.ttl && now <= acts[k].at + 1000 * cfg.l1
    ensures var y, key := RunActs(Empty<T>(false), cfg, acts), acts[k].op.key;
            && GetResult(At(y, acts[k].pid), cfg, key, now) == Some(acts[k].op.value)
            && key in Own(y, acts[k].pid)
            && Own(y, acts[k].pid)[key]
            == Entry(acts[k].op.value, acts[k].at + Min(acts[k].op.ttl, cfg.l1) * 1000)
    decreases |acts|
  {
    var n := |acts| - 1;
    ForwardPrefix(acts, n, now);
    if k < n {
      OwnSetIsFound(cfg, acts[..n], k, acts[n].at);
      assert Own(RunActs(Empty<T>(false), cfg, acts), acts[k].pid)[acts[k].op.key]
          == Entry(acts[k].op.value, acts[k].at + Min(acts[k].op.ttl, cfg.l1) * 1000);
    }
  }

  // ---- A value that was deleted -----------------------------------------------------------

  /** Setting for no time is deleting. */
  predicate Deletes<T>(op: Op<T>) {
    op.Delete? || (op.Set? && op.ttl <= 0)
  }

  /** The shared layer has nothing, the deleter has nothing, and any other first layer drops
      what it has by `stale`. */
  ghost predicate GoneFor<T>(y: Cluster<T>, cfg: Lifetimes, key: string, deleter: nat, stale: int) {
    && (y.shared.Some? ==> cfg.prefix + key !in y.shared.value)
    && forall p :: key in Own(y, p) ==> p != deleter && Own(y, p)[key].expiresAt <= stale
  }

  lemma StepKeepsGone<T>(y: Cluster<T>, cfg: Lifetimes, key: string, deleter: nat, stale: int, a: Act<T>)
    requires GoneFor(y, cfg, key, deleter, stale)
    requires a.op.Get? || a.op.key != key
    ensures GoneFor(AfterAct(y, cfg, a), cfg, key, deleter, stale)
  {
    if a.op.key != key {
      OtherKey(cfg.prefix, a.op.key, key);
    }
    forall p ensures Own(AfterAct(y, cfg, a), p)
                  == if p == a.pid then Step(At(y, p), cfg, Timed(a.op, a.at)).l1 else Own(y, p) {
    }
  }

  lemma DeletingDeletes<T>(y: Cluster<T>, cfg: Lifetimes, a: Act<T>)
    requires Deletes(a.op) && Brief(y, cfg, a.op.key, a.at)
    ensures GoneFor(AfterAct(y, cfg, a), cfg, a.op.key, a.pid, a.at + cfg.l1 * 1000)
  {
    forall p ensures Own(AfterAct(y, cfg, a), p)
                  == if p == a.pid then Step(At(y, p), cfg, Timed(a.op, a.at)).l1 else Own(y, p) {
    }
  }

  lemma {:induction false} StaysGone<T>(cfg: Lifetimes, acts: seq<Act<T>>, shared: bool, k: nat, now: int)
    requires k < |acts| && Deletes(acts[k].op)
    requires Forward(acts, now) && Untouched(acts, k + 1, acts[k].op.key)
    ensures GoneFor(RunActs(Empty<T>(shared), cfg, acts), cfg, acts[k].op.key, acts[k].pid,
                    acts[k].at + cfg.l1 * 1000)
    decreases |acts|
  {
    var n := |acts| - 1;
    ForwardPrefix(acts, n, now);
    if k == n {
      AlwaysBrief(cfg, acts[..n], shared, acts[k].op.key, acts[k].at);
      DeletingDeletes(RunActs(Empty<T>(shared), cfg, acts[..n]), cfg, acts[k]);
    } else {
      StaysGone(cfg, acts[..n], shared, k, acts[n].at);
      StepKeepsGone(RunActs(Empty<T>(shared), cfg, acts[..n]), cfg, acts[k].op.key, acts[k].pid,
                    acts[k].at + cfg.l1 * 1000, acts[n]);
    }
  }

  /** A value that was deleted and not set since is gone: at once for the process that
      deleted it, and for any other once the first layer's lifetime has passed. */
  lemma DeletedIsGone<T>(cfg: Lifetimes, acts: seq<Act<T>>, shared: bool, k: nat, reader: nat, now: int)
    requires k < |acts| && Deletes(acts[k].op)
    requires Forward(acts, now) && Untouched(acts, k + 1, acts[k].op.key)
    requires reader == acts[k].pid || now > acts[k].at + 1000 * cfg.l1
    ensures GetResult(At(RunActs(Empty<T>(shared), cfg, acts), reader), cfg, acts[k].op.key, now).None?
  {
    StaysGone(cfg, acts, shared, k, now);
  }

  /** A read the first layer cannot serve and the shared one can leaves the value in the
      first layer for its lifetime, and so serves the reads of that time; it changes
      nothing in the shared layer. */
  lemma GetRefills<T>(c: Layers<T>, cfg: Lifetimes, key: string, now: int, later: int)
    requires key in c.l1 ==> now > c.l1[key].expiresAt
    requires c.l2.Some? && cfg.prefix + key in c.l2.value && now <= c.l2.value[cfg.prefix + key].expiresAt
    requires cfg.l1 > 0 && now <= later <= now + 1000 * cfg.l1
    ensures var value, d := c.l2.value[cfg.prefix + key].value, AfterGet(c, cfg, key, now);
            && GetResult(c, cfg, key, now) == Some(value)
            && key in d.l1 && d.l1[key] == Entry(value, now + 1000 * cfg.l1) && d.l2 == c.l2
            && GetResult(d.(l2 := None), cfg, key, later) == Some(value)
  {
  }
}
