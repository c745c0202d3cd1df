/**
 * Brute-force attack protection (src/utils/bfap.js): a counter per
 * `(config type, sha256(target))` in the shared cache. A call on a counter
 * above `maxRetry` is blocked and writes nothing; any other call bumps the
 * counter and restarts its TTL.
 */
module Bfap {
  import opened Js
  import opened Text
  import opened Cache

  datatype Config = Config(kind: string, maxRetry: int, ttl: nat)

  /** The three budgets the service defines (src/init/const.js). */
  const CodeToken := Config("code_token", 10, 86_400)
  const IpLogin := Config("ip_login", 10, 3_600)
  const IpRegister := Config("ip_register", 20, 3_600)

  /** The counter's cache key, `bfap_<type>:<hash>`. */
  function KeyName(kind: string, hash: string): (r: string)
    ensures |r| == |kind| + |hash| + 6
    ensures r[..5] == "bfap_" && r[|r| - |hash|..] == hash
  {
    "bfap_" + kind + ":" + hash
  }

  /** The digest is taken to be collision-free: no two targets share one. */
  ghost predicate CollisionFree(sha256: string -> string) {
    forall t, t' :: sha256(t) == sha256(t') ==> t == t'
  }

  /**
   * `status && status > maxRetry`. Only `inspect` writes `bfap_` keys and it
   * always writes numbers, so any other cached value is read as no counter.
   */
  predicate Exceeded(status: Value, maxRetry: int) {
    Truthy(status) && status.Num? && status.n > maxRetry
  }

  /** `status ? parseInt(status) : 0`. */
  function CountOf(status: Value): int {
    if Truthy(status) && status.Num? then status.n else 0
  }

  /**
   * One call on a counter: whether it is blocked, and the counter it leaves
   * (`None` when nothing is written).
   */
  function Step(status: Value, maxRetry: int): (r: (bool, Option<int>))
    ensures r.0 <==> CountOf(status) != 0 && CountOf(status) > maxRetry
    ensures r.0 ==> r.1 == None
    ensures !r.0 ==> r.1 == Some(CountOf(status) + 1)
  {
    if Exceeded(status, maxRetry) then (true, None) else (false, Some(CountOf(status) + 1))
  }

  /**
   * `inspect(ctx, config, target)`. The digest function is a parameter.
   * A blocked call leaves the cache as it was, so it never extends its own
   * window; an admitted one writes the bumped counter with a fresh TTL.
   */
  method Inspect(cache: TtlCache, config: Config, target: string, sha256: string -> string)
    returns (blocked: bool)
    modifies cache
    ensures var key := KeyName(config.kind, sha256(target));
      && blocked == Step(old(cache.Get(key)), config.maxRetry).0
      && (blocked ==> cache.entries == old(cache.entries))
      && (!blocked ==>
            cache.entries == old(cache.entries)[key := Entry(Num(CountOf(old(cache.Get(key))) + 1), old(cache.now) + config.ttl)])
    ensures cache.now == old(cache.now)
  {
    var key := KeyName(config.kind, sha256(target));
    var status := cache.Get(key);
    if Exceeded(status, config.maxRetry) {
      return true;
    }
    cache.Set(key, Num(CountOf(status) + 1), config.ttl);
    blocked := false;
  }

  /**
   * The outcomes of `calls` successive calls on one target within its
   * window, starting from counter `count` (0 for no entry).
   */
  function Run(count: nat, maxRetry: int, calls: nat): (r: seq<bool>)
    ensures |r| == calls
    decreases calls
  {
    if calls == 0 then []
    else
      var status := if count == 0 then Undefined else Num(count);
      var blocked := Step(status, maxRetry).0;
      [blocked] + Run(if blocked then count else count + 1, maxRetry, calls - 1)
  }

  /**
   * `calls` successive `inspect` calls on one target while the clock stands
   * still, starting with no live counter: the verdicts are exactly `Run`'s
   * from counter 0, the counter settles at `maxRetry + 1`, and no other
   * cache entry is touched.
   */
  method InspectRepeatedly(cache: TtlCache, config: Config, target: string, sha256: string -> string, calls: nat)
    returns (verdicts: seq<bool>)
    requires config.maxRetry >= 0 && config.ttl > 0
    requires !cache.Has(KeyName(config.kind, sha256(target)))
    modifies cache
    ensures verdicts == Run(0, config.maxRetry, calls)
    ensures var key := KeyName(config.kind, sha256(target));
      && cache.Get(key) == (if calls == 0 then Undefined else Num(if calls <= config.maxRetry + 1 then calls else config.maxRetry + 1))
      && cache.entries - {key} == old(cache.entries) - {key}
    ensures cache.now == old(cache.now)
  {
    var key := KeyName(config.kind, sha256(target));
    verdicts := [];
    var i := 0;
    while i < calls
      invariant 0 <= i <= calls
      invariant |verdicts| == i
      invariant forall j :: 0 <= j < i ==> verdicts[j] == (j > config.maxRetry)
      invariant cache.Get(key) == (if i == 0 then Undefined else Num(if i <= config.maxRetry + 1 then i else config.maxRetry + 1))
      invariant cache.entries - {key} == old(cache.entries) - {key}
      invariant cache.now == old(cache.now)
    {
      var blocked := Inspect(cache, config, target, sha256);
      verdicts := verdicts + [blocked];
      i := i + 1;
    }
    RunOutcomes(0, config.maxRetry, calls);
  }

  /**
   * From a counter no higher than `maxRetry + 1`, the i-th further call is
   * blocked exactly when `count + i` exceeds `maxRetry`.
   */
  lemma {:induction false} RunOutcomes(count: nat, maxRetry: nat, calls: nat)
    requires count <= maxRetry + 1
    ensures forall i :: 0 <= i < calls ==> Run(count, maxRetry, calls)[i] == (count + i > maxRetry)
    decreases calls
  {
    if calls > 0 {
      var r := Run(count, maxRetry, calls);
      if count > maxRetry {
        RunOutcomes(count, maxRetry, calls - 1);
        assert r[1..] == Run(count, maxRetry, calls - 1);
        forall i | 0 <= i < calls ensures r[i] == (count + i > maxRetry) {
          if i > 0 { assert r[i] == r[1..][i - 1]; }
        }
      } else {
        RunOutcomes(count + 1, maxRetry, calls - 1);
        assert r[1..] == Run(count + 1, maxRetry, calls - 1);
        forall i | 0 <= i < calls ensures r[i] == (count + i > maxRetry) {
          if i > 0 { assert r[i] == r[1..][i - 1]; }
        }
      }
    }
  }

  /**
   * The ceiling: from an empty cache the first `maxRetry + 1` calls are
   * admitted and every later one in the window is blocked.
   */
  lemma Ceiling(maxRetry: nat, calls: nat)
    ensures forall i :: 0 <= i < calls ==> (Run(0, maxRetry, calls)[i] <==> i > maxRetry)
  {
    RunOutcomes(0, maxRetry, calls);
  }

  /** For `ip_login`: eleven attempts are admitted, the twelfth is blocked. */
  lemma IpLoginAdmitsEleven()
    ensures Run(0, IpLogin.maxRetry, 12) == [false, false, false, false, false, false, false, false, false, false, false, true]
  {
    Ceiling(IpLogin.maxRetry, 12);
  }

  /** Once over the threshold, a counter is blocked on every further call and never moves. */
  lemma {:induction false} BlockedStaysBlocked(count: nat, maxRetry: int, calls: nat)
    requires count > maxRetry && count > 0
    ensures forall i :: 0 <= i < calls ==> Run(count, maxRetry, calls)[i]
  {
    if calls > 0 {
      BlockedStaysBlocked(count, maxRetry, calls - 1);
      var r := Run(count, maxRetry, calls);
      assert r[1..] == Run(count, maxRetry, calls - 1);
      forall i | 0 < i < calls ensures r[i] {
        assert r[i] == r[1..][i - 1];
      }
    }
  }

  /**
   * Counters are independent: two calls share a counter only when they use
   * the same config type and the same target.
   */
  lemma KeysIndependent(sha256: string -> string, kind: string, target: string, kind': string, target': string)
    requires CollisionFree(sha256)
    requires ':' !in kind && ':' !in kind'
    requires KeyName(kind, sha256(target)) == KeyName(kind', sha256(target'))
    ensures kind == kind' && target == target'
  {
    var k := KeyName(kind, sha256(target));
    assert k[5..] == kind + [':'] + sha256(target);
    assert k[5..] == kind' + [':'] + sha256(target');
    CutAtFirst(kind, sha256(target), kind', sha256(target'), ':');
  }

  /**
   * What an admitted call writes is invisible to every other counter: the
   * cache entry of any other (type, target) pair is the one it had before.
   */
  lemma InspectLeavesOthers(sha256: string -> string, entries: map<string, Entry>, e: Entry,
                            kind: string, target: string, kind': string, target': string)
    requires CollisionFree(sha256)
    requires ':' !in kind && ':' !in kind'
    requires (kind', target') != (kind, target)
    ensures var other := KeyName(kind', sha256(target'));
      && (other in entries[KeyName(kind, sha256(target)) := e] <==> other in entries)
      && (other in entries ==> entries[KeyName(kind, sha256(target)) := e][other] == entries[other])
  {
    if KeyName(kind, sha256(target)) == KeyName(kind', sha256(target')) {
      KeysIndependent(sha256, kind, target, kind', target');
    }
  }
}
