/** The in-memory login rate limiter of lib/rate-limit.js as a pure transition
    function over the identifier-to-record map. `Date.now()` becomes the `now`
    parameter (milliseconds since the epoch). */
module RateLimit {
  import opened Wrappers
  import Text

  const MaxAttempts: int := 5
  const CooldownMs: int := 60 * 1000
  const CleanupIntervalMs: int := 5 * 60 * 1000

  /** What the limiter remembers about one identifier. */
  datatype Record = Record(count: int, lastAttempt: nat, blockedUntil: Option<nat>)

  /** The object `checkRateLimit` returns; a denial reports `remainingAttempts: 0`. */
  datatype Verdict =
    | Allowed(remainingAttempts: int)
    | Denied(cooldownSeconds: int, message: string)
  {
    function Remaining(): int {
      if Allowed? then remainingAttempts else 0
    }
  }

  type Store = map<string, Record>

  /** The limiter's map after a call, and what the call returned. */
  datatype Step = Step(store: Store, verdict: Verdict)

  /** `data.blockedUntil` is truthy: set and not the timestamp 0. */
  predicate BlockSet(r: Record) {
    r.blockedUntil.Some? && r.blockedUntil.value != 0
  }

  predicate ActiveBlock(r: Record, now: nat) {
    BlockSet(r) && now < r.blockedUntil.value
  }

  predicate ExpiredBlock(r: Record, now: nat) {
    BlockSet(r) && now >= r.blockedUntil.value
  }

  /** The record stored for a first attempt. */
  function Fresh(now: nat): Record {
    Record(1, now, None)
  }

  /** `Math.ceil(ms / 1000)` for a positive number of milliseconds. */
  function CeilSeconds(ms: int): (s: int)
    requires ms > 0
    ensures s >= 1
    ensures (s - 1) * 1000 < ms <= s * 1000
  {
    (ms + 999) / 1000
  }

  /** The user-facing text of a denial. */
  function BlockMessage(seconds: int): string {
    "Muitas tentativas. Tente novamente em " + Text.IntToString(seconds) + " segundos."
  }

  /** `checkRateLimit(id)` at time `now`. */
  function Check(m: Store, id: string, now: nat): (s: Step)
    // only the entry for `id` is read or written
    ensures id in s.store && s.store - {id} == m - {id}
    // unknown identifier: first attempt
    ensures id !in m ==> s == Step(m[id := Fresh(now)], Allowed(MaxAttempts - 1))
    // blocked and the block has not expired: rejected, map unchanged
    ensures id in m && ActiveBlock(m[id], now) ==>
      && s.store == m
      && s.verdict.Denied?
      && s.verdict.cooldownSeconds == CeilSeconds(m[id].blockedUntil.value - now)
    // the block has expired: a fresh cycle
    ensures id in m && ExpiredBlock(m[id], now) ==> s == Step(m[id := Fresh(now)], Allowed(MaxAttempts - 1))
    // counting: the attempt is recorded, and the attempt that reaches the maximum is itself rejected
    ensures id in m && !BlockSet(m[id]) ==>
      && s.store[id].count == m[id].count + 1
      && s.store[id].lastAttempt == now
      && (s.verdict.Denied? <==> m[id].count + 1 >= MaxAttempts)
      && (s.verdict.Denied? ==> s.store[id].blockedUntil == Some(now + CooldownMs) && s.verdict.cooldownSeconds == CooldownMs / 1000)
    // every allowed result reports the attempts left; every denial at least one second
    ensures s.verdict.Allowed? ==> s.verdict.remainingAttempts == MaxAttempts - s.store[id].count >= 1
    ensures s.verdict.Denied? ==> s.verdict.cooldownSeconds >= 1 && s.verdict.message == BlockMessage(s.verdict.cooldownSeconds)
  {
    if id !in m then
      Step(m[id := Fresh(now)], Allowed(MaxAttempts - 1))
    else
      var data := m[id];
      if ActiveBlock(data, now) then
        var seconds := CeilSeconds(data.blockedUntil.value - now);
        Step(m, Denied(seconds, BlockMessage(seconds)))
      else if ExpiredBlock(data, now) then
        Step(m[id := Fresh(now)], Allowed(MaxAttempts - 1))
      else
        var counted := data.(count := data.count + 1, lastAttempt := now);
        if counted.count >= MaxAttempts then
          assert Text.IntToString(60) == "60";
          Step(m[id := counted.(blockedUntil := Some(now + CooldownMs))],
               Denied(60, "Muitas tentativas. Tente novamente em 60 segundos."))
        else
          Step(m[id := counted], Allowed(MaxAttempts - counted.count))
  }

  /** `resetRateLimit(id)` */
  function Reset(m: Store, id: string): (r: Store)
    ensures id !in r
    ensures forall k :: k != id ==> (k in r <==> k in m) && (k in r ==> r[k] == m[k])
  {
    m - {id}
  }

  /** A record is idle once more than the cleanup interval has passed since its last attempt. */
  predicate Idle(r: Record, now: nat) {
    now - r.lastAttempt > CleanupIntervalMs
  }

  /** The map the periodic cleanup leaves behind when it runs at `now`. */
  function Sweep(m: Store, now: nat): (r: Store)
    ensures forall k :: k in r <==> k in m && !Idle(m[k], now)
    ensures forall k :: k in r ==> r[k] == m[k]
  {
    map k | k in m && !Idle(m[k], now) :: m[k]
  }

  /** The body of the cleanup timer: visit every entry and delete the idle ones. */
  method SweepEntries(m: Store, now: nat) returns (r: Store)
    ensures forall k :: k in r <==> k in m && !Idle(m[k], now)
    ensures forall k :: k in r ==> r[k] == m[k]
  {
    r := m;
    var pending := m.Keys;
    while pending != {}
      invariant pending <= m.Keys
      invariant forall k :: k in r <==> k in m && (k in pending || !Idle(m[k], now))
      invariant forall k :: k in r ==> r[k] == m[k]
      decreases pending
    {
      var k :| k in pending;
      if Idle(m[k], now) {
        r := r - {k};
      }
      pending := pending - {k};
    }
  }

  /** The states the limiter can actually reach: 1 to 5 counted attempts, a
      block exactly when the count reached the maximum, lasting one cooldown
      from the attempt that set it. */
  predicate ValidRecord(r: Record) {
    && 1 <= r.count <= MaxAttempts
    && (r.blockedUntil.Some? <==> r.count == MaxAttempts)
    && (r.blockedUntil.Some? ==> r.blockedUntil.value == r.lastAttempt + CooldownMs)
  }

  predicate Valid(m: Store) {
    forall id :: id in m ==> ValidRecord(m[id])
  }

  /** `Check` keeps every stored count at most 5; with a clock that does not run
      backwards, an allowed call leaves 1 to 4 attempts and a denial lasts 1 to 60 seconds. */
  lemma CheckKeepsBounds(m: Store, id: string, now: nat)
    requires Valid(m)
    requires id in m ==> m[id].lastAttempt <= now
    ensures var s := Check(m, id, now);
      && Valid(s.store)
      && (s.verdict.Allowed? ==> 1 <= s.verdict.remainingAttempts <= MaxAttempts - 1)
      && (s.verdict.Denied? ==> 1 <= s.verdict.cooldownSeconds <= CooldownMs / 1000)
  {
  }

  /** Successive attempts for one identifier. */
  datatype Trace = Trace(store: Store, verdicts: seq<Verdict>)

  function Run(m: Store, id: string, times: seq<nat>): (t: Trace)
    ensures |t.verdicts| == |times|
    ensures id in m ==> id in t.store
    decreases |times|
  {
    if |times| == 0 then Trace(m, [])
    else
      var s := Check(m, id, times[0]);
      var rest := Run(s.store, id, times[1..]);
      Trace(rest.store, [s.verdict] + rest.verdicts)
  }

  /** From a fresh identifier, attempts 1-4 are allowed with 4, 3, 2, 1 attempts
      left; the fifth is rejected and blocks the identifier for 60 seconds. */
  lemma FifthAttemptBlocks(m: Store, id: string, times: seq<nat>)
    requires id !in m && |times| == 5
    ensures Run(m, id, times).verdicts
      == [Allowed(4), Allowed(3), Allowed(2), Allowed(1), Denied(60, BlockMessage(60))]
    ensures Run(m, id, times).store[id] == Record(5, times[4], Some(times[4] + CooldownMs))
  {
    var s1 := Check(m, id, times[0]);
    var s2 := Check(s1.store, id, times[1]);
    var s3 := Check(s2.store, id, times[2]);
    var s4 := Check(s3.store, id, times[3]);
    var s5 := Check(s4.store, id, times[4]);
    assert s4.store[id] == Record(4, times[3], None);
    assert Run(s4.store, id, times[4..]) == Trace(s5.store, [s5.verdict]);
    assert Run(s3.store, id, times[3..]).verdicts == [s4.verdict, s5.verdict];
    assert Run(s2.store, id, times[2..]).verdicts == [s3.verdict, s4.verdict, s5.verdict];
    assert Run(s1.store, id, times[1..]).verdicts == [s2.verdict, s3.verdict, s4.verdict, s5.verdict];
  }

  /** Five attempts in a row are five `Check` calls, each on the map the previous one left. */
  lemma RunUnfolds(m: Store, id: string, times: seq<nat>)
    requires |times| == 5
    ensures var s1 := Check(m, id, times[0]);
      var s2 := Check(s1.store, id, times[1]);
      var s3 := Check(s2.store, id, times[2]);
      var s4 := Check(s3.store, id, times[3]);
      var s5 := Check(s4.store, id, times[4]);
      Run(m, id, times).verdicts == [s1.verdict, s2.verdict, s3.verdict, s4.verdict, s5.verdict]
  {
    var s1 := Check(m, id, times[0]);
    var s2 := Check(s1.store, id, times[1]);
    var s3 := Check(s2.store, id, times[2]);
    var s4 := Check(s3.store, id, times[3]);
    var s5 := Check(s4.store, id, times[4]);
    assert Run(s4.store, id, times[4..]) == Trace(s5.store, [s5.verdict]);
    assert Run(s3.store, id, times[3..]).verdicts == [s4.verdict, s5.verdict];
    assert Run(s2.store, id, times[2..]).verdicts == [s3.verdict, s4.verdict, s5.verdict];
    assert Run(s1.store, id, times[1..]).verdicts == [s2.verdict, s3.verdict, s4.verdict, s5.verdict];
  }

  /** A denial at `now` reporting `S` seconds is over at `now + 1000 * S`: the
      next attempt then starts a fresh cycle with 4 attempts left. */
  lemma DenialEndsAfterCooldown(m: Store, id: string, now: nat)
    requires Check(m, id, now).verdict.Denied?
    ensures var s := Check(m, id, now);
      Check(s.store, id, now + 1000 * s.verdict.cooldownSeconds).verdict == Allowed(MaxAttempts - 1)
  {
  }

  /** After a reset the next attempt is treated as the first one. */
  lemma ResetForgetsAttempts(m: Store, id: string, now: nat)
    ensures Check(Reset(m, id), id, now) == Step(Reset(m, id)[id := Fresh(now)], Allowed(MaxAttempts - 1))
  {
  }

  /** A record idle for longer than the cleanup interval is removed by the sweep,
      so the following attempt is a first attempt rather than a continuation. */
  lemma SweptIdentifierStartsFresh(m: Store, id: string, sweepAt: nat, now: nat)
    requires id in m && Idle(m[id], sweepAt)
    ensures Check(Sweep(m, sweepAt), id, now).verdict == Allowed(MaxAttempts - 1)
  {
  }

  /** Attempts for two different identifiers do not affect each other. */
  lemma DistinctIdentifiersIndependent(m: Store, a: string, b: string, ta: nat, tb: nat)
    requires a != b
    ensures Check(Check(m, a, ta).store, b, tb).verdict == Check(m, b, tb).verdict
    ensures Check(Check(m, a, ta).store, b, tb).store[a] == Check(m, a, ta).store[a]
  {
    CheckLeavesOthers(m, a, ta, b);
    VerdictReadsOneEntry(Check(m, a, ta).store, m, b, tb);
  }

  /** `Check` for one identifier leaves the entry of any other identifier as it was. */
  lemma CheckLeavesOthers(m: Store, a: string, ta: nat, b: string)
    requires a != b
    ensures b in Check(m, a, ta).store <==> b in m
    ensures b in m ==> Check(m, a, ta).store[b] == m[b]
  {
    var s := Check(m, a, ta).store;
    assert s - {a} == m - {a};
    assert b in s <==> b in s - {a};
    assert b in m <==> b in m - {a};
    if b in m {
      assert s[b] == (s - {a})[b] == (m - {a})[b] == m[b];
    }
  }

  /** The verdict for an identifier depends on that identifier's entry alone. */
  lemma VerdictReadsOneEntry(m1: Store, m2: Store, id: string, now: nat)
    requires id in m1 <==> id in m2
    requires id in m1 ==> m1[id] == m2[id]
    ensures Check(m1, id, now).verdict == Check(m2, id, now).verdict
  {
  }
}
