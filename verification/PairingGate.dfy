/** airusb/session/PairingGate.cpp: how fast wrong pairing answers may be tried. */
module PairingGates {
  import opened Wire
  import Status

  const TWO64: nat := 0x1_0000_0000_0000_0000
  const MS: nat := 1_000_000

  datatype Limits = Limits(freeAttempts: u32, baseLockoutMs: u64, maxLockoutMs: u64, decayAfterMs: u64)

  datatype Gate = Gate(failures: u32, lastFailureNs: nat, everFailed: bool)

  const FRESH := Gate(0, 0, false)

  // ---------------------------------------------------------------- the lockout

  function Pow2(n: nat): (r: nat)
    ensures r > 0
  {
    if n == 0 then 1 else 2 * Pow2(n - 1)
  }

  /** What the header promises: doubling from the base, capped. */
  function Ideal(l: Limits, failures: u32): nat {
    if failures <= l.freeAttempts then 0 else Min(l.maxLockoutMs, l.baseLockoutMs * Pow2(failures - l.freeAttempts - 1))
  }

  /** `n` more rounds of the doubling loop, in 64-bit arithmetic. */
  function Doubled(ms: u64, n: nat, max: u64): u64
    decreases n
  {
    if n == 0 || ms >= max then ms else Doubled(ms * 2 % TWO64, n - 1, max)
  }

  function Lockout(l: Limits, failures: u32): u64 {
    if failures <= l.freeAttempts then 0
    else Min(l.maxLockoutMs, Doubled(l.baseLockoutMs, failures - l.freeAttempts - 1, l.maxLockoutMs))
  }

  method LockoutMsFor(l: Limits, failures: u32) returns (r: nat)
    ensures r == Lockout(l, failures)
  {
    if failures <= l.freeAttempts { return 0; }
    var over := failures - l.freeAttempts;
    var ms: u64 := l.baseLockoutMs;
    var i := 1;
    while i < over
      invariant 1 <= i <= over
      invariant Doubled(ms, over - i, l.maxLockoutMs) == Doubled(l.baseLockoutMs, over - 1, l.maxLockoutMs)
      decreases over - i
    {
      if ms >= l.maxLockoutMs { break; }
      ms := ms * 2 % TWO64;
      i := i + 1;
    }
    r := if ms > l.maxLockoutMs then l.maxLockoutMs else ms;
  }

  /** The base doubled `k` times. */
  function Level(l: Limits, k: nat): nat { if k == 0 then l.baseLockoutMs else 2 * Level(l, k - 1) }

  lemma {:induction false} LevelIsPower(l: Limits, k: nat)
    ensures Level(l, k) == l.baseLockoutMs * Pow2(k)
  {
    if k > 0 { LevelIsPower(l, k - 1); }
  }

  lemma {:induction false} LevelsRise(l: Limits, i: nat, k: nat)
    requires i <= k
    ensures Level(l, i) <= Level(l, k)
    decreases k - i
  {
    if i < k { LevelsRise(l, i, k - 1); }
  }

  /** A doubling from here would overflow: the value is below the cap and needs its top bit. */
  predicate Overflows(l: Limits, k: nat) { TWO64 <= 2 * Level(l, k) && Level(l, k) < l.maxLockoutMs }

  lemma {:induction false} DoubledIsExact(l: Limits, k: nat, n: nat)
    requires Level(l, k) < TWO64 && forall j: nat :: k <= j < k + n ==> !Overflows(l, j)
    ensures Min(l.maxLockoutMs, Doubled(Level(l, k), n, l.maxLockoutMs)) == Min(l.maxLockoutMs, Level(l, k + n))
    decreases n
  {
    if n > 0 {
      if Level(l, k) < l.maxLockoutMs {
        assert !Overflows(l, k) && Level(l, k + 1) == 2 * Level(l, k);
        DoubledIsExact(l, k + 1, n - 1);
      } else {
        LevelsRise(l, k, k + n);
      }
    }
  }

  /** The loop reaches level `k` untouched while nothing overflows before it. */
  lemma {:induction false} DoubledReaches(l: Limits, i: nat, k: nat)
    requires i <= k && Level(l, k) < l.maxLockoutMs && Level(l, i) < TWO64 && forall j: nat :: i <= j < k ==> !Overflows(l, j)
    ensures Level(l, k) < TWO64
    ensures Doubled(Level(l, i), k + 1 - i, l.maxLockoutMs) == Doubled(Level(l, k), 1, l.maxLockoutMs)
    decreases k - i
  {
    if i < k {
      LevelsRise(l, i, k);
      assert !Overflows(l, i) && Level(l, i + 1) == 2 * Level(l, i);
      DoubledReaches(l, i + 1, k);
    }
  }

  /** At the first overflow the code falls short of the cap it should have reached. */
  lemma OverflowShows(l: Limits, k: nat)
    requires Overflows(l, k) && l.freeAttempts + k + 2 <= 0xFFFF_FFFF && forall j: nat :: j < k ==> !Overflows(l, j)
    ensures Lockout(l, l.freeAttempts + k + 2) < Ideal(l, l.freeAttempts + k + 2) == l.maxLockoutMs
  {
    DoubledReaches(l, 0, k);
    LevelIsPower(l, k + 1);
    Wraps(Level(l, k), l.maxLockoutMs);
  }

  lemma Wraps(v: u64, max: u64)
    requires TWO64 <= 2 * v && v < max
    ensures Doubled(v, 1, max) == 2 * v - TWO64 < max
  {
    assert Doubled(v, 1, max) == Doubled(v * 2 % TWO64, 0, max);
  }

  lemma {:induction false} FirstOverflow(l: Limits, k: nat) returns (f: nat)
    requires Overflows(l, k)
    ensures f <= k && Overflows(l, f) && forall j: nat :: j < f ==> !Overflows(l, j)
    decreases k
  {
    if j: nat :| j < k && Overflows(l, j) { f := FirstOverflow(l, j); } else { f := k; }
  }

  lemma IdealAt(l: Limits, f: u32)
    requires forall k: nat :: l.freeAttempts + k + 2 <= f ==> !Overflows(l, k)
    ensures Lockout(l, f) == Ideal(l, f)
  {
    if f > l.freeAttempts {
      DoubledIsExact(l, 0, f - l.freeAttempts - 1);
      LevelIsPower(l, f - l.freeAttempts - 1);
    }
  }

  ghost predicate AlwaysIdeal(l: Limits) { forall f: u32 :: Lockout(l, f) == Ideal(l, f) }

  ghost predicate NeverOverflows(l: Limits) { forall k: nat :: l.freeAttempts + k + 2 <= 0xFFFF_FFFF ==> !Overflows(l, k) }

  /** The lockout is the capped doubling, for every failure count, exactly when no doubling below the cap overflows. */
  lemma LockoutIsIdealExactly(l: Limits)
    ensures AlwaysIdeal(l) <==> NeverOverflows(l)
  {
    if NeverOverflows(l) {
      forall f: u32 ensures Lockout(l, f) == Ideal(l, f) { IdealAt(l, f); }
    } else {
      var k: nat :| l.freeAttempts + k + 2 <= 0xFFFF_FFFF && Overflows(l, k);
      var first := FirstOverflow(l, k);
      OverflowShows(l, first);
      var f: u32 := l.freeAttempts + first + 2;
      assert Lockout(l, f) != Ideal(l, f);
    }
  }

  /** A cap of at most 2^63 milliseconds is enough. */
  lemma SmallCapNeverOverflows(l: Limits)
    requires l.maxLockoutMs <= TWO64 / 2
    ensures NeverOverflows(l)
  {}

  /** And some caps above it are not: one more failure unlocks the gate at once. */
  lemma LargeCapOverflows()
    ensures var l := Limits(0, 0x8000_0000_0000_0000, 0xFFFF_FFFF_FFFF_FFFF, 0); Lockout(l, 2) == 0 && Ideal(l, 2) == l.maxLockoutMs
  {
    var l := Limits(0, 0x8000_0000_0000_0000, 0xFFFF_FFFF_FFFF_FFFF, 0);
    assert Pow2(1) == 2 * Pow2(0) == 2;
    assert Doubled(l.baseLockoutMs, 1, l.maxLockoutMs) == Doubled(0, 0, l.maxLockoutMs) == 0;
  }

  // ---------------------------------------------------------------- the gate

  /** A clock that went backwards counts as no time at all. */
  function Since(g: Gate, now: nat): nat { if now >= g.lastFailureNs then now - g.lastFailureNs else 0 }

  /** A number of milliseconds in nanoseconds, as a 64-bit product. */
  function Nanos(ms: u64): u64 { ms * MS % TWO64 }

  function LockNs(l: Limits, failures: u32): u64 { Nanos(Lockout(l, failures)) }

  predicate Decayed(l: Limits, g: Gate, now: nat) { l.decayAfterMs != 0 && Since(g, now) >= Nanos(l.decayAfterMs) }

  datatype Verdict = Verdict(status: u16, retryAfterMs: nat)

  function MayAttempt(l: Limits, g: Gate, now: nat): Verdict {
    if !g.everFailed || g.failures == 0 || Decayed(l, g, now) then Verdict(Status.OK, 0)
    else
      var lock := LockNs(l, g.failures);
      if Lockout(l, g.failures) == 0 || Since(g, now) >= lock then Verdict(Status.OK, 0)
      else Verdict(Status.BUSY, (lock - Since(g, now)) / MS + 1)
  }

  function Failed(l: Limits, g: Gate, now: nat): Gate {
    var failures := if g.everFailed && Decayed(l, g, now) then 0 else g.failures;
    Gate(if failures != 0xFFFF_FFFF then failures + 1 else failures, now, true)
  }

  class PairingGate {
    const limits: Limits
    var failures: u32
    var lastFailureNs: nat
    var everFailed: bool

    ghost function Snapshot(): Gate
      reads this
    {
      Gate(failures, lastFailureNs, everFailed)
    }

    constructor (limits: Limits)
      ensures this.limits == limits && Snapshot() == FRESH
    {
      this.limits := limits;
      failures, lastFailureNs, everFailed := 0, 0, false;
    }

    method Ask(now: nat) returns (v: Verdict)
      ensures v == MayAttempt(limits, Snapshot(), now)
    {
      if !everFailed || failures == 0 { return Verdict(Status.OK, 0); }
      var since := if now >= lastFailureNs then now - lastFailureNs else 0;
      if limits.decayAfterMs != 0 && since >= limits.decayAfterMs * MS % TWO64 { return Verdict(Status.OK, 0); }
      var lockMs := LockoutMsFor(limits, failures);
      if lockMs == 0 { return Verdict(Status.OK, 0); }
      var lockNs := lockMs * MS % TWO64;
      if since >= lockNs { return Verdict(Status.OK, 0); }
      v := Verdict(Status.BUSY, (lockNs - since) / MS + 1);
    }

    method RecordFailure(now: nat)
      modifies this
      ensures Snapshot() == Failed(limits, old(Snapshot()), now)
    {
      if everFailed && limits.decayAfterMs != 0 {
        var since := if now >= lastFailureNs then now - lastFailureNs else 0;
        if since >= limits.decayAfterMs * MS % TWO64 { failures := 0; }
      }
      if failures != 0xFFFF_FFFF { failures := failures + 1; }
      lastFailureNs := now;
      everFailed := true;
    }

    method RecordSuccess()
      modifies this
      ensures failures == 0 && !everFailed && lastFailureNs == old(lastFailureNs)
    {
      failures, everFailed := 0, false;
    }
  }

  // ---------------------------------------------------------------- the promise, and the limits that keep it

  /** What the header promises of `mayAttempt`: the capped doubling, and the decay, in real time. */
  function Promised(l: Limits, g: Gate, now: nat): Verdict {
    var lock := Ideal(l, g.failures) * MS;
    if !g.everFailed || g.failures == 0 || (l.decayAfterMs != 0 && Since(g, now) >= l.decayAfterMs * MS) then Verdict(Status.OK, 0)
    else if Since(g, now) >= lock then Verdict(Status.OK, 0)
    else Verdict(Status.BUSY, (lock - Since(g, now)) / MS + 1)
  }

  /** And of `recordFailure`: one more, unless the streak has aged out. */
  function PromisedFailures(l: Limits, g: Gate, now: nat): nat {
    if g.everFailed && l.decayAfterMs != 0 && Since(g, now) >= l.decayAfterMs * MS then 1 else Min(g.failures + 1, MOST)
  }

  const MOST: u32 := 0xFFFF_FFFF

  ghost predicate KeptAt(l: Limits, g: Gate, now: u64) {
    MayAttempt(l, g, now) == Promised(l, g, now) && Failed(l, g, now).failures == PromisedFailures(l, g, now)
  }

  /** The gate does what it promises whatever its state and whatever the 64-bit clock reads. */
  ghost predicate KeepsPromise(l: Limits) {
    forall g: Gate, now: u64 :: g.lastFailureNs < TWO64 ==> KeptAt(l, g, now)
  }

  /** The longest lockout these limits can reach, and the decay period, fit 64 bits of nanoseconds. */
  predicate FitsClock(l: Limits) { Ideal(l, MOST) * MS < TWO64 && l.decayAfterMs * MS < TWO64 }

  lemma {:induction false} IdealRises(l: Limits, f: u32, f': u32)
    requires f <= f'
    ensures Ideal(l, f) <= Ideal(l, f')
  {
    if l.freeAttempts < f {
      LevelIsPower(l, f - l.freeAttempts - 1);
      LevelIsPower(l, f' - l.freeAttempts - 1);
      LevelsRise(l, f - l.freeAttempts - 1, f' - l.freeAttempts - 1);
    }
  }

  /** Limits that fit the clock never overflow the doubling either. */
  lemma FittingNeverOverflows(l: Limits)
    requires FitsClock(l)
    ensures NeverOverflows(l)
  {
    forall k: nat | l.freeAttempts + k + 2 <= MOST ensures !Overflows(l, k) {
      IdealRises(l, l.freeAttempts + k + 2, MOST);
      LevelIsPower(l, k + 1);
    }
  }

  lemma FittingIsExact(l: Limits, f: u32)
    requires FitsClock(l)
    ensures LockNs(l, f) == Ideal(l, f) * MS && Lockout(l, f) == Ideal(l, f) && Nanos(l.decayAfterMs) == l.decayAfterMs * MS
  {
    FittingNeverOverflows(l);
    IdealAt(l, f);
    IdealRises(l, f, MOST);
    NanosExact(Lockout(l, f));
    NanosExact(l.decayAfterMs);
  }

  lemma NanosExact(ms: u64)
    requires ms * MS < TWO64
    ensures Nanos(ms) == ms * MS
  {}

  /** The wait a gate announces is below what the clock can count, so it cannot announce a longer one. */
  lemma TooLongIsBroken(l: Limits)
    requires Ideal(l, MOST) * MS >= TWO64
    ensures !KeptAt(l, Gate(MOST, 0, true), 0)
  {
    var g := Gate(MOST, 0, true);
    AnnouncesLittle(l, g);
    PromisesMuch(l, Ideal(l, MOST));
  }

  lemma AnnouncesLittle(l: Limits, g: Gate)
    ensures MayAttempt(l, g, g.lastFailureNs).retryAfterMs <= (TWO64 - 1) / MS + 1
  {}

  lemma PromisesMuch(l: Limits, lock: nat)
    requires lock == Ideal(l, MOST) && lock * MS >= TWO64
    ensures Promised(l, Gate(MOST, 0, true), 0).retryAfterMs == lock + 1 > (TWO64 - 1) / MS + 1
  {}

  lemma LongDecayIsBroken(l: Limits)
    requires l.decayAfterMs * MS >= TWO64
    ensures !KeptAt(l, Gate(1, 0, true), Nanos(l.decayAfterMs))
  {
    var g := Gate(1, 0, true);
    assert Since(g, Nanos(l.decayAfterMs)) == Nanos(l.decayAfterMs) < l.decayAfterMs * MS;
  }

  /**
   * The gate keeps its promise, in every state and at every time, exactly when the longest lockout
   * its limits reach and its decay period can both be counted in 64 bits of nanoseconds.
   */
  lemma PromiseKeptExactly(l: Limits)
    ensures KeepsPromise(l) <==> FitsClock(l)
  {
    if FitsClock(l) {
      forall g: Gate, now: u64 | g.lastFailureNs < TWO64 ensures KeptAt(l, g, now) { FittingIsExact(l, g.failures); }
    } else if Ideal(l, MOST) * MS >= TWO64 {
      TooLongIsBroken(l);
    } else {
      LongDecayIsBroken(l);
    }
  }

  lemma {:induction false} Pow2Rises(n: nat, m: nat)
    requires n <= m
    ensures Pow2(n) <= Pow2(m)
    decreases m
  {
    if n < m { Pow2Rises(n, m - 1); }
  }

  lemma TwoTo64()
    ensures Pow2(64) == TWO64
  {
    assert Pow2(8) == 256;
    assert Pow2(16) == 0x1_0000;
    assert Pow2(24) == 0x100_0000;
    assert Pow2(32) == 0x1_0000_0000;
    assert Pow2(40) == 0x100_0000_0000;
    assert Pow2(48) == 0x1_0000_0000_0000;
    assert Pow2(56) == 0x100_0000_0000_0000;
  }

  lemma AtLeast(a: nat, b: nat)
    requires a > 0
    ensures a * b >= b
  {
    assert a * b == b + (a - 1) * b;
  }

  /** With a base and room to double, the longest lockout is the cap, so it is the cap that must fit. */
  lemma CapMustFit(l: Limits)
    requires l.baseLockoutMs > 0 && l.freeAttempts + 65 <= MOST
    ensures FitsClock(l) <==> l.maxLockoutMs * MS < TWO64 && l.decayAfterMs * MS < TWO64
  {
    var n := MOST - l.freeAttempts - 1;
    TwoTo64();
    Pow2Rises(64, n);
    AtLeast(l.baseLockoutMs, Pow2(n));
  }

  /** Limits whose nanoseconds wrap to nothing: after any number of failures the gate is open at once. */
  lemma WrappedLockNeverShuts(g: Gate, now: nat)
    ensures var l := Limits(0, 0x400_0000_0000_0000, 0x400_0000_0000_0000, 0); MayAttempt(l, g, now).status == Status.OK && NeverOverflows(l)
  {
    var l := Limits(0, 0x400_0000_0000_0000, 0x400_0000_0000_0000, 0);
    SmallCapNeverOverflows(l);
    if g.failures > 0 { assert Lockout(l, g.failures) == 0x400_0000_0000_0000; }
  }

  // ---------------------------------------------------------------- waiting

  /** How long after the last failure the gate opens. */
  function OpensAfter(l: Limits, g: Gate): nat {
    var lock := LockNs(l, g.failures);
    if l.decayAfterMs != 0 then Min(lock, Nanos(l.decayAfterMs)) else lock
  }

  lemma OpenExactly(l: Limits, g: Gate, now: nat)
    ensures MayAttempt(l, g, now).status == Status.OK <==>
            !g.everFailed || g.failures == 0 || Lockout(l, g.failures) == 0 || Since(g, now) >= OpensAfter(l, g)
  {}

  lemma RoundedUp(d: nat)
    ensures (d / MS + 1) * MS > d
  {}

  /**
   * Waiting as long as a shut gate asks opens it exactly when the clock is not too far behind the last
   * failure: by no more than one millisecond, plus what the lockout has over the decay period.
   */
  lemma WaitingOpensExactly(l: Limits, g: Gate, now: nat)
    requires MayAttempt(l, g, now).status != Status.OK
    ensures var later := now + MayAttempt(l, g, now).retryAfterMs * MS;
            MayAttempt(l, g, later).status == Status.OK <==>
              g.lastFailureNs + OpensAfter(l, g) <= now + (LockNs(l, g.failures) / MS + 1) * MS
  {
    OpenExactly(l, g, now);
    var lock, wait := LockNs(l, g.failures), MayAttempt(l, g, now).retryAfterMs;
    assert wait == (lock - Since(g, now)) / MS + 1;
    WaitedOut(g, now, lock, OpensAfter(l, g), wait);
    OpenExactly(l, g, now + wait * MS);
  }

  lemma WaitedOut(g: Gate, now: nat, lock: nat, opens: nat, wait: nat)
    requires opens <= lock && Since(g, now) < lock && wait == (lock - Since(g, now)) / MS + 1
    ensures Since(g, now + wait * MS) >= opens <==> opens == 0 || g.lastFailureNs + opens <= now + (lock / MS + 1) * MS
  {
    RoundedUp(lock);
    RoundedUp(lock - Since(g, now));
  }

  /** With limits the clock can count, the gate opens when the promised lockout or decay is over. */
  lemma OpensAsPromised(l: Limits, g: Gate, lock: nat, decay: nat)
    requires FitsClock(l) && lock == Ideal(l, g.failures) * MS && decay == l.decayAfterMs * MS
    ensures LockNs(l, g.failures) == lock && OpensAfter(l, g) == if decay != 0 then Min(lock, decay) else lock
  {
    FittingIsExact(l, g.failures);
  }

  /** A gate restored after a reboot, with a clock that started over, can stay shut past the wait it asked for. */
  lemma RestoredGateStaysShut()
    ensures var l := Limits(0, 1000, 60000, 0); var g := Gate(1, 1_000_000_000_000, true); var v := MayAttempt(l, g, 0);
            v.status == Status.BUSY && MayAttempt(l, g, v.retryAfterMs * MS).status == Status.BUSY
  {
    var l := Limits(0, 1000, 60000, 0);
    assert Lockout(l, 1) == 1000;
  }

  // ---------------------------------------------------------------- how many guesses in how much time

  /** The gate after failures at the times `ts`, from a fresh start and with no success between. */
  function GateAfter(l: Limits, ts: seq<nat>): Gate {
    if ts == [] then FRESH else Failed(l, GateAfter(l, ts[..|ts| - 1]), ts[|ts| - 1])
  }

  /** Every failure came when the gate let it, on a clock that never runs backwards. */
  predicate Obeys(l: Limits, ts: seq<nat>) {
    ts == [] || (
      var before, t := ts[..|ts| - 1], ts[|ts| - 1];
      Obeys(l, before) && (before != [] ==> t >= before[|before| - 1]) && MayAttempt(l, GateAfter(l, before), t).status == Status.OK)
  }

  /** The last gap was long enough for the streak to be forgotten. */
  predicate DecayGap(l: Limits, ts: seq<nat>)
    requires |ts| > 1
  {
    Decayed(l, GateAfter(l, ts[..|ts| - 1]), ts[|ts| - 1])
  }

  /** The last gap was a lockout waited out. */
  predicate LockGap(l: Limits, ts: seq<nat>)
    requires |ts| > 1
  {
    !DecayGap(l, ts) && GateAfter(l, ts[..|ts| - 1]).failures > l.freeAttempts
  }

  function DecayGaps(l: Limits, ts: seq<nat>): nat {
    if |ts| <= 1 then 0 else DecayGaps(l, ts[..|ts| - 1]) + if DecayGap(l, ts) then 1 else 0
  }

  function LockGaps(l: Limits, ts: seq<nat>): nat {
    if |ts| <= 1 then 0 else LockGaps(l, ts[..|ts| - 1]) + if LockGap(l, ts) then 1 else 0
  }

  /** How many failures the current streak has seen. */
  function Streak(l: Limits, ts: seq<nat>): nat {
    if ts == [] then 0 else if |ts| > 1 && DecayGap(l, ts) then 1 else Streak(l, ts[..|ts| - 1]) + 1
  }

  lemma {:induction false} CountsTheStreak(l: Limits, ts: seq<nat>)
    requires ts != []
    ensures var g := GateAfter(l, ts); g.failures == Min(Streak(l, ts), 0xFFFF_FFFF) && g.everFailed && g.lastFailureNs == ts[|ts| - 1]
    ensures Streak(l, ts) >= 1
    decreases |ts|
  {
    if |ts| > 1 { CountsTheStreak(l, ts[..|ts| - 1]); } else { assert ts[..0] == []; }
  }

  /** Free attempts a streak still has. */
  function Slack(l: Limits, streak: nat): nat { if streak <= l.freeAttempts then l.freeAttempts + 1 - streak else 0 }

  lemma OneMore(a: nat, n: nat)
    ensures a * (n + 1) == a * n + a
  {}

  lemma {:induction false} GuessesCounted(l: Limits, ts: seq<nat>)
    requires ts != [] && l.freeAttempts < 0xFFFF_FFFF
    ensures |ts| + Slack(l, Streak(l, ts)) <= (l.freeAttempts + 1) * (DecayGaps(l, ts) + 1) + LockGaps(l, ts)
    decreases |ts|
  {
    if |ts| > 1 {
      var before := ts[..|ts| - 1];
      GuessesCounted(l, before);
      CountsTheStreak(l, before);
      OneMore(l.freeAttempts + 1, DecayGaps(l, before) + 1);
    }
  }

  /** The shortest lockout the limits allow. */
  function LeastLockNs(l: Limits): nat { Min(l.baseLockoutMs, l.maxLockoutMs) * MS }

  lemma LockoutAtLeast(l: Limits, f: u32)
    requires FitsClock(l) && f > l.freeAttempts
    ensures LockNs(l, f) >= LeastLockNs(l) && (LeastLockNs(l) > 0 ==> Lockout(l, f) > 0)
  {
    FittingIsExact(l, f);
    LevelIsPower(l, f - l.freeAttempts - 1);
    LevelsRise(l, 0, f - l.freeAttempts - 1);
  }

  /** The time a gap takes at least. */
  function GapNs(l: Limits, ts: seq<nat>): nat
    requires |ts| > 1
  {
    if DecayGap(l, ts) then l.decayAfterMs * MS else if LockGap(l, ts) then LeastLockNs(l) else 0
  }

  lemma GapTook(l: Limits, ts: seq<nat>)
    requires |ts| > 1 && Obeys(l, ts) && FitsClock(l)
    ensures ts[|ts| - 1] >= ts[|ts| - 2] + GapNs(l, ts)
  {
    var before := ts[..|ts| - 1];
    CountsTheStreak(l, before);
    if LockGap(l, ts) { LockoutAtLeast(l, GateAfter(l, before).failures); }
  }

  /** What the waits add up to. */
  function WaitedNs(l: Limits, ts: seq<nat>): nat { DecayGaps(l, ts) * (l.decayAfterMs * MS) + LockGaps(l, ts) * LeastLockNs(l) }

  lemma WaitedGrows(l: Limits, ts: seq<nat>)
    requires |ts| > 1
    ensures WaitedNs(l, ts) == WaitedNs(l, ts[..|ts| - 1]) + GapNs(l, ts)
  {
    var before := ts[..|ts| - 1];
    OneMore(l.decayAfterMs * MS, DecayGaps(l, before));
    OneMore(LeastLockNs(l), LockGaps(l, before));
  }

  lemma {:induction false} TimeSpent(l: Limits, ts: seq<nat>)
    requires ts != [] && Obeys(l, ts) && FitsClock(l)
    ensures ts[0] + WaitedNs(l, ts) <= ts[|ts| - 1]
    decreases |ts|
  {
    if |ts| > 1 {
      TimeSpent(l, ts[..|ts| - 1]);
      GapTook(l, ts);
      WaitedGrows(l, ts);
    }
  }

  /**
   * An attacker who obeys the gate, with no success in between, gets at most (free + 1) * (1 + d) + m
   * wrong guesses, where d streaks were left to decay and m lockouts were waited out, and the waiting
   * alone took d * decay + m * min(base, max). The limits are ones the clock can count.
   */
  lemma GuessRateBound(l: Limits, ts: seq<nat>)
    requires ts != [] && Obeys(l, ts) && FitsClock(l) && l.freeAttempts < 0xFFFF_FFFF
    ensures var d, m := DecayGaps(l, ts), LockGaps(l, ts);
            && |ts| <= (l.freeAttempts + 1) * (d + 1) + m
            && ts[0] + (d * (l.decayAfterMs * MS) + m * LeastLockNs(l)) <= ts[|ts| - 1]
  {
    GuessesCounted(l, ts);
    TimeSpent(l, ts);
  }

  /** With every failure count free there is no bound: the gate never shuts. */
  lemma AllFreeNeverShuts(l: Limits, g: Gate, now: nat)
    requires l.freeAttempts == 0xFFFF_FFFF
    ensures MayAttempt(l, g, now).status == Status.OK
  {}
}
