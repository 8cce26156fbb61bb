/** `ParticleEffect`: a pool of n particles and the ring of active ones.
    The active particles are kept in three parallel lists (their ids, their
    positions and their orientation ids) that are erased from and appended
    to together. Particles are values in the pool; the motion functions,
    which use trigonometry and random numbers, are an input giving each
    particle id its initial velocity. */
module Particles {
  import opened Vectors
  import opened Seqs

  /** A particle: its id, age, whether it starts active, its orientation,
      position, velocity, mesh and texture. */
  datatype Particle = Particle(i: nat, life: real, active: bool, orientationID: nat,
                               position: Vec3, velocity: Vec3, meshID: int, modelTextureID: int)

  /** `makeParticle`: a fresh particle of age 0, active exactly for an
      effect without a rate, with orientation id i modulo the number of
      orientations (0 without orientations), placed at the anchor moved
      along the effect's velocity for the effect's age. */
  function MakeParticle(i: nat, rate: real, orientations: nat, anchor: Vec3, velocity: Vec3, life: real,
                        initVelocity: nat -> Vec3): (p: Particle)
    ensures p.i == i && p.life == 0.0
    ensures p.active <==> rate == 0.0
    ensures orientations == 0 ==> p.orientationID == 0
    ensures orientations > 0 ==> p.orientationID < orientations
  {
    Particle(i, 0.0, rate == 0.0, if orientations == 0 then 0 else i % orientations,
             Add(anchor, Scale(life, velocity)), initVelocity(i), 0, 0)
  }

  /** The first `orientations` particles take the orientation ids
      0, 1, ... in order. */
  lemma FirstOrientations(i: nat, rate: real, orientations: nat, anchor: Vec3, velocity: Vec3, life: real,
                          initVelocity: nat -> Vec3)
    requires i < orientations
    ensures MakeParticle(i, rate, orientations, anchor, velocity, life, initVelocity).orientationID == i
  {
  }

  /** The ids of the active particles of a pool, in pool order. */
  function ActiveIds(ps: seq<Particle>): (r: seq<nat>)
    ensures |r| <= |ps|
    ensures forall k :: 0 <= k < |r| ==> r[k] < |ps| && ps[r[k]].active
  {
    if ps == [] then []
    else
      var p := ps[..|ps| - 1];
      assert forall k :: 0 <= k < |p| ==> ps[k] == p[k];
      ActiveIds(p) + (if ps[|ps| - 1].active then [|ps| - 1] else [])
  }

  /** Their positions, in the same order. */
  function ActivePositions(ps: seq<Particle>): seq<Vec3>
  {
    if ps == [] then []
    else ActivePositions(ps[..|ps| - 1]) + (if ps[|ps| - 1].active then [ps[|ps| - 1].position] else [])
  }

  /** Their orientation ids, in the same order. */
  function ActiveOrientationIds(ps: seq<Particle>): seq<nat>
  {
    if ps == [] then []
    else ActiveOrientationIds(ps[..|ps| - 1]) + (if ps[|ps| - 1].active then [ps[|ps| - 1].orientationID] else [])
  }

  /** The three builders list the same particles: equal lengths. */
  lemma {:induction false} ActiveLengths(ps: seq<Particle>)
    ensures |ActivePositions(ps)| == |ActiveIds(ps)| == |ActiveOrientationIds(ps)|
  {
    if ps != [] {
      ActiveLengths(ps[..|ps| - 1]);
    }
  }

  /** Entry k of each list belongs to the same particle. */
  lemma {:induction false} ActiveEntries(ps: seq<Particle>)
    ensures |ActivePositions(ps)| == |ActiveIds(ps)| == |ActiveOrientationIds(ps)|
    ensures forall k :: 0 <= k < |ActiveIds(ps)| ==>
      ActivePositions(ps)[k] == ps[ActiveIds(ps)[k]].position &&
      ActiveOrientationIds(ps)[k] == ps[ActiveIds(ps)[k]].orientationID
  {
    ActiveLengths(ps);
    if ps != [] {
      var p := ps[..|ps| - 1];
      ActiveEntries(p);
      forall k | 0 <= k < |ActiveIds(p)|
        ensures ps[ActiveIds(p)[k]] == p[ActiveIds(p)[k]]
      {
      }
    }
  }

  /** The ids are listed in increasing order. */
  lemma {:induction false} ActiveIdsAscend(ps: seq<Particle>)
    ensures forall k, l :: 0 <= k < l < |ActiveIds(ps)| ==> ActiveIds(ps)[k] < ActiveIds(ps)[l]
  {
    if ps != [] {
      ActiveIdsAscend(ps[..|ps| - 1]);
    }
  }

  /** Every active particle is listed. */
  lemma {:induction false} ActiveIdsComplete(ps: seq<Particle>)
    ensures forall j :: 0 <= j < |ps| && ps[j].active ==> j in ActiveIds(ps)
  {
    if ps != [] {
      var p := ps[..|ps| - 1];
      ActiveIdsComplete(p);
      assert forall j :: 0 <= j < |p| ==> ps[j] == p[j];
    }
  }

  /** `generateParticles`' pool: particle k made with id k. */
  function Generated(n: nat, rate: real, orientations: nat, anchor: Vec3, velocity: Vec3, life: real,
                     initVelocity: nat -> Vec3): (ps: seq<Particle>)
    ensures |ps| == n
  {
    if n == 0 then []
    else Generated(n - 1, rate, orientations, anchor, velocity, life, initVelocity) +
         [MakeParticle(n - 1, rate, orientations, anchor, velocity, life, initVelocity)]
  }

  /** Particle k of a fresh pool is made with id k. */
  lemma {:induction false} GeneratedAt(n: nat, rate: real, orientations: nat, anchor: Vec3, velocity: Vec3,
                                       life: real, initVelocity: nat -> Vec3, k: nat)
    requires k < n
    ensures Generated(n, rate, orientations, anchor, velocity, life, initVelocity)[k] ==
      MakeParticle(k, rate, orientations, anchor, velocity, life, initVelocity)
  {
    if k < n - 1 {
      GeneratedAt(n - 1, rate, orientations, anchor, velocity, life, initVelocity, k);
    }
  }

  /** A pool of active particles lists every id, in order. */
  lemma {:induction false} AllActive(ps: seq<Particle>)
    requires forall k :: 0 <= k < |ps| ==> ps[k].active
    ensures |ActiveIds(ps)| == |ps|
    ensures forall k :: 0 <= k < |ps| ==> ActiveIds(ps)[k] == k
  {
    if ps != [] {
      var p := ps[..|ps| - 1];
      AllActive(p);
      var a := ActiveIds(p);
      assert ActiveIds(ps) == a + [|ps| - 1];
      forall k | 0 <= k < |ps|
        ensures ActiveIds(ps)[k] == k
      {
        if k < |p| {
          assert ActiveIds(ps)[k] == a[k];
        }
      }
    }
  }

  /** A pool of inactive particles lists none. */
  lemma {:induction false} NoneActive(ps: seq<Particle>)
    requires forall k :: 0 <= k < |ps| ==> !ps[k].active
    ensures ActiveIds(ps) == []
  {
    if ps != [] {
      NoneActive(ps[..|ps| - 1]);
    }
  }

  /** A fresh pool is all active without a rate and all inactive with one. */
  lemma GeneratedActivity(n: nat, rate: real, orientations: nat, anchor: Vec3, velocity: Vec3,
                          life: real, initVelocity: nat -> Vec3)
    ensures var ps := Generated(n, rate, orientations, anchor, velocity, life, initVelocity);
      (rate == 0.0 ==> |ActiveIds(ps)| == n && forall k :: 0 <= k < n ==> ActiveIds(ps)[k] == k) &&
      (rate != 0.0 ==> ActiveIds(ps) == [])
  {
    var ps := Generated(n, rate, orientations, anchor, velocity, life, initVelocity);
    forall k | 0 <= k < n
      ensures ps[k].active <==> rate == 0.0
    {
      GeneratedAt(n, rate, orientations, anchor, velocity, life, initVelocity, k);
    }
    if rate == 0.0 {
      AllActive(ps);
    } else {
      NoneActive(ps);
    }
  }

  /** `getNextActivation`: the time of the first activation. */
  function NextActivation(rate: real): (t: real)
    ensures rate == 0.0 ==> t == 0.0
    ensures rate != 0.0 ==> t * rate == 1.0
  {
    if rate == 0.0 then 0.0 else 1.0 / rate
  }

  /** The id of the particle the ring activates when it is not full: the
      one after the newest, wrapping to 0 at n, or 0 when none is active. */
  function NextId(activeMap: seq<nat>, n: nat): (pid: nat)
    requires forall k :: 0 <= k < |activeMap| ==> activeMap[k] < n
    ensures n > 0 ==> pid < n
    ensures activeMap != [] ==> pid == (activeMap[|activeMap| - 1] + 1) % n
  {
    if activeMap == [] then 0
    else if activeMap[|activeMap| - 1] + 1 == n then 0
    else activeMap[|activeMap| - 1] + 1
  }

  /** `updatePosition`: each accelerator adds to the velocity, then the
      particle moves along its velocity. */
  function Accelerate(velocity: Vec3, accelerators: seq<Vec3>, dt: real): Vec3
  {
    if accelerators == [] then velocity
    else Add(Accelerate(velocity, accelerators[..|accelerators| - 1], dt), Scale(dt, accelerators[|accelerators| - 1]))
  }

  /** The entries of xs whose particle, named by the matching entry of
      pids, has not outlived the particle duration, in order. */
  function Survivors<T>(xs: seq<T>, pids: seq<nat>, ps: seq<Particle>, duration: real): seq<T>
    requires |xs| == |pids|
    requires forall k :: 0 <= k < |pids| ==> pids[k] < |ps|
  {
    if xs == [] then []
    else
      var m := |xs| - 1;
      Survivors(xs[..m], pids[..m], ps, duration) + (if ps[pids[m]].life > duration then [] else [xs[m]])
  }

  /** Survivors of parallel lists have equal lengths, and an id survives
      exactly when it was active and has not expired. */
  lemma {:induction false} SurvivorsAgree<T>(xs: seq<T>, pids: seq<nat>, ps: seq<Particle>, duration: real)
    requires |xs| == |pids|
    requires forall k :: 0 <= k < |pids| ==> pids[k] < |ps|
    ensures |Survivors(xs, pids, ps, duration)| == |Survivors(pids, pids, ps, duration)| <= |xs|
    ensures forall pid :: pid in Survivors(pids, pids, ps, duration) <==> pid in pids && !(ps[pid].life > duration)
  {
    if xs != [] {
      var m := |xs| - 1;
      SurvivorsAgree(xs[..m], pids[..m], ps, duration);
      assert pids == pids[..m] + [pids[m]];
    }
  }

  /** One step of the expiry pass on a list holding the survivors of its
      first j entries and then its remaining entries: entry i is entry j of
      the original list, and erasing it (when its particle has expired) or
      keeping it gives the same shape for j + 1. */
  lemma ExpireStep<T>(xs: seq<T>, pids: seq<nat>, ps: seq<Particle>, duration: real, j: nat, i: nat, cur: seq<T>)
    requires |xs| == |pids| && j < |xs|
    requires forall k :: 0 <= k < |pids| ==> pids[k] < |ps|
    requires i == |Survivors(xs[..j], pids[..j], ps, duration)|
    requires cur == Survivors(xs[..j], pids[..j], ps, duration) + xs[j..]
    ensures i < |cur| && cur[i] == xs[j]
    ensures ps[pids[j]].life > duration ==>
      RemoveAt(cur, i) == Survivors(xs[..j + 1], pids[..j + 1], ps, duration) + xs[j + 1..] &&
      i == |Survivors(xs[..j + 1], pids[..j + 1], ps, duration)|
    ensures !(ps[pids[j]].life > duration) ==>
      cur == Survivors(xs[..j + 1], pids[..j + 1], ps, duration) + xs[j + 1..] &&
      i + 1 == |Survivors(xs[..j + 1], pids[..j + 1], ps, duration)|
  {
    assert xs[..j + 1][..j] == xs[..j] && pids[..j + 1][..j] == pids[..j];
    var s := Survivors(xs[..j], pids[..j], ps, duration);
    assert xs[j..] == [xs[j]] + xs[j + 1..];
    if ps[pids[j]].life > duration {
      assert RemoveAt(cur, i) == s + xs[j + 1..];
    } else {
      assert cur == (s + [xs[j]]) + xs[j + 1..];
    }
  }

  /** The state of the expiry pass after examining the first j entries:
      i survivors, then the entries not yet examined. */
  predicate Expiring(ids: seq<nat>, positions: seq<Vec3>, oids: seq<nat>, ps: seq<Particle>, duration: real,
                     j: nat, i: nat, am: seq<nat>, ap: seq<Vec3>, ao: seq<nat>)
  {
    |ids| == |positions| == |oids| && j <= |ids| && (forall k :: 0 <= k < |ids| ==> ids[k] < |ps|) &&
    i == |Survivors(ids[..j], ids[..j], ps, duration)| &&
    am == Survivors(ids[..j], ids[..j], ps, duration) + ids[j..] &&
    ap == Survivors(positions[..j], ids[..j], ps, duration) + positions[j..] &&
    ao == Survivors(oids[..j], ids[..j], ps, duration) + oids[j..]
  }

  /** Examining entry j: it sits at position i of each list, and erasing
      it there (when its particle has expired) or stepping past it keeps
      the pass's state. */
  lemma ExpiringStep(ids: seq<nat>, positions: seq<Vec3>, oids: seq<nat>, ps: seq<Particle>, duration: real,
                     j: nat, i: nat, am: seq<nat>, ap: seq<Vec3>, ao: seq<nat>)
    requires Expiring(ids, positions, oids, ps, duration, j, i, am, ap, ao) && j < |ids|
    ensures i < |am| && i < |ap| && i < |ao| && am[i] == ids[j]
    ensures ps[ids[j]].life > duration ==>
      Expiring(ids, positions, oids, ps, duration, j + 1, i, RemoveAt(am, i), RemoveAt(ap, i), RemoveAt(ao, i))
    ensures !(ps[ids[j]].life > duration) ==>
      Expiring(ids, positions, oids, ps, duration, j + 1, i + 1, am, ap, ao)
  {
    SurvivorsAgree(positions[..j], ids[..j], ps, duration);
    SurvivorsAgree(oids[..j], ids[..j], ps, duration);
    ExpireStep(ids, ids, ps, duration, j, i, am);
    ExpireStep(positions, ids, ps, duration, j, i, ap);
    ExpireStep(oids, ids, ps, duration, j, i, ao);
  }

  /** The part of an effect's state that `updateActiveParticles` and the
      motion loop of `update` change: the pool, the three active lists and
      the next activation time. */
  datatype Ring = Ring(particles: seq<Particle>, activeMap: seq<nat>, activePositions: seq<Vec3>,
                       activeOrientationIDs: seq<nat>, nextActivation: real)

  /** How many activation periods of length 1/rate lie between the next
      activation time and the effect's age, rounded down. */
  function Remaining(life: real, next: real, rate: real): int
  {
    ((life - next) * rate).Floor
  }

  /** Each activation moves the next activation on by 1/rate: a positive
      step, one period closer to the effect's age. */
  lemma RateStep(life: real, next: real, after: real, rate: real)
    requires rate > 0.0 && after == next + 1.0 / rate
    ensures after > next
    ensures life > next ==> Remaining(life, next, rate) >= 0
    ensures Remaining(life, after, rate) < Remaining(life, next, rate)
  {
    assert (life - (next + 1.0 / rate)) * rate == (life - next) * rate - 1.0;
    assert life > next ==> (life - next) * rate > 0.0;
  }

  /** k periods of length 1/rate are k - 1 of them and one more. */
  /** More periods of length 1/rate span at least as much time. */
  lemma PeriodsGrow(k1: nat, k2: nat, rate: real)
    requires k1 <= k2 && rate > 0.0
    ensures (k1 as real) / rate <= (k2 as real) / rate
  {
    assert (k2 as real) / rate - (k1 as real) / rate == ((k2 - k1) as real) / rate;
  }

  lemma PeriodSum(k: nat, rate: real)
    requires k > 0 && rate > 0.0
    ensures (k as real) / rate == ((k - 1) as real) / rate + 1.0 / rate
  {
  }

  /** The next activation time after k passes of the activation loop of
      `updateActiveParticles`, at any non-zero rate: each pass adds 1/rate. */
  function Schedule(next: real, rate: real, k: nat): real
    requires rate != 0.0
  {
    if k == 0 then next else Schedule(next, rate, k - 1) + 1.0 / rate
  }

  /** k passes after one pass are k + 1 passes. */
  lemma {:induction false} ScheduleShift(next: real, rate: real, k: nat)
    requires rate != 0.0
    ensures Schedule(next + 1.0 / rate, rate, k) == Schedule(next, rate, k + 1)
  {
    if k > 0 {
      ScheduleShift(next, rate, k - 1);
    }
  }

  /** With a negative rate every pass moves the next activation time
      earlier, so once the effect's age is past it the loop condition
      `life > nextActivation` holds after any number of passes: the loop
      does not end. */
  lemma {:induction false} NegativeRateNeverCatchesUp(life: real, next: real, rate: real, k: nat)
    requires rate < 0.0 && life > next
    ensures life > Schedule(next, rate, k)
  {
    if k > 0 {
      NegativeRateNeverCatchesUp(life, next, rate, k - 1);
      assert 1.0 / rate < 0.0;
    }
  }

  /** With a positive rate some number of passes brings the next
      activation time up to the effect's age: the loop ends. */
  lemma {:induction false} PositiveRateCatchesUp(life: real, next: real, rate: real)
    requires rate > 0.0
    ensures exists k: nat :: life <= Schedule(next, rate, k)
    decreases Remaining(life, next, rate)
  {
    if life <= next {
      assert life <= Schedule(next, rate, 0);
    } else {
      RateStep(life, next, next + 1.0 / rate, rate);
      PositiveRateCatchesUp(life, next + 1.0 / rate, rate);
      var k: nat :| life <= Schedule(next + 1.0 / rate, rate, k);
      ScheduleShift(next, rate, k);
      assert life <= Schedule(next, rate, k + 1);
    }
  }

  /** The running state of one effect. `n`, `rate`, `particleDuration`,
      `loop`, `orientations` and `effectDuration` come from the shared
      `EffectParams`; the effect's anchor and velocity place new
      particles. */
  class ParticleEffect {
    const n: nat
    const rate: real
    const particleDuration: real
    const loop: bool
    const orientations: nat
    const anchor: Vec3
    const velocity: Vec3
    const accelerators: seq<Vec3>
    const initVelocity: nat -> Vec3
    var effectDuration: real

    var particles: seq<Particle>
    var activeMap: seq<nat>
    var activePositions: seq<Vec3>
    var activeOrientationIDs: seq<nat>
    var nextActivation: real
    var life: real

    /** The pool has n particles, the three active lists have one length,
        no larger than n, and name particles of the pool. */
    predicate Fits(s: Ring)
    {
      |s.particles| == n && |s.activeMap| == |s.activePositions| == |s.activeOrientationIDs| <= n &&
      forall k :: 0 <= k < |s.activeMap| ==> s.activeMap[k] < n
    }

    function Snapshot(): Ring
      reads this
    {
      Ring(particles, activeMap, activePositions, activeOrientationIDs, nextActivation)
    }

    predicate Valid()
      reads this
    {
      Fits(Snapshot())
    }

    /** The effect's parameters under which `updateActiveParticles` is
        defined and ends: the rate is not negative, and with a rate there
        are particles to activate. */
    predicate Paced()
    {
      rate >= 0.0 && (rate > 0.0 ==> n > 0)
    }

    /** The expiry pass of `updateActiveParticles` on a ring: the entries
        whose particle has outlived the particle duration leave all three
        lists. */
    function Expired(s: Ring): (r: Ring)
      requires Fits(s)
      ensures Fits(r)
      ensures r.particles == s.particles && r.nextActivation == s.nextActivation
    {
      SurvivorsAgree(s.activeMap, s.activeMap, s.particles, particleDuration);
      SurvivorsAgree(s.activePositions, s.activeMap, s.particles, particleDuration);
      SurvivorsAgree(s.activeOrientationIDs, s.activeMap, s.particles, particleDuration);
      var am := Survivors(s.activeMap, s.activeMap, s.particles, particleDuration);
      assert forall k :: 0 <= k < |am| ==> am[k] in s.activeMap;
      Ring(s.particles, am,
           Survivors(s.activePositions, s.activeMap, s.particles, particleDuration),
           Survivors(s.activeOrientationIDs, s.activeMap, s.particles, particleDuration),
           s.nextActivation)
    }

    /** An id stays active through the expiry pass exactly when it was
        active and its particle has not outlived the particle duration. */
    lemma ExpiredMembers(s: Ring)
      requires Fits(s)
      ensures forall pid :: pid in Expired(s).activeMap <==>
        pid in s.activeMap && !(s.particles[pid].life > particleDuration)
    {
      SurvivorsAgree(s.activeMap, s.activeMap, s.particles, particleDuration);
    }

    /** One activation at effect age `age`: with n particles active the
        oldest is remade and moved to the back, otherwise the particle after
        the newest is remade and appended; the next activation moves on by
        1/rate. */
    function Activated(s: Ring, age: real): (r: Ring)
      requires Fits(s) && rate > 0.0 && n > 0
      ensures Fits(r)
      ensures |r.activeMap| == if |s.activeMap| == n then n else |s.activeMap| + 1
    {
      if |s.activeMap| == n then
        var pid := s.activeMap[0];
        var ps := s.particles[pid := MakeParticle(pid, rate, orientations, anchor, velocity, age, initVelocity)];
        Ring(ps, s.activeMap[1..] + [pid], s.activePositions[1..] + [ps[pid].position],
             s.activeOrientationIDs[1..] + [ps[pid].orientationID], s.nextActivation + 1.0 / rate)
      else
        var pid := NextId(s.activeMap, n);
        var ps := s.particles[pid := MakeParticle(pid, rate, orientations, anchor, velocity, age, initVelocity)];
        Ring(ps, s.activeMap + [pid], s.activePositions + [ps[pid].position],
             s.activeOrientationIDs + [ps[pid].orientationID], s.nextActivation + 1.0 / rate)
    }

    /** k activations in a row: the active count grows by k up to n. */
    function Activations(s: Ring, k: nat, age: real): (r: Ring)
      requires Fits(s) && rate > 0.0 && n > 0
      ensures Fits(r)
      ensures |r.activeMap| == if |s.activeMap| + k < n then |s.activeMap| + k else n
    {
      if k == 0 then s else Activated(Activations(s, k - 1, age), age)
    }

    /** After k activations the next activation has moved on by k/rate. */
    lemma {:induction false} ActivationsSchedule(s: Ring, k: nat, age: real)
      requires Fits(s) && rate > 0.0 && n > 0
      ensures Activations(s, k, age).nextActivation == s.nextActivation + (k as real) / rate
    {
      if k > 0 {
        ActivationsSchedule(s, k - 1, age);
        ActivatedNext(Activations(s, k - 1, age), age);
        PeriodSum(k, rate);
      }
    }

    /** k activations are the ones due at age `age`: after them the next
        activation time is not before the age, and after one fewer it was
        before it, so the loop would have gone on. */
    predicate Due(s: Ring, k: nat, age: real)
      requires Fits(s) && rate > 0.0 && n > 0
    {
      age <= Activations(s, k, age).nextActivation &&
      (k == 0 || Activations(s, k - 1, age).nextActivation < age)
    }

    /** At most one number of activations is due: the activation loop's
        result is determined by the ring and the age. */
    lemma DueUnique(s: Ring, k1: nat, k2: nat, age: real)
      requires Fits(s) && rate > 0.0 && n > 0
      requires Due(s, k1, age) && Due(s, k2, age)
      ensures k1 == k2
    {
      if k1 < k2 {
        NotDueAbove(s, k1, k2, age);
      } else if k2 < k1 {
        NotDueAbove(s, k2, k1, age);
      }
    }

    /** Once the next activation time is not before the age, further
        activations keep it so: no larger count is due. */
    lemma NotDueAbove(s: Ring, k1: nat, k2: nat, age: real)
      requires Fits(s) && rate > 0.0 && n > 0 && k1 < k2
      requires age <= Activations(s, k1, age).nextActivation
      ensures !Due(s, k2, age)
    {
      ActivationsSchedule(s, k1, age);
      ActivationsSchedule(s, k2 - 1, age);
      PeriodsGrow(k1, k2 - 1, rate);
    }

    lemma ActivatedNext(s: Ring, age: real)
      requires Fits(s) && rate > 0.0 && n > 0
      ensures Activated(s, age).nextActivation == s.nextActivation + 1.0 / rate
    {
    }

    /** `updateActiveParticles` on a ring, given how many activations its
        second loop makes: nothing at rate 0, otherwise the expiry pass and
        then the activations. */
    function Refreshed(s: Ring, k: nat, age: real): (r: Ring)
      requires Fits(s) && Paced()
      ensures Fits(r)
    {
      if rate == 0.0 then s else Activations(Expired(s), k, age)
    }

    /** The number of activations `updateActiveParticles` makes at age
        `age`: none without a rate, otherwise those due after the expiry
        pass. */
    predicate RefreshCount(s: Ring, k: nat, age: real)
      requires Fits(s) && Paced()
    {
      if rate == 0.0 then k == 0 else Due(Expired(s), k, age)
    }

    /** The live branch of `update` on a ring: `updateActiveParticles`,
        then the motion loop over every active position. */
    function Lived(s: Ring, k: nat, age: real, dt: real): (r: Ring)
      requires Fits(s) && Paced()
      ensures Fits(r)
    {
      var refreshed := Refreshed(s, k, age);
      Moved(refreshed, |refreshed.activeMap|, dt)
    }

    /** One step of the motion loop of `update`: the particle at active
        position i is accelerated, moved and aged by dt, and its position
        copied into the list. */
    function MoveOne(s: Ring, i: nat, dt: real): (r: Ring)
      requires Fits(s) && i < |s.activeMap|
      ensures Fits(r)
      ensures r.activeMap == s.activeMap && r.activeOrientationIDs == s.activeOrientationIDs
      ensures r.nextActivation == s.nextActivation
    {
      var pid := s.activeMap[i];
      var p := s.particles[pid];
      var v := Accelerate(p.velocity, accelerators, dt);
      var moved := p.(velocity := v, position := Add(p.position, Scale(dt, v)));
      s.(particles := s.particles[pid := moved.(life := p.life + dt)],
         activePositions := s.activePositions[i := moved.position])
    }

    /** The motion loop over the first i active positions. */
    function Moved(s: Ring, i: nat, dt: real): (r: Ring)
      requires Fits(s) && i <= |s.activeMap|
      ensures Fits(r)
      ensures r.activeMap == s.activeMap && r.activeOrientationIDs == s.activeOrientationIDs
      ensures r.nextActivation == s.nextActivation
    {
      if i == 0 then s
      else MoveOne(Moved(s, i - 1, dt), i - 1, dt)
    }

    /** The motion loop leaves the particles it does not list untouched. */
    lemma {:induction false} MovedUntouched(s: Ring, i: nat, dt: real)
      requires Fits(s) && i <= |s.activeMap|
      ensures forall pid :: 0 <= pid < n && pid !in s.activeMap[..i] ==>
        Moved(s, i, dt).particles[pid] == s.particles[pid]
    {
      if i > 0 {
        MovedUntouched(s, i - 1, dt);
        assert s.activeMap[..i] == s.activeMap[..i - 1] + [s.activeMap[i - 1]];
      }
    }

    /** The constructors: a generated pool, its active lists and the first
        activation time, at age 0. */
    constructor (n: nat, rate: real, particleDuration: real, effectDuration: real, loop: bool, orientations: nat,
                 anchor: Vec3, velocity: Vec3, accelerators: seq<Vec3>, initVelocity: nat -> Vec3)
      ensures Valid()
      ensures particles == Generated(n, rate, orientations, anchor, velocity, 0.0, initVelocity)
      ensures activeMap == ActiveIds(particles) && activePositions == ActivePositions(particles)
      ensures activeOrientationIDs == ActiveOrientationIds(particles)
      ensures nextActivation == NextActivation(rate) && life == 0.0
    {
      this.n, this.rate, this.particleDuration, this.effectDuration := n, rate, particleDuration, effectDuration;
      this.loop, this.orientations, this.anchor, this.velocity := loop, orientations, anchor, velocity;
      this.accelerators, this.initVelocity := accelerators, initVelocity;
      var ps := GenerateParticles(n, rate, orientations, anchor, velocity, 0.0, initVelocity);
      var ids := GetActiveMap(ps);
      var positions := GetActiveParticlePositions(ps);
      var orientationIDs := GetActiveParticleOrientationIDs(ps);
      ActiveLengths(ps);
      particles, activeMap, activePositions, activeOrientationIDs := ps, ids, positions, orientationIDs;
      nextActivation := NextActivation(rate);
      life := 0.0;
    }

    /** `removeActiveParticle(i)`: position i leaves all three lists. */
    method RemoveActiveParticle(i: nat)
      requires Valid() && i < |activeMap|
      modifies this
      ensures Valid()
      ensures activeMap == RemoveAt(old(activeMap), i)
      ensures activePositions == RemoveAt(old(activePositions), i)
      ensures activeOrientationIDs == RemoveAt(old(activeOrientationIDs), i)
      ensures particles == old(particles) && nextActivation == old(nextActivation) && life == old(life)
      ensures effectDuration == old(effectDuration)
    {
      activeMap := RemoveAt(activeMap, i);
      activePositions := RemoveAt(activePositions, i);
      activeOrientationIDs := RemoveAt(activeOrientationIDs, i);
    }

    /** `addActiveParticle(pid)`: particle pid joins the end of all three
        lists. */
    method AddActiveParticle(pid: nat)
      requires Valid() && pid < n && |activeMap| < n
      modifies this
      ensures Valid()
      ensures activeMap == old(activeMap) + [pid]
      ensures activePositions == old(activePositions) + [particles[pid].position]
      ensures activeOrientationIDs == old(activeOrientationIDs) + [particles[pid].orientationID]
      ensures particles == old(particles) && nextActivation == old(nextActivation) && life == old(life)
      ensures effectDuration == old(effectDuration)
    {
      activeMap := activeMap + [pid];
      activePositions := activePositions + [particles[pid].position];
      activeOrientationIDs := activeOrientationIDs + [particles[pid].orientationID];
    }

    /** The expiry pass of `updateActiveParticles`: every active entry
        whose particle has outlived the particle duration is erased from
        the three lists; the others keep their order. */
    method ExpireParticles()
      requires Valid()
      modifies this
      ensures Valid()
      ensures activeMap == Survivors(old(activeMap), old(activeMap), particles, particleDuration)
      ensures activePositions == Survivors(old(activePositions), old(activeMap), particles, particleDuration)
      ensures activeOrientationIDs == Survivors(old(activeOrientationIDs), old(activeMap), particles, particleDuration)
      ensures particles == old(particles) && nextActivation == old(nextActivation) && life == old(life)
      ensures effectDuration == old(effectDuration)
    {
      ghost var ids, positions, oids := activeMap, activePositions, activeOrientationIDs;
      ghost var ps, duration := particles, particleDuration;
      ghost var j := 0;
      var i := 0;
      assert ids[..0] == [] && positions[..0] == [] && oids[..0] == [];
      assert ids[0..] == ids && positions[0..] == positions && oids[0..] == oids;
      while i < |activeMap|
        invariant Valid() && particles == ps
        invariant nextActivation == old(nextActivation) && life == old(life)
        invariant effectDuration == old(effectDuration)
        invariant Expiring(ids, positions, oids, ps, duration, j, i, activeMap, activePositions, activeOrientationIDs)
        decreases |ids| - j
      {
        ExpiringStep(ids, positions, oids, ps, duration, j, i, activeMap, activePositions, activeOrientationIDs);
        if particles[activeMap[i]].life > particleDuration {
          RemoveActiveParticle(i);
        } else {
          i := i + 1;
        }
        j := j + 1;
      }
      assert ids[..j] == ids && positions[..j] == positions && oids[..j] == oids;
    }

    /** One step of the activation loop of `updateActiveParticles`: with n
        particles active, the oldest is remade and moved to the back;
        otherwise the particle after the newest (wrapping at n) is remade
        and appended. */
    method ActivateOne()
      requires Valid() && Paced() && rate > 0.0
      modifies this
      ensures Valid()
      ensures |old(activeMap)| == n ==>
        activeMap == old(activeMap)[1..] + [old(activeMap)[0]] &&
        particles == old(particles)[old(activeMap)[0] := MakeParticle(old(activeMap)[0], rate, orientations, anchor, velocity, life, initVelocity)]
      ensures |old(activeMap)| < n ==>
        activeMap == old(activeMap) + [NextId(old(activeMap), n)] &&
        particles == old(particles)[NextId(old(activeMap), n) := MakeParticle(NextId(old(activeMap), n), rate, orientations, anchor, velocity, life, initVelocity)]
      ensures |activeMap| == if |old(activeMap)| == n then n else |old(activeMap)| + 1
      ensures nextActivation == old(nextActivation) + 1.0 / rate && life == old(life)
      ensures effectDuration == old(effectDuration)
      ensures Snapshot() == Activated(old(Snapshot()), life)
    {
      if |activePositions| == n {
        var pid := activeMap[0];
        RemoveActiveParticle(0);
        particles := particles[pid := MakeParticle(pid, rate, orientations, anchor, velocity, life, initVelocity)];
        AddActiveParticle(pid);
      } else {
        var pid;
        if |activeMap| == 0 {
          pid := 0;
        } else {
          pid := activeMap[|activeMap| - 1] + 1;
          if pid == n {
            pid := 0;
          }
        }
        particles := particles[pid := MakeParticle(pid, rate, orientations, anchor, velocity, life, initVelocity)];
        AddActiveParticle(pid);
      }
      nextActivation := nextActivation + 1.0 / rate;
    }

    /** The activation loop of `updateActiveParticles`: activations until
        the next activation time is not before the effect's age. */
    method ActivateDue()
      requires Valid() && Paced() && rate > 0.0
      modifies this
      ensures Valid()
      ensures life <= nextActivation && nextActivation >= old(nextActivation)
      ensures life == old(life) && effectDuration == old(effectDuration)
      ensures exists k: nat :: Due(old(Snapshot()), k, life) && Snapshot() == Activations(old(Snapshot()), k, life)
    {
      ghost var k: nat := 0;
      while life > nextActivation
        invariant Valid() && life == old(life) && effectDuration == old(effectDuration)
        invariant nextActivation >= old(nextActivation)
        invariant Snapshot() == Activations(old(Snapshot()), k, life)
        invariant k == 0 || Activations(old(Snapshot()), k - 1, life).nextActivation < life
        decreases Remaining(life, nextActivation, rate)
      {
        ghost var next := nextActivation;
        ActivateOne();
        RateStep(life, next, nextActivation, rate);
        k := k + 1;
      }
      assert Due(old(Snapshot()), k, life);
    }

    /** `updateActiveParticles`: for an effect with a rate, the expiry pass
        and then activations until the next activation time is not before
        the effect's age. The active count never exceeds n. */
    method UpdateActiveParticles()
      requires Valid() && Paced()
      modifies this
      ensures Valid()
      ensures rate == 0.0 ==>
        activeMap == old(activeMap) && particles == old(particles) && nextActivation == old(nextActivation)
      ensures rate > 0.0 ==> life <= nextActivation
      ensures nextActivation >= old(nextActivation)
      ensures life == old(life) && effectDuration == old(effectDuration)
      ensures exists k: nat :: RefreshCount(old(Snapshot()), k, life) && Snapshot() == Refreshed(old(Snapshot()), k, life)
    {
      if rate != 0.0 {
        ExpireParticles();
        ghost var expired := Snapshot();
        assert expired == Expired(old(Snapshot()));
        ActivateDue();
        ghost var k: nat :| Due(expired, k, life) && Snapshot() == Activations(expired, k, life);
        assert RefreshCount(old(Snapshot()), k, life) && Snapshot() == Refreshed(old(Snapshot()), k, life);
      } else {
        ghost var s := Snapshot();
        assert RefreshCount(s, 0, life) && Refreshed(s, 0, life) == s;
      }
    }

    /** One step of the motion loop of `update`: the particle at active
        position i moves, its position is copied into the list, and it ages
        by dt. */
    method MoveActive(i: nat, dt: real)
      requires Valid() && i < |activeMap|
      modifies this
      ensures Valid()
      ensures Snapshot() == MoveOne(old(Snapshot()), i, dt)
      ensures life == old(life) && effectDuration == old(effectDuration)
    {
      var pid := activeMap[i];
      var p := particles[pid];
      var v := p.velocity;
      var k := 0;
      while k < |accelerators|
        invariant k <= |accelerators| && v == Accelerate(p.velocity, accelerators[..k], dt)
      {
        assert accelerators[..k + 1][..k] == accelerators[..k];
        v := Add(v, Scale(dt, accelerators[k]));
        k := k + 1;
      }
      assert accelerators[..k] == accelerators;
      p := p.(velocity := v, position := Add(p.position, Scale(dt, v)));
      activePositions := activePositions[i := p.position];
      p := p.(life := p.life + dt);
      particles := particles[pid := p];
    }

    /** The branch of `update(dt)` taken while the effect lasts:
        activations are brought up to date, then every active particle
        moves. */
    method LiveUpdate(dt: real)
      requires Valid() && Paced()
      modifies this
      ensures Valid()
      ensures life == old(life) && effectDuration == old(effectDuration)
      ensures exists k: nat :: RefreshCount(old(Snapshot()), k, life) && Snapshot() == Lived(old(Snapshot()), k, life, dt)
    {
      UpdateActiveParticles();
      ghost var k: nat :| RefreshCount(old(Snapshot()), k, life) && Snapshot() == Refreshed(old(Snapshot()), k, life);
      MoveAll(dt);
      assert RefreshCount(old(Snapshot()), k, life) && Snapshot() == Lived(old(Snapshot()), k, life, dt);
    }

    /** The motion loop of `update`: every active particle, in list order,
        is moved and aged by dt. */
    method MoveAll(dt: real)
      requires Valid()
      modifies this
      ensures Valid()
      ensures life == old(life) && effectDuration == old(effectDuration)
      ensures Snapshot() == Moved(old(Snapshot()), |old(activeMap)|, dt)
    {
      ghost var s0 := Snapshot();
      var i := 0;
      while i < |activePositions|
        invariant i <= |s0.activeMap| && Valid()
        invariant life == old(life) && effectDuration == old(effectDuration)
        invariant Snapshot() == Moved(s0, i, dt)
      {
        MoveActive(i, dt);
        i := i + 1;
      }
    }

    /** One pass of `update(dt)`: the effect ages by dt. While it lasts,
        activations are brought up to date and every active particle moves.
        Once over, a looping effect without a rate starts again from a fresh
        pool at age 0, and one with a rate has its duration extended by its
        age; `again` says that the source then calls `update` once more. */
    method UpdateOnce(dt: real) returns (again: bool)
      requires Valid() && Paced()
      modifies this
      ensures Valid()
      ensures again <==> !(old(life) + dt < old(effectDuration)) && loop
      ensures old(life) + dt < old(effectDuration) ==>
        life == old(life) + dt && effectDuration == old(effectDuration) &&
        exists k: nat :: RefreshCount(old(Snapshot()), k, life) && Snapshot() == Lived(old(Snapshot()), k, life, dt)
      ensures !(old(life) + dt < old(effectDuration)) && !loop ==>
        Snapshot() == old(Snapshot()) && life == old(life) + dt && effectDuration == old(effectDuration)
      ensures !(old(life) + dt < old(effectDuration)) && loop && rate == 0.0 ==>
        life == 0.0 && effectDuration == old(effectDuration) &&
        particles == Generated(n, rate, orientations, anchor, velocity, 0.0, initVelocity) &&
        activeMap == ActiveIds(particles) && activePositions == ActivePositions(particles) &&
        activeOrientationIDs == ActiveOrientationIds(particles) && nextActivation == NextActivation(rate)
      ensures !(old(life) + dt < old(effectDuration)) && loop && rate != 0.0 ==>
        Snapshot() == old(Snapshot()) && life == old(life) + dt &&
        effectDuration == old(effectDuration) + old(life) + dt
    {
      life := life + dt;
      again := false;
      if life < effectDuration {
        LiveUpdate(dt);
      } else if loop {
        if rate == 0.0 {
          Restart();
        } else {
          effectDuration := effectDuration + life;
        }
        again := true;
      }
    }

    /** `update(dt)`: one pass, repeated while a looping effect is over;
        the repetition is bounded by `fuel`. A single pass is all there is
        while the effect lasts and for an effect that does not loop. */
    method Update(dt: real, fuel: nat)
      requires Valid() && Paced()
      modifies this
      ensures Valid()
      ensures old(life) + dt < old(effectDuration) ==>
        life == old(life) + dt && effectDuration == old(effectDuration) &&
        exists k: nat :: RefreshCount(old(Snapshot()), k, life) && Snapshot() == Lived(old(Snapshot()), k, life, dt)
      ensures !(old(life) + dt < old(effectDuration)) && !loop ==>
        Snapshot() == old(Snapshot()) && life == old(life) + dt && effectDuration == old(effectDuration)
      decreases fuel
    {
      var again := UpdateOnce(dt);
      if again && fuel > 0 {
        Update(dt, fuel - 1);
      }
    }

    /** The restart of a looping effect without a rate. */
    method Restart()
      requires Valid()
      modifies this
      ensures Valid()
      ensures life == 0.0
      ensures particles == Generated(n, rate, orientations, anchor, velocity, 0.0, initVelocity)
      ensures activeMap == ActiveIds(particles) && activePositions == ActivePositions(particles)
      ensures activeOrientationIDs == ActiveOrientationIds(particles)
      ensures nextActivation == NextActivation(rate) && effectDuration == old(effectDuration)
    {
      var ps := GenerateParticles(n, rate, orientations, anchor, velocity, 0.0, initVelocity);
      var ids := GetActiveMap(ps);
      var positions := GetActiveParticlePositions(ps);
      var orientationIDs := GetActiveParticleOrientationIDs(ps);
      ActiveLengths(ps);
      assert Fits(Ring(ps, ids, positions, orientationIDs, NextActivation(rate)));
      life, particles := 0.0, ps;
      activeMap, activePositions, activeOrientationIDs := ids, positions, orientationIDs;
      nextActivation := NextActivation(rate);
    }
  }

  /** `generateParticles`: n particles made in id order. */
  method GenerateParticles(n: nat, rate: real, orientations: nat, anchor: Vec3, velocity: Vec3, life: real,
                           initVelocity: nat -> Vec3) returns (vp: seq<Particle>)
    ensures vp == Generated(n, rate, orientations, anchor, velocity, life, initVelocity)
  {
    vp := [];
    var i := 0;
    while i < n
      invariant i <= n && vp == Generated(i, rate, orientations, anchor, velocity, life, initVelocity)
    {
      vp := vp + [MakeParticle(i, rate, orientations, anchor, velocity, life, initVelocity)];
      i := i + 1;
    }
  }

  /** `getActiveMap`: the ids of the active particles, scanning the pool
      in id order. */
  method GetActiveMap(ps: seq<Particle>) returns (ids: seq<nat>)
    ensures ids == ActiveIds(ps)
  {
    ids := [];
    var i := 0;
    while i < |ps|
      invariant i <= |ps| && ids == ActiveIds(ps[..i])
    {
      assert ps[..i + 1][..i] == ps[..i];
      if ps[i].active {
        ids := ids + [i];
      }
      i := i + 1;
    }
    assert ps[..i] == ps;
  }

  /** `getActiveParticlePositions`: their positions, by the same scan. */
  method GetActiveParticlePositions(ps: seq<Particle>) returns (positions: seq<Vec3>)
    ensures positions == ActivePositions(ps)
  {
    positions := [];
    var i := 0;
    while i < |ps|
      invariant i <= |ps| && positions == ActivePositions(ps[..i])
    {
      assert ps[..i + 1][..i] == ps[..i];
      if ps[i].active {
        positions := positions + [ps[i].position];
      }
      i := i + 1;
    }
    assert ps[..i] == ps;
  }

  /** `getActiveParticleOrientationIDs`: their orientation ids, by the
      same scan. */
  method GetActiveParticleOrientationIDs(ps: seq<Particle>) returns (orientationIDs: seq<nat>)
    ensures orientationIDs == ActiveOrientationIds(ps)
  {
    orientationIDs := [];
    var i := 0;
    while i < |ps|
      invariant i <= |ps| && orientationIDs == ActiveOrientationIds(ps[..i])
    {
      assert ps[..i + 1][..i] == ps[..i];
      if ps[i].active {
        orientationIDs := orientationIDs + [ps[i].orientationID];
      }
      i := i + 1;
    }
    assert ps[..i] == ps;
  }
}
