/**
 The fixed-window rate limiter `_check_rate_limit`: INCR, and EXPIRE in a step of its own for the
 request that found the counter absent. One Redis key; times count Redis's clock units.

 A request that dies between the two commands is a run in which its EXPIRE never comes.
 */
module RateLimiter {
  import opened Wrappers

  datatype Config = Config(max: int, window: int)

  ghost predicate ValidConfig(c: Config) {
    c.window > 0
  }

  /** The key: its count and, once EXPIRE ran, the time it vanishes. */
  datatype Slot = Absent | Counter(count: int, deadline: Option<int>)

  /** An INCR that answered at most `max`, and the counter lifetime it fell in. */
  datatype Grant = Grant(at: int, life: nat)

  /** `starts[k]` is when the `k`-th counter was created; `expiring` waits to send EXPIRE. */
  datatype State = State(now: int, slot: Slot, expiring: set<nat>, starts: seq<int>, grants: seq<Grant>)

  datatype Step = Tick(to: int) | Incr(pid: nat) | Expire(pid: nat)

  /** What Redis shows of the key now. */
  function Visible(s: State): Slot {
    if s.slot.Counter? && s.slot.deadline.Some? && s.now >= s.slot.deadline.value then Absent else s.slot
  }

  /** The INCR reply. */
  function Reply(s: State): int {
    match Visible(s) case Absent => 1 case Counter(count, _) => count + 1
  }

  function Next(c: Config, s: State, step: Step): Option<State> {
    match step
    case Tick(to) => if to < s.now then None else Some(s.(now := to))
    case Incr(pid) =>
      if pid in s.expiring then None
      else
        var created := Visible(s).Absent?;
        var starts := if created then s.starts + [s.now] else s.starts;
        Some(State(s.now,
                   if created then Counter(1, None) else s.slot.(count := s.slot.count + 1),
                   if Reply(s) == 1 then s.expiring + {pid} else s.expiring,
                   starts,
                   if Reply(s) <= c.max && |starts| > 0 then s.grants + [Grant(s.now, |starts| - 1)] else s.grants))
    case Expire(pid) =>
      if pid !in s.expiring then None
      else
        Some(s.(expiring := s.expiring - {pid},
                slot := if Visible(s).Absent? then Absent else s.slot.(deadline := Some(s.now + c.window))))
  }

  datatype Run = Start(now: int) | Then(before: Run, step: Step)

  function Exec(c: Config, run: Run): Option<State> {
    match run
    case Start(now) => Some(State(now, Absent, {}, [], []))
    case Then(before, step) => (match Exec(c, before) case None => None case Some(s) => Next(c, s, step))
  }

  // ---- Lifetimes ----

  function CountLife(gs: seq<Grant>, life: nat): nat {
    if gs == [] then 0
    else CountLife(gs[..|gs| - 1], life) + if gs[|gs| - 1].life == life then 1 else 0
  }

  function AtMost(max: int): nat {
    if max < 0 then 0 else max
  }

  /** Counter lifetimes do not overlap and last at least one window. */
  ghost predicate Spaced(starts: seq<int>, window: int) {
    forall i, j :: 0 <= i < j < |starts| ==> starts[i] + window <= starts[j]
  }

  ghost predicate SlotInv(c: Config, s: State) {
    match s.slot
    case Absent => s.expiring == {} && s.starts == []
    case Counter(count, deadline) =>
      && count >= 1 && |s.starts| > 0 && s.starts[|s.starts| - 1] <= s.now
      && (deadline.Some? ==> s.expiring == {} && s.starts[|s.starts| - 1] + c.window <= deadline.value)
      && (deadline.None? ==> |s.expiring| == 1)
      && CountLife(s.grants, |s.starts| - 1) == if count <= c.max then count else AtMost(c.max)
  }

  /** A grant lies inside its lifetime: not before it starts, and not after the next one does. */
  ghost predicate InPlace(g: Grant, starts: seq<int>) {
    && g.life < |starts| && starts[g.life] <= g.at
    && forall k :: g.life < k < |starts| ==> g.at <= starts[k]
  }

  ghost predicate GrantsInv(gs: seq<Grant>, starts: seq<int>, now: int, max: int) {
    && (forall i :: 0 <= i < |gs| ==> InPlace(gs[i], starts) && gs[i].at <= now)
    && (forall life :: CountLife(gs, life) <= AtMost(max))
  }

  ghost predicate Inv(c: Config, s: State) {
    Spaced(s.starts, c.window) && SlotInv(c, s) && GrantsInv(s.grants, s.starts, s.now, c.max)
  }

  lemma CountLifeAppend(gs: seq<Grant>, g: Grant, life: nat)
    ensures CountLife(gs + [g], life) == CountLife(gs, life) + if g.life == life then 1 else 0
  {
    assert (gs + [g])[..|gs|] == gs;
  }

  lemma {:induction false} CountLifeNone(gs: seq<Grant>, life: nat)
    requires forall i :: 0 <= i < |gs| ==> gs[i].life != life
    ensures CountLife(gs, life) == 0
  {
    if gs != [] {
      CountLifeNone(gs[..|gs| - 1], life);
    }
  }

  lemma OneMoreGrant(gs: seq<Grant>, g: Grant, starts: seq<int>, now: int, max: int)
    requires GrantsInv(gs, starts, now, max) && InPlace(g, starts) && g.at <= now
    requires CountLife(gs, g.life) < AtMost(max)
    ensures GrantsInv(gs + [g], starts, now, max)
    ensures CountLife(gs + [g], g.life) == CountLife(gs, g.life) + 1
  {
    forall life ensures CountLife(gs + [g], life) <= AtMost(max) {
      CountLifeAppend(gs, g, life);
    }
    CountLifeAppend(gs, g, g.life);
  }

  lemma OneMoreStart(gs: seq<Grant>, starts: seq<int>, now: int, max: int)
    requires GrantsInv(gs, starts, now, max)
    ensures GrantsInv(gs, starts + [now], now, max) && CountLife(gs, |starts|) == 0
  {
    forall i | 0 <= i < |gs| ensures InPlace(gs[i], starts + [now]) && gs[i].life != |starts| {
      assert InPlace(gs[i], starts);
    }
    CountLifeNone(gs, |starts|);
  }

  lemma SpacedPush(starts: seq<int>, now: int, window: int)
    requires window > 0 && Spaced(starts, window)
    requires |starts| > 0 ==> starts[|starts| - 1] + window <= now
    ensures Spaced(starts + [now], window)
  {
    forall i | 0 <= i < |starts| ensures starts[i] + window <= now {
      assert i < |starts| - 1 ==> starts[i] + window <= starts[|starts| - 1];
    }
  }

  lemma NewLife(c: Config, s: State, pid: nat)
    requires ValidConfig(c) && Inv(c, s) && pid !in s.expiring && Visible(s).Absent?
    ensures Inv(c, Next(c, s, Incr(pid)).value)
  {
    var starts := s.starts + [s.now];
    SpacedPush(s.starts, s.now, c.window);
    OneMoreStart(s.grants, s.starts, s.now, c.max);
    if 1 <= c.max {
      OneMoreGrant(s.grants, Grant(s.now, |s.starts|), starts, s.now, c.max);
    }
    assert s.expiring + {pid} == {pid};
  }

  lemma GrantNow(gs: seq<Grant>, starts: seq<int>, now: int, max: int)
    requires GrantsInv(gs, starts, now, max) && |starts| > 0 && starts[|starts| - 1] <= now
    requires CountLife(gs, |starts| - 1) < AtMost(max)
    ensures GrantsInv(gs + [Grant(now, |starts| - 1)], starts, now, max)
    ensures CountLife(gs + [Grant(now, |starts| - 1)], |starts| - 1) == CountLife(gs, |starts| - 1) + 1
  {
    OneMoreGrant(gs, Grant(now, |starts| - 1), starts, now, max);
  }

  /** The counter goes on: one more INCR, granted or not, in the same lifetime. */
  lemma SlotGoesOn(c: Config, s: State, gs: seq<Grant>)
    requires SlotInv(c, s) && s.slot.Counter?
    requires var last := |s.starts| - 1;
             CountLife(gs, last) == CountLife(s.grants, last) + if s.slot.count < c.max then 1 else 0
    ensures SlotInv(c, s.(slot := s.slot.(count := s.slot.count + 1), grants := gs))
  {
  }

  lemma SameLife(c: Config, s: State, pid: nat)
    requires ValidConfig(c) && Inv(c, s) && pid !in s.expiring && Visible(s).Counter?
    ensures Inv(c, Next(c, s, Incr(pid)).value)
  {
    var g := Grant(s.now, |s.starts| - 1);
    if s.slot.count < c.max {
      GrantNow(s.grants, s.starts, s.now, c.max);
      SlotGoesOn(c, s, s.grants + [g]);
      assert Next(c, s, Incr(pid)).value == s.(slot := s.slot.(count := s.slot.count + 1), grants := s.grants + [g]);
    } else {
      SlotGoesOn(c, s, s.grants);
      assert Next(c, s, Incr(pid)).value == s.(slot := s.slot.(count := s.slot.count + 1));
    }
  }

  lemma ExpireKeepsInv(c: Config, s: State, pid: nat)
    requires ValidConfig(c) && Inv(c, s) && pid in s.expiring
    ensures Inv(c, Next(c, s, Expire(pid)).value)
    ensures Next(c, s, Expire(pid)).value.slot == s.slot.(deadline := Some(s.now + c.window))
  {
    assert |s.expiring - {pid}| == 0;
  }

  lemma {:induction false} RunInv(c: Config, run: Run)
    requires ValidConfig(c) && Exec(c, run).Some?
    ensures Inv(c, Exec(c, run).value)
  {
    match run
    case Start(_) =>
    case Then(before, step) =>
      RunInv(c, before);
      var s := Exec(c, before).value;
      match step
      case Tick(_) =>
      case Incr(pid) => if Visible(s).Absent? { NewLife(c, s, pid); } else { SameLife(c, s, pid); }
      case Expire(pid) => ExpireKeepsInv(c, s, pid);
  }

  // ---- The sliding-window bound ----

  /** Grants in the half-open interval `[from, from + length)`. */
  function CountWindow(gs: seq<Grant>, from: int, length: int): nat {
    if gs == [] then 0
    else CountWindow(gs[..|gs| - 1], from, length) + if from <= gs[|gs| - 1].at < from + length then 1 else 0
  }

  lemma {:induction false} WindowInTwoLives(gs: seq<Grant>, from: int, length: int, life: nat)
    requires forall i :: 0 <= i < |gs| && from <= gs[i].at < from + length ==>
               gs[i].life == life || gs[i].life == life + 1
    ensures CountWindow(gs, from, length) <= CountLife(gs, life) + CountLife(gs, life + 1)
  {
    if gs != [] {
      WindowInTwoLives(gs[..|gs| - 1], from, length, life);
    }
  }

  /** The earliest lifetime with a grant in the window, or any when there is none. */
  lemma {:induction false} FirstLife(gs: seq<Grant>, from: int, length: int) returns (life: nat)
    ensures forall i :: 0 <= i < |gs| && from <= gs[i].at < from + length ==> life <= gs[i].life
    ensures CountWindow(gs, from, length) > 0 ==>
              exists i :: 0 <= i < |gs| && from <= gs[i].at < from + length && gs[i].life == life
  {
    if gs == [] {
      life := 0;
    } else {
      var init, last := gs[..|gs| - 1], gs[|gs| - 1];
      life := FirstLife(init, from, length);
      if from <= last.at < from + length && (CountWindow(init, from, length) == 0 || last.life < life) {
        if CountWindow(init, from, length) == 0 {
          NoneInWindow(init, from, length);
        }
        life := last.life;
      } else if CountWindow(init, from, length) > 0 {
        var i :| 0 <= i < |init| && from <= init[i].at < from + length && init[i].life == life;
        assert gs[i] == init[i];
      }
    }
  }

  lemma {:induction false} NoneInWindow(gs: seq<Grant>, from: int, length: int)
    requires CountWindow(gs, from, length) == 0
    ensures forall i :: 0 <= i < |gs| ==> !(from <= gs[i].at < from + length)
  {
    if gs != [] {
      NoneInWindow(gs[..|gs| - 1], from, length);
    }
  }

  /** Two grants less than one window apart belong to the same lifetime or to neighbours. */
  lemma CloseGrants(g: Grant, h: Grant, starts: seq<int>, window: int)
    requires window > 0 && Spaced(starts, window) && InPlace(g, starts) && InPlace(h, starts)
    requires g.life <= h.life && h.at < g.at + window
    ensures h.life <= g.life + 1
  {
    if g.life + 1 < |starts| {
      assert g.at <= starts[g.life + 1];
    }
  }

  /**
   Whatever the request timing, and however late the EXPIREs come, any half-open interval as long as
   the window contains at most twice `max` granted requests.
   */
  lemma AtMostTwicePerWindow(c: Config, run: Run, from: int)
    requires ValidConfig(c) && Exec(c, run).Some?
    ensures CountWindow(Exec(c, run).value.grants, from, c.window) <= 2 * AtMost(c.max)
  {
    RunInv(c, run);
    var s := Exec(c, run).value;
    var gs := s.grants;
    var life := FirstLife(gs, from, c.window);
    if CountWindow(gs, from, c.window) > 0 {
      var i :| 0 <= i < |gs| && from <= gs[i].at < from + c.window && gs[i].life == life;
      forall j | 0 <= j < |gs| && from <= gs[j].at < from + c.window
        ensures gs[j].life == life || gs[j].life == life + 1
      {
        CloseGrants(gs[i], gs[j], s.starts, c.window);
      }
      WindowInTwoLives(gs, from, c.window, life);
    }
  }

  /** No counter lifetime ever grants more than `max` requests. */
  lemma AtMostMaxPerLifetime(c: Config, run: Run, life: nat)
    requires ValidConfig(c) && Exec(c, run).Some?
    ensures CountLife(Exec(c, run).value.grants, life) <= AtMost(c.max)
  {
    RunInv(c, run);
  }

  // ---- What a lost EXPIRE does ----

  predicate SendsExpire(step: Step) {
    step.Expire?
  }

  /** Everything after `start` in the run, none of it an EXPIRE. */
  ghost predicate ContinuesWithoutExpire(run: Run, start: Run) {
    run == start || (run.Then? && !SendsExpire(run.step) && ContinuesWithoutExpire(run.before, start))
  }

  /** An exhausted counter whose EXPIRE never comes grants nothing ever again. */
  lemma {:induction false} WithoutExpireLockedForever(c: Config, start: Run, run: Run)
    requires ValidConfig(c) && Exec(c, start).Some? && Exec(c, run).Some?
    requires var s := Exec(c, start).value; s.slot.Counter? && s.slot.deadline.None? && s.slot.count >= c.max
    requires ContinuesWithoutExpire(run, start)
    ensures var s, s' := Exec(c, start).value, Exec(c, run).value;
            s'.grants == s.grants && s'.slot.Counter? && s'.slot.deadline.None? && s'.slot.count >= c.max
  {
    if run != start {
      WithoutExpireLockedForever(c, start, run.before);
    }
  }

  /** Everything after `start` in the run, whatever its steps. */
  ghost predicate Continues(run: Run, start: Run) {
    run == start || (run.Then? && Continues(run.before, start))
  }

  lemma {:induction false} RanBefore(c: Config, start: Run, run: Run)
    requires Continues(run, start) && Exec(c, run).Some?
    ensures Exec(c, start).Some? && Exec(c, start).value.starts <= Exec(c, run).value.starts
  {
    if run != start {
      RanBefore(c, start, run.before);
    }
  }

  /** A counter with a deadline has been sent its EXPIRE. */
  lemma NoneExpiring(c: Config, run: Run)
    requires ValidConfig(c) && Exec(c, run).Some? && Exec(c, run).value.slot.Counter?
    requires Exec(c, run).value.slot.deadline.Some?
    ensures Exec(c, run).value.expiring == {}
  {
    RunInv(c, run);
  }

  lemma StepLeavesDeadline(c: Config, s: State, step: Step)
    requires Inv(c, s) && Next(c, s, step).Some? && s.slot.Counter? && s.slot.deadline.Some?
    requires |Next(c, s, step).value.starts| == |s.starts|
    ensures var s' := Next(c, s, step).value;
            s'.slot.Counter? && s'.slot.deadline == s.slot.deadline && s'.slot.count >= s.slot.count
  {
  }

  /**
   As long as no new counter is created, nothing that happens moves the deadline of a counter, and no
   EXPIRE is outstanding: there is none to send, for denied requests least of all.
   */
  lemma {:induction false} DeniedNeverExtend(c: Config, start: Run, run: Run)
    requires ValidConfig(c) && Continues(run, start) && Exec(c, run).Some? && Exec(c, start).Some?
    requires Exec(c, start).value.slot.Counter? && Exec(c, start).value.slot.deadline.Some?
    requires |Exec(c, run).value.starts| == |Exec(c, start).value.starts|
    ensures var s, s' := Exec(c, start).value, Exec(c, run).value;
            && s'.slot.Counter? && s'.slot.deadline == s.slot.deadline && s'.expiring == {}
            && s'.slot.count >= s.slot.count
  {
    if run != start {
      RanBefore(c, start, run.before);
      DeniedNeverExtend(c, start, run.before);
      RunInv(c, run.before);
      StepLeavesDeadline(c, Exec(c, run.before).value, run.step);
    }
    NoneExpiring(c, run);
  }

  /** Until its deadline a counter is not replaced, so all of that holds up to then, whoever calls. */
  lemma {:induction false} NoNewCounterBeforeDeadline(c: Config, start: Run, run: Run)
    requires ValidConfig(c) && Continues(run, start) && Exec(c, run).Some? && Exec(c, start).Some?
    requires Exec(c, start).value.slot.Counter? && Exec(c, start).value.slot.deadline.Some?
    requires Exec(c, run).value.now < Exec(c, start).value.slot.deadline.value
    ensures Exec(c, run).value.starts == Exec(c, start).value.starts
  {
    if run != start {
      RanBefore(c, start, run.before);
      NoNewCounterBeforeDeadline(c, start, run.before);
      DeniedNeverExtend(c, start, run.before);
    }
  }

  /** Once EXPIRE has run, one window later the next request is granted, whatever was denied meanwhile. */
  lemma ExpireReopens(c: Config, start: Run, run: Run, pid: nat, other: nat)
    requires ValidConfig(c) && c.max >= 1 && Exec(c, Then(start, Expire(pid))).Some?
    requires Continues(run, Then(start, Expire(pid))) && Exec(c, run).Some?
    requires Exec(c, run).value.now >= Exec(c, start).value.now + c.window
    requires |Exec(c, run).value.starts| == |Exec(c, start).value.starts|
    ensures var s := Exec(c, run).value;
            && Exec(c, Then(run, Incr(other))).Some?
            && Exec(c, Then(run, Incr(other))).value.grants == s.grants + [Grant(s.now, |s.starts|)]
  {
    RunInv(c, start);
    ExpireKeepsInv(c, Exec(c, start).value, pid);
    DeniedNeverExtend(c, Then(start, Expire(pid)), run);
    assert Visible(Exec(c, run).value) == Absent;
  }

  // ---- The coroutine, run without interruption ----

  class RateLimiter {
    var now: int
    var store: map<string, Slot>

    constructor (now: int)
      ensures this.now == now && store == map[]
    {
      this.now, store := now, map[];
    }

    /** The slot of `key` as Redis shows it now. */
    function Live(key: string): Slot
      reads this
    {
      if key in store then Visible(State(now, store[key], {}, [], [])) else Absent
    }

    /** `available` is false when there is no Redis at all. */
    method CheckRateLimit(available: bool, key: string, max: int, window: int) returns (allowed: bool)
      modifies `store
      ensures !available ==> allowed && store == old(store)
      ensures available ==> forall k :: k != key ==> old(Live(k)) == Live(k)
      ensures available && old(Live(key)).Absent? ==>
                Live(key) == (if window > 0 then Counter(1, Some(now + window)) else Absent) && (allowed <==> 1 <= max)
      ensures available && old(Live(key)).Counter? && old(Live(key)).count >= 1 ==>
                && Live(key) == old(Live(key)).(count := old(Live(key)).count + 1)
                && (allowed <==> old(Live(key)).count < max)
    {
      if !available {
        return true;
      }
      var live := Live(key);
      var slot := if live.Absent? then Counter(1, None) else live.(count := live.count + 1);
      var current := slot.count;
      if current == 1 {
        slot := slot.(deadline := Some(now + window));
      }
      store := store[key := slot];
      allowed := current <= max;
    }
  }
}
