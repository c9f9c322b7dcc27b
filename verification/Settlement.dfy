/** The settlement-objective list of `SharedWorkingState`: replace, read, assign an owner, advance. */
module Settlement {
  import opened Wrappers
  import opened PyText
  import opened Ordering

  const MAX_SETTLEMENT_OBJECTIVES := 12
  const DEFAULT_COMPLETE_RATIO := 0.8

  datatype Status =
    | Pending | InProgress | Blocked | OwnerCapReached | Cooldown | Stale | Completed | Failed | Abandoned

  /** The status of that name; any other name means pending. */
  function StatusNamed(name: string): (status: Status)
    ensures status == InProgress <==> name == "in_progress"
    ensures status == Blocked <==> name == "blocked"
    ensures status == OwnerCapReached <==> name == "owner_cap_reached"
    ensures status == Cooldown <==> name == "cooldown"
    ensures status == Stale <==> name == "stale"
    ensures status == Completed <==> name == "completed"
    ensures status == Failed <==> name == "failed"
    ensures status == Abandoned <==> name == "abandoned"
  {
    if name == "in_progress" then InProgress
    else if name == "blocked" then Blocked
    else if name == "owner_cap_reached" then OwnerCapReached
    else if name == "cooldown" then Cooldown
    else if name == "stale" then Stale
    else if name == "completed" then Completed
    else if name == "failed" then Failed
    else if name == "abandoned" then Abandoned
    else Pending
  }

  /** `_normalize_objective_status`: how a status text is read. */
  function ParseStatus(text: string): Status {
    StatusNamed(Slug(text))
  }

  /** A name as it is written is read as the status of that name. */
  lemma NameIsRead(name: string)
    requires IsSlug(name)
    ensures ParseStatus(name) == StatusNamed(name)
  {
    SlugStays(name);
  }

  datatype Objective = Objective(
    id: string, phase: int, status: Status, owner: Option<string>, previousOwners: seq<string>,
    reassignReason: Option<string>, startedAt: Option<real>, ownerStartedAtMs: Option<int>,
    planId: Option<string>, intended: int, verified: int, ratio: real, completedAt: Option<real>,
    evidence: map<string, string>)

  /** The bar of `MC_SIM_SETTLEMENT_COMPLETE_RATIO`; `None` stands for unset or not a number. */
  function CompleteRatio(configured: Option<real>): (bar: real)
    ensures bar > 0.0 && (bar == 0.8 || configured == Some(bar))
    ensures configured.Some? && configured.value > 0.0 ==> bar == configured.value
  {
    if configured.Some? && configured.value > 0.0 then configured.value else DEFAULT_COMPLETE_RATIO
  }

  function AtLeastZero(n: int): nat {
    if n < 0 then 0 else n
  }

  function Unit(r: real): real {
    if r > 1.0 then 1.0 else if r < 0.0 then 0.0 else r
  }

  function Normalize(o: Objective): Objective {
    o.(phase := AtLeastZero(o.phase), intended := AtLeastZero(o.intended), verified := AtLeastZero(o.verified),
       ratio := Unit(o.ratio))
  }

  /** Numbers in range are kept, others brought to its nearer end, and nothing else changes. */
  lemma NormalizedSays(o: Objective)
    ensures var n := Normalize(o);
            && n == o.(phase := n.phase, intended := n.intended, verified := n.verified, ratio := n.ratio)
            && n.phase == (if o.phase >= 0 then o.phase else 0)
            && n.intended == (if o.intended >= 0 then o.intended else 0)
            && n.verified == (if o.verified >= 0 then o.verified else 0)
            && 0.0 <= n.ratio <= 1.0 && (0.0 <= o.ratio <= 1.0 ==> n.ratio == o.ratio)
            && (o.ratio > 1.0 ==> n.ratio == 1.0) && (o.ratio < 0.0 ==> n.ratio == 0.0)
  {
  }

  predicate Before(a: Objective, b: Objective) {
    a.phase < b.phase || (a.phase == b.phase && StringLe(a.id, b.id))
  }

  lemma BeforeIsTotal()
    ensures TotalPreorder(Before)
  {
    forall a, b ensures Before(a, b) || Before(b, a) {
      StringLeTotal(a.id, b.id);
    }
    forall a, b, c | Before(a, b) && Before(b, c) ensures Before(a, c) {
      if a.phase == b.phase == c.phase {
        StringLeTransitive(a.id, b.id, c.id);
      }
    }
  }

  // ---- What the store holds and what the operations make of it ----

  function NormalizeAll(os: seq<Objective>): (r: seq<Objective>)
    ensures |r| == |os| && forall i :: 0 <= i < |os| ==> r[i] == Normalize(os[i])
  {
    seq(|os|, i requires 0 <= i < |os| => Normalize(os[i]))
  }

  function FirstTwelve(os: seq<Objective>): (first: seq<Objective>)
    ensures first <= os && |first| == if |os| < 12 then |os| else 12
  {
    if |os| > MAX_SETTLEMENT_OBJECTIVES then os[..MAX_SETTLEMENT_OBJECTIVES] else os
  }

  /** `set_settlement_objectives`: what it stores for the list it is given. */
  function Stored(os: seq<Objective>): seq<Objective> {
    NormalizeAll(SortBy(FirstTwelve(os), Before))
  }

  function Named(os: seq<Objective>): (r: seq<Objective>)
    ensures |r| <= |os|
  {
    if os == [] then [] else (if os[0].id != "" then [os[0]] else []) + Named(os[1..])
  }

  /** `get_settlement_objectives`: what a reader sees of the store. */
  function Read(store: seq<Objective>): seq<Objective> {
    SortBy(Named(store), Before)
  }

  function Find(os: seq<Objective>, id: string): (r: Option<nat>)
    ensures r.None? ==> forall i :: 0 <= i < |os| ==> os[i].id != id
    ensures r.Some? ==> r.value < |os| && os[r.value].id == id && forall i :: 0 <= i < r.value ==> os[i].id != id
  {
    if os == [] then None
    else if os[0].id == id then Some(0)
    else match Find(os[1..], id) case None => None case Some(i) => Some(i + 1)
  }

  datatype Op =
    | Assign(id: string, newOwner: string, reason: Option<string>, ownerStartedAtMs: Option<int>)
    | Advance(id: string, status: Status, planId: Option<string>, intended: Option<int>, verified: Option<int>,
              ratio: Option<real>, evidence: map<string, string>)

  function Assigned(o: Objective, op: Op, now: real): Objective
    requires op.Assign?
  {
    var owner := Lower(Strip(op.newOwner));
    o.(previousOwners := if Truthy(o.owner) && o.owner.value != owner then o.previousOwners + [o.owner.value]
                         else o.previousOwners,
       owner := Some(owner), status := InProgress, reassignReason := op.reason,
       startedAt := if o.startedAt.Some? && o.startedAt.value != 0.0 then o.startedAt else Some(now),
       ownerStartedAtMs := op.ownerStartedAtMs)
  }

  function Advanced(o: Objective, op: Op, bar: real, now: real): Objective
    requires op.Advance?
  {
    var ratio := if op.ratio.Some? then Unit(op.ratio.value) else o.ratio;
    var status := if ratio >= bar then Completed else op.status;
    o.(status := status,
       planId := if Truthy(op.planId) then op.planId else o.planId,
       intended := if op.intended.Some? then AtLeastZero(op.intended.value) else o.intended,
       verified := if op.verified.Some? then AtLeastZero(op.verified.value) else o.verified,
       ratio := ratio,
       evidence := o.evidence + op.evidence,
       completedAt := if status == Completed then Some(now) else o.completedAt)
  }

  /** An assignment: the new owner, the one before on record, in progress, and the rest as it was. */
  lemma AssignedSays(o: Objective, owner: string, reason: Option<string>, startedAtMs: Option<int>, now: real)
    requires IsSlug(owner)
    ensures var a := Assigned(o, Assign(o.id, owner, reason, startedAtMs), now);
            && a.owner == Some(owner) && a.status == InProgress
            && a.reassignReason == reason && a.ownerStartedAtMs == startedAtMs
            && a.previousOwners
               == o.previousOwners
                  + (if o.owner.Some? && o.owner.value != "" && o.owner.value != owner then [o.owner.value] else [])
            && (o.startedAt.Some? && o.startedAt.value != 0.0 ==> a.startedAt == o.startedAt)
            && (o.startedAt.None? || o.startedAt.value == 0.0 ==> a.startedAt == Some(now))
            && (a.id, a.phase, a.planId, a.intended, a.verified, a.ratio, a.completedAt, a.evidence)
               == (o.id, o.phase, o.planId, o.intended, o.verified, o.ratio, o.completedAt, o.evidence)
  {
    SlugStays(owner);
  }

  /** An advance: what it brings is stored, what it leaves out stays, and at the bar it is completed. */
  lemma AdvancedSays(o: Objective, op: Op, bar: real, now: real)
    requires op.Advance?
    ensures var a := Advanced(o, op, bar, now);
            && (op.ratio.None? ==> a.ratio == o.ratio)
            && (op.ratio.Some? && 0.0 <= op.ratio.value <= 1.0 ==> a.ratio == op.ratio.value)
            && (op.ratio.Some? && op.ratio.value > 1.0 ==> a.ratio == 1.0)
            && (op.ratio.Some? && op.ratio.value < 0.0 ==> a.ratio == 0.0)
            && (a.ratio >= bar ==> a.status == Completed) && (a.ratio < bar ==> a.status == op.status)
            && a.completedAt == (if a.status == Completed then Some(now) else o.completedAt)
            && (op.planId.Some? && op.planId.value != "" ==> a.planId == op.planId)
            && (op.planId.None? || op.planId.value == "" ==> a.planId == o.planId)
            && (op.intended.Some? && op.intended.value >= 0 ==> a.intended == op.intended.value)
            && (op.intended.Some? && op.intended.value < 0 ==> a.intended == 0)
            && (op.intended.None? ==> a.intended == o.intended)
            && (op.verified.Some? && op.verified.value >= 0 ==> a.verified == op.verified.value)
            && (op.verified.Some? && op.verified.value < 0 ==> a.verified == 0)
            && (op.verified.None? ==> a.verified == o.verified)
    ensures var a := Advanced(o, op, bar, now);
            && (forall k :: k in op.evidence ==> k in a.evidence && a.evidence[k] == op.evidence[k])
            && (forall k :: k in o.evidence && k !in op.evidence ==> k in a.evidence && a.evidence[k] == o.evidence[k])
            && (forall k :: k in a.evidence ==> k in o.evidence || k in op.evidence)
            && (a.id, a.phase, a.owner, a.previousOwners, a.reassignReason, a.startedAt, a.ownerStartedAtMs)
               == (o.id, o.phase, o.owner, o.previousOwners, o.reassignReason, o.startedAt, o.ownerStartedAtMs)
  {
  }

  /** A completed objective refuses a new owner, and every advance but one to completed. */
  predicate Refused(o: Objective, op: Op) {
    o.status == Completed && (op.Assign? || op.status != Completed)
  }

  function Changed(o: Objective, op: Op, bar: real, now: real): Objective {
    if op.Assign? then Assigned(o, op, now) else Advanced(o, op, bar, now)
  }

  function Step(store: seq<Objective>, op: Op, bar: real, now: real): seq<Objective> {
    var os := Read(store);
    match Find(os, op.id)
    case None => store
    case Some(i) => if Refused(os[i], op) then store else Stored(os[i := Changed(os[i], op, bar, now)])
  }

  // ---- The invariant ----

  ghost predicate Clean(o: Objective) {
    && o.id != "" && o.phase >= 0 && o.intended >= 0 && o.verified >= 0 && 0.0 <= o.ratio <= 1.0
    && Normalize(o) == o
  }

  ghost predicate Latched(o: Objective, bar: real) {
    o.ratio >= bar ==> o.status == Completed
  }

  /** By phase, and by name within a phase. */
  ghost predicate InOrder(store: seq<Objective>) {
    forall i, j :: 0 <= i < j < |store| ==>
      store[i].phase < store[j].phase || (store[i].phase == store[j].phase && StringLe(store[i].id, store[j].id))
  }

  /** Bounded, in order and clean. */
  ghost predicate Tidy(store: seq<Objective>) {
    && |store| <= 12
    && Sorted(store, Before) && InOrder(store)
    && forall i :: 0 <= i < |store| ==> Clean(store[i])
  }

  ghost predicate Good(store: seq<Objective>, bar: real) {
    Tidy(store) && forall i :: 0 <= i < |store| ==> Latched(store[i], bar)
  }

  /** One entry may differ, the list and its order may not. */
  ghost predicate OnlyAddressed(store: seq<Objective>, store': seq<Objective>, id: string) {
    && |store'| == |store|
    && (forall i :: 0 <= i < |store| ==> store'[i].id == store[i].id && store'[i].phase == store[i].phase)
    && (forall i :: 0 <= i < |store| && store'[i] != store[i] ==>
          store[i].id == id && forall j :: 0 <= j < i ==> store[j].id != id)
  }

  ghost predicate CompletedStays(store: seq<Objective>, store': seq<Objective>)
    requires |store| == |store'|
  {
    forall i :: 0 <= i < |store| && store[i].status == Completed ==> store'[i].status == Completed
  }

  /** No objective loses the latch. */
  ghost predicate LatchStays(store: seq<Objective>, store': seq<Objective>, bar: real)
    requires |store| == |store'|
  {
    forall i :: 0 <= i < |store| && Latched(store[i], bar) ==> Latched(store'[i], bar)
  }

  lemma {:induction false} NamedOfNamed(os: seq<Objective>)
    requires forall i :: 0 <= i < |os| ==> os[i].id != ""
    ensures Named(os) == os
  {
    if os != [] {
      NamedOfNamed(os[1..]);
      assert os == [os[0]] + os[1..];
    }
  }

  lemma ReadOfTidy(store: seq<Objective>)
    requires Tidy(store)
    ensures Read(store) == store
  {
    forall i | 0 <= i < |store| ensures store[i].id != "" {
      assert Clean(store[i]);
    }
    NamedOfNamed(store);
    SortOfSorted(store, Before);
  }

  /** Replacing one entry by a clean one with the same key stores exactly that. */
  lemma StoredOfReplaced(store: seq<Objective>, i: nat, o: Objective)
    requires Tidy(store) && i < |store|
    requires Normalize(o) == o && o.id == store[i].id && o.phase == store[i].phase
    ensures Stored(store[i := o]) == store[i := o]
  {
    var os := store[i := o];
    forall j, k | 0 <= j < k < |os| ensures Before(os[j], os[k]) {
      assert Before(store[j], store[k]);
    }
    SortOfSorted(os, Before);
    forall j | 0 <= j < |os| ensures Normalize(os[j]) == os[j] {
      assert j != i ==> Clean(store[j]);
    }
    assert NormalizeAll(os) == os;
  }

  /** An advance latches its objective, an assignment keeps the latch. */
  lemma ChangedIsClean(o: Objective, op: Op, bar: real, now: real)
    requires Clean(o) && !Refused(o, op)
    ensures var o' := Changed(o, op, bar, now);
            && Clean(o') && o'.id == o.id && o'.phase == o.phase
            && (o.status == Completed ==> o'.status == Completed)
            && (op.Advance? || Latched(o, bar) ==> Latched(o', bar))
  {
  }

  /** On a tidy store an operation is refused, finds nothing, or rewrites the first entry of that id in place. */
  lemma StepInPlace(store: seq<Objective>, op: Op, bar: real, now: real)
    requires Tidy(store)
    ensures var found := Find(store, op.id);
            Step(store, op, bar, now)
            == if found.None? || Refused(store[found.value], op) then store
               else store[found.value := Changed(store[found.value], op, bar, now)]
  {
    ReadOfTidy(store);
    var found := Find(store, op.id);
    if found.Some? && !Refused(store[found.value], op) {
      assert Clean(store[found.value]);
      ChangedIsClean(store[found.value], op, bar, now);
      StoredOfReplaced(store, found.value, Changed(store[found.value], op, bar, now));
    }
  }

  lemma ReplacedIsTidy(store: seq<Objective>, store': seq<Objective>, bar: real, id: string, i: nat, o: Objective)
    requires Tidy(store) && i < |store| && store' == store[i := o]
    requires store[i].id == id && forall j :: 0 <= j < i ==> store[j].id != id
    requires Clean(o) && (Latched(store[i], bar) ==> Latched(o, bar)) && o.id == id && o.phase == store[i].phase
    requires store[i].status == Completed ==> o.status == Completed
    ensures Tidy(store') && OnlyAddressed(store, store', id) && CompletedStays(store, store')
    ensures LatchStays(store, store', bar)
  {
    forall j, k | 0 <= j < k < |store'| ensures Before(store'[j], store'[k]) {
      assert Before(store[j], store[k]);
    }
  }

  /**
   Every assign and every advance keeps the list sorted, bounded and clean, touches no objective but the
   first with the addressed id, and takes none out of completed or out of the latch.
   */
  lemma StepKeepsTidy(store: seq<Objective>, op: Op, bar: real, now: real)
    requires Tidy(store)
    ensures Tidy(Step(store, op, bar, now)) && OnlyAddressed(store, Step(store, op, bar, now), op.id)
    ensures CompletedStays(store, Step(store, op, bar, now)) && LatchStays(store, Step(store, op, bar, now), bar)
  {
    StepInPlace(store, op, bar, now);
    var store' := Step(store, op, bar, now);
    var found := Find(store, op.id);
    if found.Some? && !Refused(store[found.value], op) {
      var i := found.value;
      assert Clean(store[i]);
      ChangedIsClean(store[i], op, bar, now);
      ReplacedIsTidy(store, store', bar, op.id, i, Changed(store[i], op, bar, now));
    }
  }

  /** A list that is latched throughout stays so. */
  lemma StepKeepsGood(store: seq<Objective>, op: Op, bar: real, now: real)
    requires Good(store, bar)
    ensures Good(Step(store, op, bar, now), bar)
  {
    StepKeepsTidy(store, op, bar, now);
  }

  function Run(store: seq<Objective>, ops: seq<(Op, real)>, bar: real): seq<Objective> {
    if ops == [] then store
    else var last := ops[|ops| - 1]; Step(Run(store, ops[..|ops| - 1], bar), last.0, bar, last.1)
  }

  /** What a run keeps: order, bound, latches and completion, and all that it does not address. */
  ghost predicate Kept(store: seq<Objective>, store': seq<Objective>, ops: seq<(Op, real)>, bar: real) {
    && Tidy(store') && |store'| == |store| && CompletedStays(store, store') && LatchStays(store, store', bar)
    && (forall i :: 0 <= i < |store| ==> store'[i].id == store[i].id && store'[i].phase == store[i].phase)
    && (forall i :: 0 <= i < |store| && (forall k :: 0 <= k < |ops| ==> ops[k].0.id != store[i].id) ==>
          store'[i] == store[i])
  }

  /** The same over any run with a fixed bar: completed is absorbing and untouched ids never move. */
  lemma {:induction false} RunKeepsTidy(store: seq<Objective>, ops: seq<(Op, real)>, bar: real)
    requires Tidy(store)
    ensures Kept(store, Run(store, ops, bar), ops, bar)
    decreases |ops|
  {
    if ops != [] {
      var init, last := ops[..|ops| - 1], ops[|ops| - 1];
      RunKeepsTidy(store, init, bar);
      StepKeepsTidy(Run(store, init, bar), last.0, bar, last.1);
    }
  }

  lemma RunKeepsGood(store: seq<Objective>, ops: seq<(Op, real)>, bar: real)
    requires Good(store, bar)
    ensures Good(Run(store, ops, bar), bar)
  {
    RunKeepsTidy(store, ops, bar);
  }

  // ---- From any list, through what readers see ----

  lemma {:induction false} NamedAre(os: seq<Objective>, o: Objective)
    ensures o in Named(os) <==> o in os && o.id != ""
  {
    if os != [] {
      NamedAre(os[1..], o);
      assert os == [os[0]] + os[1..];
    }
  }

  lemma SortedAre(os: seq<Objective>, o: Objective)
    ensures o in SortBy(os, Before) <==> o in os
  {
    SortByPermutes(os, Before);
    assert o in SortBy(os, Before) <==> o in multiset(SortBy(os, Before));
    assert o in os <==> o in multiset(os);
  }

  lemma ReadAre(store: seq<Objective>, o: Objective)
    ensures o in Read(store) <==> o in store && o.id != ""
  {
    NamedAre(store, o);
    SortedAre(Named(store), o);
  }

  /** What is stored are the normal forms of the first twelve. */
  lemma StoredAre(os: seq<Objective>, o: Objective)
    ensures o in Stored(os) ==> exists i :: 0 <= i < |FirstTwelve(os)| && o == Normalize(os[i])
    ensures forall i :: 0 <= i < |FirstTwelve(os)| ==> Normalize(os[i]) in Stored(os)
  {
    var sorted := SortBy(FirstTwelve(os), Before);
    SortByPermutes(FirstTwelve(os), Before);
    if o in Stored(os) {
      var k :| 0 <= k < |sorted| && Stored(os)[k] == o;
      SortedAre(FirstTwelve(os), sorted[k]);
      var i :| 0 <= i < |FirstTwelve(os)| && FirstTwelve(os)[i] == sorted[k];
      assert o == Normalize(os[i]);
    }
    forall i | 0 <= i < |FirstTwelve(os)| ensures Normalize(os[i]) in Stored(os) {
      assert FirstTwelve(os)[i] == os[i];
      SortedAre(FirstTwelve(os), os[i]);
      var k :| 0 <= k < |sorted| && sorted[k] == os[i];
      assert Stored(os)[k] == Normalize(os[i]);
    }
  }

  /** Whatever list is set, what readers then see is sorted, bounded and clean. */
  lemma StoredIsTidy(os: seq<Objective>)
    ensures Tidy(Read(Stored(os)))
  {
    var seen := Read(Stored(os));
    BeforeIsTotal();
    SortBySorts(Named(Stored(os)), Before);
    forall o | o in seen ensures Clean(o) {
      ReadAre(Stored(os), o);
      StoredAre(os, o);
    }
    SortByPermutes(FirstTwelve(os), Before);
    SortByPermutes(Named(Stored(os)), Before);
  }

  /** The objectives that `set` keeps and readers are shown satisfy the latch, once normalised. */
  ghost predicate LatchedFirst(os: seq<Objective>, bar: real) {
    forall i :: 0 <= i < |FirstTwelve(os)| && os[i].id != "" ==> Latched(Normalize(os[i]), bar)
  }

  /**
   Whatever list is set, what readers then see is sorted, bounded and clean; it is latched exactly when the
   first twelve are.
   */
  lemma StoredIsGood(os: seq<Objective>, bar: real)
    ensures Good(Read(Stored(os)), bar) <==> LatchedFirst(os, bar)
  {
    var seen := Read(Stored(os));
    StoredIsTidy(os);
    if LatchedFirst(os, bar) {
      forall i | 0 <= i < |seen| ensures Latched(seen[i], bar) {
        ReadAre(Stored(os), seen[i]);
        StoredAre(os, seen[i]);
      }
    }
    if Good(seen, bar) {
      forall i | 0 <= i < |FirstTwelve(os)| && os[i].id != "" ensures Latched(Normalize(os[i]), bar) {
        StoredAre(os, Normalize(os[i]));
        ReadAre(Stored(os), Normalize(os[i]));
        var k :| 0 <= k < |seen| && seen[k] == Normalize(os[i]);
      }
    }
  }

  lemma ReadOfStep(store: seq<Objective>, op: Op, bar: real, now: real)
    requires Tidy(Read(store))
    ensures Read(Step(store, op, bar, now)) == Step(Read(store), op, bar, now)
  {
    ReadOfTidy(Read(store));
    StepKeepsTidy(Read(store), op, bar, now);
    ReadOfTidy(Step(Read(store), op, bar, now));
  }

  /** Readers cannot tell a run on the store from the same run on what they saw of it. */
  lemma {:induction false} ReadOfRun(store: seq<Objective>, ops: seq<(Op, real)>, bar: real)
    requires Tidy(Read(store))
    ensures Read(Run(store, ops, bar)) == Run(Read(store), ops, bar)
    decreases |ops|
  {
    if ops != [] {
      var init, last := ops[..|ops| - 1], ops[|ops| - 1];
      ReadOfRun(store, init, bar);
      RunKeepsTidy(Read(store), init, bar);
      ReadOfStep(Run(store, init, bar), last.0, bar, last.1);
    }
  }

  /** So whatever list was set, every run of operations keeps all of that for its readers. */
  lemma EverySetListIsKept(os: seq<Objective>, ops: seq<(Op, real)>, bar: real)
    ensures Kept(Read(Stored(os)), Read(Run(Stored(os), ops, bar)), ops, bar)
  {
    StoredIsTidy(os);
    ReadOfRun(Stored(os), ops, bar);
    RunKeepsTidy(Read(Stored(os)), ops, bar);
  }
}
