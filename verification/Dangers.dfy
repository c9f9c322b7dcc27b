/** The danger ring buffer of `SharedWorkingState`: reports, edits in place and resolution. */
module Dangers {
  import opened Wrappers
  import opened PyText

  const MAX_RECENT_DANGERS := 25
  const DANGER_KINDS := {"stuck", "drowning", "trapped", "low_health", "death", "repeated_failure"}
  const OPEN_DANGER_STATUSES := {"open", "rescue_dispatched", "unresolved"}

  datatype Danger = Danger(dangerId: string, agent: string, kind: string, severity: int, reportedAt: real,
                           resolvedAt: Option<real>, rescuer: Option<string>, status: string)

  function NormalizeKind(kind: string): string {
    if Slug(kind) in DANGER_KINDS then Slug(kind) else "trapped"
  }

  function Normalize(d: Danger): Danger {
    d.(kind := NormalizeKind(d.kind),
       severity := if d.severity < 1 then 1 else if d.severity > 5 then 5 else d.severity,
       status := if d.status == "" then "open" else d.status)
  }

  /** The status text as `_is_unresolved_danger` reads it. */
  function ReadStatus(status: string): string {
    Lower(Strip(if status == "" then "open" else status))
  }

  predicate OpenStatus(status: string) {
    ReadStatus(status) in OPEN_DANGER_STATUSES || ReadStatus(status) == ""
  }

  predicate Unresolved(d: Danger) {
    d.resolvedAt.None? && OpenStatus(d.status)
  }

  function Recent<T>(xs: seq<T>): (r: seq<T>)
    ensures |r| <= MAX_RECENT_DANGERS
  {
    if |xs| > MAX_RECENT_DANGERS then xs[|xs| - MAX_RECENT_DANGERS..] else xs
  }

  /** The last 25 at most, as they are. */
  lemma RecentAreTheLast<T>(xs: seq<T>, i: nat)
    requires i < |xs|
    ensures |Recent(xs)| == if |xs| < 25 then |xs| else 25
    ensures i < |Recent(xs)| ==> Recent(xs)[|Recent(xs)| - 1 - i] == xs[|xs| - 1 - i]
  {
  }

  /** A report without a resolution time is open in these three statuses, and closed in any other such word. */
  lemma OpenWhileInOneOfThree(d: Danger)
    requires d.resolvedAt.None? && IsSlug(d.status)
    ensures Unresolved(d) <==> d.status == "open" || d.status == "rescue_dispatched" || d.status == "unresolved"
  {
    SlugStays(d.status);
  }

  /** What is stored of a report: a known kind, a severity from 1 to 5, a status, and all else as it came. */
  lemma NormalizedSays(d: Danger)
    ensures var kept := Normalize(d);
            && kept == d.(kind := kept.kind, severity := kept.severity, status := kept.status)
            && kept.kind in DANGER_KINDS && (IsSlug(d.kind) && d.kind in DANGER_KINDS ==> kept.kind == d.kind)
            && (Slug(d.kind) !in DANGER_KINDS ==> kept.kind == "trapped")
            && (1 <= d.severity <= 5 ==> kept.severity == d.severity)
            && (d.severity < 1 ==> kept.severity == 1) && (d.severity > 5 ==> kept.severity == 5)
            && kept.status == if d.status == "" then "open" else d.status
  {
    if IsSlug(d.kind) {
      SlugStays(d.kind);
    }
  }

  // ---- Operations on the buffer ----

  datatype Edit = Edit(dangerId: Option<string>, agent: Option<string>, rescuer: Option<string>,
                       resolvedAt: Option<real>, status: Option<string>)

  predicate Matches(d: Danger, e: Edit) {
    if Truthy(e.dangerId) then d.dangerId == e.dangerId.value
    else if Truthy(e.agent) then d.agent == e.agent.value && Unresolved(d)
    else true
  }

  function Apply(d: Danger, e: Edit): Danger {
    d.(rescuer := if Truthy(e.rescuer) then e.rescuer else d.rescuer,
       resolvedAt := if e.resolvedAt.Some? then e.resolvedAt else d.resolvedAt,
       status := if Truthy(e.status) then e.status.value else d.status)
  }

  /** The last position where the test holds. */
  function LastWhere<T>(xs: seq<T>, test: T -> bool): (r: Option<nat>)
    ensures r.None? ==> forall i :: 0 <= i < |xs| ==> !test(xs[i])
    ensures r.Some? ==> r.value < |xs| && test(xs[r.value]) && forall i :: r.value < i < |xs| ==> !test(xs[i])
  {
    if xs == [] then None
    else if test(xs[|xs| - 1]) then Some(|xs| - 1)
    else LastWhere(xs[..|xs| - 1], test)
  }

  /** Matching an edit as a test. */
  function Test(e: Edit): (test: Danger -> bool)
    ensures forall d :: test(d) == Matches(d, e)
  {
    d => Matches(d, e)
  }

  /** The index of the newest match. */
  function Newest(ds: seq<Danger>, e: Edit): (r: Option<nat>)
    ensures r.None? ==> forall i :: 0 <= i < |ds| ==> !Matches(ds[i], e)
    ensures r.Some? ==> r.value < |ds| && Matches(ds[r.value], e)
                        && forall i :: r.value < i < |ds| ==> !Matches(ds[i], e)
  {
    LastWhere(ds, Test(e))
  }

  function Update(ds: seq<Danger>, e: Edit): seq<Danger> {
    match Newest(ds, e)
    case None => ds
    case Some(i) => Recent(ds[i := Apply(ds[i], e)])
  }

  datatype Op = Report(danger: Danger) | Change(edit: Edit)

  function Step(ds: seq<Danger>, op: Op): seq<Danger> {
    match op
    case Report(d) => Recent(ds + [Normalize(d)])
    case Change(e) => Update(ds, e)
  }

  /** A new report comes last; the others stay as they are, but for the oldest of 25. */
  lemma ReportGoesLast(ds: seq<Danger>, d: Danger)
    requires |ds| <= 25
    ensures Step(ds, Report(d)) == (if |ds| == 25 then ds[1..] else ds) + [Normalize(d)]
  {
    PushedGoesLast(ds, Normalize(d));
  }

  lemma PushedGoesLast<T>(xs: seq<T>, x: T)
    requires |xs| <= 25
    ensures Recent(xs + [x]) == (if |xs| == 25 then xs[1..] else xs) + [x]
  {
  }

  function Run(ds: seq<Danger>, ops: seq<Op>): seq<Danger> {
    if ops == [] then ds else Step(Run(ds, ops[..|ops| - 1]), ops[|ops| - 1])
  }

  // ---- The buffer is the tail of the reports ----

  /** The fields no edit touches. */
  datatype Identity = Identity(dangerId: string, agent: string, kind: string, severity: int, reportedAt: real)

  function IdentityOf(d: Danger): Identity {
    Identity(d.dangerId, d.agent, d.kind, d.severity, d.reportedAt)
  }

  function Identities(ds: seq<Danger>): (r: seq<Identity>)
    ensures |r| == |ds| && forall i :: 0 <= i < |ds| ==> r[i] == IdentityOf(ds[i])
  {
    seq(|ds|, i requires 0 <= i < |ds| => IdentityOf(ds[i]))
  }

  /** What was reported, in arrival order. */
  function Reported(ops: seq<Op>): seq<Identity> {
    if ops == [] then []
    else
      var last := ops[|ops| - 1];
      Reported(ops[..|ops| - 1]) + if last.Report? then [IdentityOf(Normalize(last.danger))] else []
  }

  lemma RecentAppend<T>(xs: seq<T>, x: T)
    ensures Recent(Recent(xs) + [x]) == Recent(xs + [x])
  {
  }

  lemma IdentitiesOfReport(ds: seq<Danger>, d: Danger)
    ensures Identities(Recent(ds + [d])) == Recent(Identities(ds) + [IdentityOf(d)])
  {
  }

  lemma ApplyKeepsIdentity(d: Danger, e: Edit)
    ensures IdentityOf(Apply(d, e)) == IdentityOf(d)
  {
  }

  lemma IdentitiesOfUpdate(ds: seq<Danger>, e: Edit)
    requires |ds| <= MAX_RECENT_DANGERS
    ensures Identities(Update(ds, e)) == Identities(ds)
  {
    var found := Newest(ds, e);
    if found.Some? {
      ApplyKeepsIdentity(ds[found.value], e);
    }
  }

  lemma {:induction false} RunIsBounded(ops: seq<Op>)
    ensures |Run([], ops)| <= MAX_RECENT_DANGERS
    decreases |ops|
  {
    if ops != [] {
      RunIsBounded(ops[..|ops| - 1]);
    }
  }

  /** After any history, the buffer holds the last 25 reports in arrival order, up to field edits. */
  lemma {:induction false} BufferIsTheLatestReports(ops: seq<Op>)
    ensures Identities(Run([], ops)) == Recent(Reported(ops))
    decreases |ops|
  {
    if ops != [] {
      var init, last := ops[..|ops| - 1], ops[|ops| - 1];
      BufferIsTheLatestReports(init);
      RunIsBounded(init);
      match last
      case Report(d) =>
        IdentitiesOfReport(Run([], init), Normalize(d));
        RecentAppend(Reported(init), IdentityOf(Normalize(d)));
      case Change(e) =>
        IdentitiesOfUpdate(Run([], init), e);
        assert Reported(ops) == Reported(init) + [];
    }
  }

  // ---- Resolution is final ----

  function Arrivals(ops: seq<Op>): nat {
    |Reported(ops)|
  }

  /** The `k`-th of `total` items, when `xs` is the tail that is left of them. */
  function Lookup<T>(xs: seq<T>, total: nat, k: nat): Option<T> {
    if k < total <= k + |xs| then Some(xs[k + |xs| - total]) else None
  }

  /** The buffer entry of the `k`-th report, while it has not been pushed out. */
  function Entry(ops: seq<Op>, k: nat): Option<Danger> {
    Lookup(Run([], ops), Arrivals(ops), k)
  }

  lemma BufferSize(ops: seq<Op>)
    ensures |Run([], ops)| == |Recent(Reported(ops))|
  {
    BufferIsTheLatestReports(ops);
  }

  /** Pushing keeps the entries that fit, in order. */
  lemma LookupAfterPush<T>(xs: seq<T>, x: T, total: nat, k: nat)
    requires |xs| <= MAX_RECENT_DANGERS
    requires Lookup(xs, total, k).Some? && Lookup(Recent(xs + [x]), total + 1, k).Some?
    ensures Lookup(Recent(xs + [x]), total + 1, k) == Lookup(xs, total, k)
  {
  }

  lemma UpdateAt(ds: seq<Danger>, e: Edit, i: nat)
    requires i < |ds| <= MAX_RECENT_DANGERS
    ensures |Update(ds, e)| == |ds|
    ensures Update(ds, e)[i] == ds[i] || Update(ds, e)[i] == Apply(ds[i], e)
  {
  }

  lemma EntryAfterReport(ops: seq<Op>, d: Danger, k: nat)
    ensures Entry(ops, k).Some? && Entry(ops + [Report(d)], k).Some? ==> Entry(ops + [Report(d)], k) == Entry(ops, k)
  {
    if Entry(ops, k).Some? && Entry(ops + [Report(d)], k).Some? {
      assert (ops + [Report(d)])[..|ops|] == ops;
      RunIsBounded(ops);
      LookupAfterPush(Run([], ops), Normalize(d), Arrivals(ops), k);
    }
  }

  lemma EntryAfterChange(ops: seq<Op>, e: Edit, k: nat)
    requires Entry(ops, k).Some?
    ensures var after := Entry(ops + [Change(e)], k);
            after == Entry(ops, k) || after == Some(Apply(Entry(ops, k).value, e))
  {
    var ops' := ops + [Change(e)];
    assert ops'[..|ops|] == ops;
    RunIsBounded(ops);
    assert Reported(ops') == Reported(ops) + [];
    UpdateAt(Run([], ops), e, k + |Run([], ops)| - Arrivals(ops));
  }

  /** The report is still in the buffer, with a resolution time. */
  predicate Timed(ops: seq<Op>, k: nat) {
    Entry(ops, k).Some? && Entry(ops, k).value.resolvedAt.Some?
  }

  lemma TimeStays(ops: seq<Op>, op: Op, k: nat)
    requires Timed(ops, k) && Entry(ops + [op], k).Some?
    ensures Timed(ops + [op], k)
  {
    match op
    case Report(d) => EntryAfterReport(ops, d, k);
    case Change(e) => EntryAfterChange(ops, e, k);
  }

  /** What is watched along a history: whether the report is there, and whether it has a resolution time. */
  datatype Watch = Watch(there: seq<Op> -> bool, timed: seq<Op> -> bool)

  ghost predicate Carries(w: Watch, before: seq<Op>, op: Op) {
    w.there(before + [op]) ==> w.there(before) && (w.timed(before) ==> w.timed(before + [op]))
  }

  lemma {:induction false} Carried(w: Watch, ops: seq<Op>, more: seq<Op>)
    requires forall before, op :: ops <= before ==> Carries(w, before, op)
    requires w.timed(ops) && w.there(ops + more)
    ensures w.timed(ops + more)
    decreases |more|
  {
    if more == [] {
      assert ops + more == ops;
    } else {
      var init, last := more[..|more| - 1], more[|more| - 1];
      assert ops + more == (ops + init) + [last];
      assert Carries(w, ops + init, last);
      Carried(w, ops, init);
    }
  }

  lemma StepCarries(ops: seq<Op>, k: nat, before: seq<Op>, op: Op)
    requires k < Arrivals(ops) && ops <= before && Entry(before + [op], k).Some?
    ensures Entry(before, k).Some? && (Timed(before, k) ==> Timed(before + [op], k))
  {
    assert before == ops + before[|ops|..];
    ArrivalsGrow(ops, before[|ops|..]);
    EntriesLeaveInOrder(before, op, k);
    if Timed(before, k) {
      TimeStays(before, op, k);
    }
  }

  lemma ResolutionTimeStays(ops: seq<Op>, more: seq<Op>, k: nat)
    requires Timed(ops, k) && Entry(ops + more, k).Some?
    ensures Timed(ops + more, k)
  {
    var w := Watch(o => Entry(o, k).Some?, o => Timed(o, k));
    forall before, op | ops <= before ensures Carries(w, before, op) {
      if Entry(before + [op], k).Some? {
        StepCarries(ops, k, before, op);
      }
    }
    Carried(w, ops, more);
  }

  /** Once a report carries a resolution time, no later history makes it unresolved again. */
  lemma ResolutionIsFinal(ops: seq<Op>, more: seq<Op>, k: nat)
    requires Entry(ops, k).Some? && Entry(ops, k).value.resolvedAt.Some?
    requires Entry(ops + more, k).Some?
    ensures Entry(ops + more, k).value.resolvedAt.Some?
    ensures !Unresolved(Entry(ops + more, k).value)
  {
    ResolutionTimeStays(ops, more, k);
  }

  /** An entry still present was present before the last operation, unless that operation reported it. */
  lemma EntriesLeaveInOrder(ops: seq<Op>, op: Op, k: nat)
    requires Entry(ops + [op], k).Some? && k < Arrivals(ops)
    ensures Entry(ops, k).Some?
  {
    assert (ops + [op])[..|ops|] == ops;
    BufferSize(ops);
    BufferSize(ops + [op]);
  }

  lemma {:induction false} ArrivalsGrow(ops: seq<Op>, more: seq<Op>)
    ensures Arrivals(ops) <= Arrivals(ops + more)
    decreases |more|
  {
    if more == [] {
      assert ops + more == ops;
    } else {
      assert (ops + more)[..|ops + more| - 1] == ops + more[..|more| - 1];
      ArrivalsGrow(ops, more[..|more| - 1]);
    }
  }

  /**
   A report closed by its status alone is another matter: an edit reopens it exactly when the report
   has no resolution time, the edit brings none, and the new status is an open one.
   */
  lemma ReopenedExactlyWhen(d: Danger, e: Edit)
    requires !Unresolved(d)
    ensures Unresolved(Apply(d, e)) <==>
            d.resolvedAt.None? && e.resolvedAt.None? && Truthy(e.status) && OpenStatus(e.status.value)
  {
  }

  // ---- Clearing an agent's distress ----

  datatype Resolution = Resolution(at: real, rescuer: Option<string>, status: string)

  function ResolveEdit(agent: string, r: Resolution): Edit {
    Edit(None, Some(agent), r.rescuer, Some(r.at), Some(r.status))
  }

  predicate Distress(d: Danger, agent: string) {
    d.agent == agent && Unresolved(d)
  }

  /** Which positions hold an unresolved report of the agent. */
  function Flags(ds: seq<Danger>, agent: string): (r: seq<bool>)
    ensures |r| == |ds| && forall i :: 0 <= i < |ds| ==> r[i] == Distress(ds[i], agent)
  {
    seq(|ds|, i requires 0 <= i < |ds| => Distress(ds[i], agent))
  }

  function CountFrom(flags: seq<bool>, i: nat): nat
    decreases |flags| - i
  {
    if i >= |flags| then 0 else (if flags[i] then 1 else 0) + CountFrom(flags, i + 1)
  }

  /** How many of the agent's unresolved reports lie at or after position `i`. */
  function DistressFrom(ds: seq<Danger>, agent: string, i: nat): nat {
    CountFrom(Flags(ds, agent), i)
  }

  function ResolveEach(ds: seq<Danger>, agent: string, calls: seq<Resolution>): seq<Danger>
    decreases |calls|
  {
    if calls == [] then ds else ResolveEach(Update(ds, ResolveEdit(agent, calls[0])), agent, calls[1..])
  }

  lemma {:induction false} CountOfNone(flags: seq<bool>, i: nat)
    requires forall j :: i <= j < |flags| ==> !flags[j]
    ensures CountFrom(flags, i) == 0
    decreases |flags| - i
  {
    if i < |flags| {
      CountOfNone(flags, i + 1);
    }
  }

  lemma {:induction false} CountOfSome(flags: seq<bool>, i: nat, j: nat)
    requires i <= j < |flags| && flags[j]
    ensures CountFrom(flags, i) > CountFrom(flags, j + 1)
    decreases j - i
  {
    if i < j {
      CountOfSome(flags, i + 1, j);
    }
  }

  lemma {:induction false} CountWithout(flags: seq<bool>, m: nat, i: nat)
    requires m < |flags| && flags[m]
    ensures CountFrom(flags, i) == CountFrom(flags[m := false], i) + if i <= m then 1 else 0
    decreases |flags| - i
  {
    if i < |flags| {
      CountWithout(flags, m, i + 1);
    }
  }

  lemma ResolvedIsNoDistress(d: Danger, agent: string, r: Resolution)
    ensures !Distress(Apply(d, ResolveEdit(agent, r)), agent)
  {
  }

  lemma ResolveMatchesDistress(d: Danger, agent: string, r: Resolution)
    requires agent != ""
    ensures Matches(d, ResolveEdit(agent, r)) <==> Distress(d, agent)
  {
  }

  lemma FlagsAfterEdit(ds: seq<Danger>, agent: string, m: nat, d: Danger)
    requires m < |ds| && !Distress(d, agent)
    ensures Flags(ds[m := d], agent) == Flags(ds, agent)[m := false]
  {
  }

  lemma FlagsAfterCall(ds: seq<Danger>, agent: string, m: nat, r: Resolution)
    requires m < |ds|
    ensures Flags(ds[m := Apply(ds[m], ResolveEdit(agent, r))], agent) == Flags(ds, agent)[m := false]
  {
    ResolvedIsNoDistress(ds[m], agent, r);
    FlagsAfterEdit(ds, agent, m, Apply(ds[m], ResolveEdit(agent, r)));
  }

  /** The newest match of such an edit is the last unresolved report. */
  lemma NewestIsLastFlag(ds: seq<Danger>, agent: string, r: Resolution)
    requires agent != ""
    ensures var n, flags := Newest(ds, ResolveEdit(agent, r)), Flags(ds, agent);
            && (n.None? ==> forall i :: 0 <= i < |ds| ==> !flags[i])
            && (n.Some? ==> n.value < |ds| && flags[n.value] && forall i :: n.value < i < |ds| ==> !flags[i])
  {
    forall i | 0 <= i < |ds| ensures Matches(ds[i], ResolveEdit(agent, r)) <==> Flags(ds, agent)[i] {
      ResolveMatchesDistress(ds[i], agent, r);
    }
  }

  lemma LastFlagIs(flags: seq<bool>, n: Option<nat>)
    requires CountFrom(flags, 0) > 0
    requires n.None? ==> forall i :: 0 <= i < |flags| ==> !flags[i]
    requires n.Some? ==> n.value < |flags| && forall i :: n.value < i < |flags| ==> !flags[i]
    ensures n.Some? && CountFrom(flags, n.value + 1) == 0
  {
    if n.None? {
      CountOfNone(flags, 0);
    } else {
      CountOfNone(flags, n.value + 1);
    }
  }

  lemma NewestIsEdited(ds: seq<Danger>, e: Edit, m: nat)
    requires |ds| <= MAX_RECENT_DANGERS && Newest(ds, e) == Some(m)
    ensures m < |ds| && Update(ds, e) == ds[m := Apply(ds[m], e)]
  {
  }

  lemma NewestHasRankZero(ds: seq<Danger>, agent: string, r: Resolution)
    requires agent != "" && DistressFrom(ds, agent, 0) > 0
    ensures var n := Newest(ds, ResolveEdit(agent, r));
            n.Some? && n.value < |ds| && Flags(ds, agent)[n.value] && DistressFrom(ds, agent, n.value + 1) == 0
  {
    NewestIsLastFlag(ds, agent, r);
    LastFlagIs(Flags(ds, agent), Newest(ds, ResolveEdit(agent, r)));
  }

  /** One call resolves the newest unresolved report, the one with no unresolved report behind it. */
  lemma OneCall(ds: seq<Danger>, agent: string, r: Resolution) returns (m: nat)
    requires |ds| <= MAX_RECENT_DANGERS && agent != "" && DistressFrom(ds, agent, 0) > 0
    ensures m < |ds| && Flags(ds, agent)[m] && DistressFrom(ds, agent, m + 1) == 0
    ensures Update(ds, ResolveEdit(agent, r)) == ds[m := Apply(ds[m], ResolveEdit(agent, r))]
  {
    NewestHasRankZero(ds, agent, r);
    m := Newest(ds, ResolveEdit(agent, r)).value;
    NewestIsEdited(ds, ResolveEdit(agent, r), m);
  }

  /** What the calls made of position `i`. */
  ghost predicate ClearedAt(ds: seq<Danger>, ds': seq<Danger>, agent: string, calls: seq<Resolution>, i: nat)
    requires i < |ds| == |ds'|
  {
    if Flags(ds, agent)[i] then
      var r := DistressFrom(ds, agent, i + 1);
      r < |calls| && ds'[i] == Apply(ds[i], ResolveEdit(agent, calls[r]))
    else ds'[i] == ds[i]
  }

  /** Resolving the last one leaves every earlier one with one fewer behind it. */
  lemma RankAfterCall(flags: seq<bool>, m: nat, i: nat)
    requires m < |flags| && flags[m] && CountFrom(flags, m + 1) == 0
    requires i < |flags| && flags[i] && i != m
    ensures flags[m := false][i]
    ensures CountFrom(flags, i + 1) == CountFrom(flags[m := false], i + 1) + 1
  {
    if i > m {
      CountOfSome(flags, m + 1, i);
    }
    CountWithout(flags, m, i + 1);
  }

  /** The first call, then the rest on what it left. */
  lemma ClearedInTwo(ds: seq<Danger>, mid: seq<Danger>, ds': seq<Danger>, agent: string, calls: seq<Resolution>,
                     m: nat, i: nat)
    requires i < |ds| == |ds'| == |mid| && m < |ds| && calls != [] && Flags(ds, agent)[m]
    requires DistressFrom(ds, agent, m + 1) == 0
    requires mid == ds[m := Apply(ds[m], ResolveEdit(agent, calls[0]))]
    requires Flags(mid, agent) == Flags(ds, agent)[m := false]
    requires ClearedAt(mid, ds', agent, calls[1..], i)
    ensures ClearedAt(ds, ds', agent, calls, i)
  {
    var flags := Flags(ds, agent);
    if i == m {
      assert !flags[m := false][i];
    } else if flags[i] {
      RankAfterCall(flags, m, i);
    }
  }

  lemma NothingLeft(ds: seq<Danger>, agent: string, r: Resolution)
    requires agent != "" && DistressFrom(ds, agent, 0) == 0
    ensures Newest(ds, ResolveEdit(agent, r)).None?
  {
    var e := ResolveEdit(agent, r);
    if Newest(ds, e).Some? {
      var m := Newest(ds, e).value;
      ResolveMatchesDistress(ds[m], agent, r);
      CountOfSome(Flags(ds, agent), 0, m);
    }
  }

  /**
   Exactly as many calls as the agent has unresolved reports clear them, newest first: the report
   with `r` newer unresolved ones behind it is resolved by call number `r`, nothing else changes, and
   one more call would find nothing.
   */
  lemma {:induction false} CallsClearNewestFirst(ds: seq<Danger>, agent: string, calls: seq<Resolution>)
    requires |ds| <= MAX_RECENT_DANGERS && agent != ""
    requires |calls| == DistressFrom(ds, agent, 0)
    ensures var ds' := ResolveEach(ds, agent, calls);
            && |ds'| == |ds|
            && (forall i :: 0 <= i < |ds| ==> ClearedAt(ds, ds', agent, calls, i))
            && (forall r :: Newest(ds', ResolveEdit(agent, r)).None?)
    decreases |calls|
  {
    var flags := Flags(ds, agent);
    if calls == [] {
      forall i | 0 <= i < |ds| ensures ClearedAt(ds, ds, agent, calls, i) {
        if flags[i] {
          CountOfSome(flags, 0, i);
        }
      }
      forall r ensures Newest(ds, ResolveEdit(agent, r)).None? {
        NothingLeft(ds, agent, r);
      }
    } else {
      var m := OneCall(ds, agent, calls[0]);
      FlagsAfterCall(ds, agent, m, calls[0]);
      var mid := Update(ds, ResolveEdit(agent, calls[0]));
      CountWithout(flags, m, 0);
      CallsClearNewestFirst(mid, agent, calls[1..]);
      forall i | 0 <= i < |ds| ensures ClearedAt(ds, ResolveEach(ds, agent, calls), agent, calls, i) {
        ClearedInTwo(ds, mid, ResolveEach(ds, agent, calls), agent, calls, m, i);
      }
    }
  }
}
