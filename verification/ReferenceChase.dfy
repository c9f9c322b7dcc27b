/**
 Following references until an answer, with and without a record of those already met. The moves are
 a parameter; `ModelConfig` supplies them.
 */
module ReferenceChase {
  import opened Wrappers

  /** One move: an answer, or the next goal and the reference met on the way. */
  datatype Move<G, A, R> = Done(answer: A) | Then(goal: G, met: Option<R>)

  /** How a resolver that keeps a record ends. */
  datatype End<A, R> = Answered(answer: A) | Repeated(ref: R)

  /** The answer, if `n` moves reach one, and the references met by then. */
  function Chase<G, A, R>(step: G -> Move<G, A, R>, goal: G, n: nat): (Option<A>, seq<R>)
    decreases n
  {
    if n == 0 then (None, [])
    else
      match step(goal)
      case Done(answer) => (Some(answer), [])
      case Then(next, met) =>
        var rest := Chase(step, next, n - 1);
        (rest.0, (if met.Some? then [met.value] else []) + rest.1)
  }

  /** The resolver makes the same move, or stops at a reference it has on record. */
  ghost predicate Follows<G, A, R>(step: G -> Move<G, A, R>, resolve: (G, set<R>) -> End<A, R>, goal: G,
                                   seen: set<R>) {
    match step(goal)
    case Done(answer) => resolve(goal, seen) == Answered(answer)
    case Then(next, None) => resolve(goal, seen) == resolve(next, seen)
    case Then(next, Some(ref)) =>
      resolve(goal, seen) == if ref in seen then Repeated(ref) else resolve(next, seen + {ref})
  }

  /** Every move the resolver makes lowers the rank. */
  ghost predicate Descends<G, A, R>(step: G -> Move<G, A, R>, rank: (G, set<R>) -> (nat, nat), goal: G,
                                    seen: set<R>) {
    match step(goal)
    case Done(_) => true
    case Then(next, None) => Precedes(rank(next, seen), rank(goal, seen))
    case Then(next, Some(ref)) => ref !in seen ==> Precedes(rank(next, seen + {ref}), rank(goal, seen))
  }

  predicate Precedes(a: (nat, nat), b: (nat, nat)) {
    a.0 < b.0 || (a.0 == b.0 && a.1 < b.1)
  }

  ghost predicate Resolver<G(!new), A(!new), R(!new)>(step: G -> Move<G, A, R>, resolve: (G, set<R>) -> End<A, R>,
                                                      rank: (G, set<R>) -> (nat, nat)) {
    && (forall goal, seen :: Follows(step, resolve, goal, seen))
    && (forall goal, seen :: Descends(step, rank, goal, seen))
  }

  ghost predicate Distinct<R>(refs: seq<R>, seen: set<R>) {
    && (forall i :: 0 <= i < |refs| ==> refs[i] !in seen)
    && (forall i, j :: 0 <= i < j < |refs| ==> refs[i] != refs[j])
  }

  lemma DistinctCons<R>(ref: R, refs: seq<R>, seen: set<R>)
    requires ref !in seen
    ensures Distinct([ref] + refs, seen) <==> Distinct(refs, seen + {ref})
  {
    var all := [ref] + refs;
    if Distinct(all, seen) {
      forall i | 0 <= i < |refs| ensures refs[i] !in seen + {ref} {
        assert all[i + 1] == refs[i] && all[0] == ref;
      }
      forall i, j | 0 <= i < j < |refs| ensures refs[i] != refs[j] {
        assert all[i + 1] != all[j + 1];
      }
    }
  }

  /** The two ways a resolution ends: with the chase's own answer, or at the first repeated reference. */
  lemma {:induction false} Endings<G(!new), A(!new), R(!new)>(step: G -> Move<G, A, R>,
                                                              resolve: (G, set<R>) -> End<A, R>,
                                                              rank: (G, set<R>) -> (nat, nat), goal: G, seen: set<R>)
    returns (n: nat)
    requires Resolver(step, resolve, rank)
    ensures var (answer, refs) := Chase(step, goal, n);
            if Distinct(refs, seen) then answer.Some? && resolve(goal, seen) == Answered(answer.value)
            else refs != [] && resolve(goal, seen) == Repeated(refs[|refs| - 1]) && Distinct(refs[..|refs| - 1], seen)
    decreases rank(goal, seen).0, rank(goal, seen).1
  {
    assert Follows(step, resolve, goal, seen) && Descends(step, rank, goal, seen);
    match step(goal)
    case Done(_) =>
      n := 1;
    case Then(next, None) =>
      var k := Endings(step, resolve, rank, next, seen);
      n := k + 1;
      assert Chase(step, goal, n).1 == Chase(step, next, k).1;
    case Then(next, Some(ref)) =>
      if ref in seen {
        n := 1;
        assert Chase(step, goal, n).1 == [ref];
        assert [ref][0] in seen;
      } else {
        var k := Endings(step, resolve, rank, next, seen + {ref});
        n := k + 1;
        assert Chase(step, goal, n).1 == [ref] + Chase(step, next, k).1;
        FirstMet(ref, Chase(step, next, k).1, seen);
      }
  }

  /** One reference more in front: where the first repetition is stays the same. */
  lemma FirstMet<R>(ref: R, refs: seq<R>, seen: set<R>)
    requires ref !in seen
    ensures Distinct([ref] + refs, seen) <==> Distinct(refs, seen + {ref})
    ensures refs != [] ==>
              && ([ref] + refs)[|refs|] == refs[|refs| - 1]
              && (Distinct(([ref] + refs)[..|refs|], seen) <==> Distinct(refs[..|refs| - 1], seen + {ref}))
  {
    DistinctCons(ref, refs, seen);
    if refs != [] {
      assert ([ref] + refs)[..|refs|] == [ref] + refs[..|refs| - 1];
      DistinctCons(ref, refs[..|refs| - 1], seen);
    }
  }

  /** More moves only append references, and never change an answer. */
  lemma {:induction false} ChaseGrows<G, A, R>(step: G -> Move<G, A, R>, goal: G, n: nat, m: nat)
    requires n <= m
    ensures Chase(step, goal, n).1 <= Chase(step, goal, m).1
    ensures Chase(step, goal, n).0.Some? ==> Chase(step, goal, m) == Chase(step, goal, n)
    decreases n
  {
    if n > 0 && step(goal).Then? {
      ChaseGrows(step, step(goal).goal, n - 1, m - 1);
    }
  }

  lemma ShorterIsDistinct<R>(short: seq<R>, long: seq<R>, seen: set<R>)
    requires short <= long && Distinct(long, seen)
    ensures Distinct(short, seen)
  {
    assert forall i :: 0 <= i < |short| ==> short[i] == long[i];
  }

  /** `n` moves of the plain chase end in the answer, with no reference met twice or on record. */
  ghost predicate Reaches<G, A, R>(step: G -> Move<G, A, R>, goal: G, seen: set<R>, answer: A, n: nat) {
    Chase(step, goal, n).0 == Some(answer) && Distinct(Chase(step, goal, n).1, seen)
  }

  ghost predicate MeetsAgain<G, A, R>(step: G -> Move<G, A, R>, goal: G, seen: set<R>, n: nat) {
    !Distinct(Chase(step, goal, n).1, seen)
  }

  /**
   Cycle detection, exactly: a resolver gives the plain chase's answer when the chase gets there
   without meeting a reference again, and it reports a repetition exactly when one is met again.
   */
  lemma DetectionIsExact<G(!new), A(!new), R(!new)>(step: G -> Move<G, A, R>, resolve: (G, set<R>) -> End<A, R>,
                                                    rank: (G, set<R>) -> (nat, nat), goal: G, seen: set<R>)
    requires Resolver(step, resolve, rank)
    ensures forall answer ::
              (exists n :: Reaches(step, goal, seen, answer, n)) <==> resolve(goal, seen) == Answered(answer)
    ensures (exists n :: MeetsAgain(step, goal, seen, n)) <==> resolve(goal, seen).Repeated?
  {
    var k := Endings(step, resolve, rank, goal, seen);
    if Distinct(Chase(step, goal, k).1, seen) {
      assert Reaches(step, goal, seen, resolve(goal, seen).answer, k);
    } else {
      assert MeetsAgain(step, goal, seen, k);
    }
    forall answer, n | Reaches(step, goal, seen, answer, n) ensures resolve(goal, seen) == Answered(answer) {
      AgreeUpTo(step, goal, seen, n, k);
    }
    forall n | MeetsAgain(step, goal, seen, n) ensures MeetsAgain(step, goal, seen, k) {
      if Distinct(Chase(step, goal, k).1, seen) {
        AgreeUpTo(step, goal, seen, k, n);
      }
    }
  }

  /** A chase that answers within `n` moves keeps its references whatever the number of moves. */
  lemma AgreeUpTo<G, A, R>(step: G -> Move<G, A, R>, goal: G, seen: set<R>, n: nat, k: nat)
    requires Chase(step, goal, n).0.Some? || k <= n
    ensures Distinct(Chase(step, goal, n).1, seen) ==> Distinct(Chase(step, goal, k).1, seen)
    ensures Chase(step, goal, k).0.Some? && Chase(step, goal, n).0.Some? ==>
              Chase(step, goal, k) == Chase(step, goal, n)
  {
    if n <= k {
      ChaseGrows(step, goal, n, k);
    } else {
      ChaseGrows(step, goal, k, n);
      if Distinct(Chase(step, goal, n).1, seen) {
        ShorterIsDistinct(Chase(step, goal, k).1, Chase(step, goal, n).1, seen);
      }
    }
  }

  /** Forgetting references never changes an answer: detection only turns answers into errors. */
  lemma ForgettingIsHarmless<G(!new), A(!new), R(!new)>(step: G -> Move<G, A, R>, resolve: (G, set<R>) -> End<A, R>,
                                                        rank: (G, set<R>) -> (nat, nat), goal: G,
                                                        seen: set<R>, fewer: set<R>)
    requires Resolver(step, resolve, rank) && fewer <= seen && resolve(goal, seen).Answered?
    ensures resolve(goal, fewer) == resolve(goal, seen)
  {
    var n := Endings(step, resolve, rank, goal, seen);
    DetectionIsExact(step, resolve, rank, goal, fewer);
    assert Reaches(step, goal, fewer, resolve(goal, seen).answer, n);
  }

  // ---- Chases that never end ----

  ghost predicate Endless<G, A, R>(step: G -> Move<G, A, R>, goal: G) {
    forall n :: Chase(step, goal, n).0.None?
  }

  /** The answer comes with the `n`-th move and not before. */
  predicate EndsIn<G, A, R>(step: G -> Move<G, A, R>, goal: G, n: nat) {
    n > 0 && Chase(step, goal, n).0.Some? && Chase(step, goal, n - 1).0.None?
  }

  /** The goals inside are all that a chase from one of them comes to. */
  ghost predicate Closed<G(!new), A(!new), R>(step: G -> Move<G, A, R>, inside: G -> bool) {
    forall g :: inside(g) && step(g).Then? ==> inside(step(g).goal)
  }

  ghost predicate SameMet<G, A, R>(step: G -> Move<G, A, R>, g: G, h: G) {
    step(g).Then? && step(h).Then? && step(g).met.Some? && step(g).met == step(h).met
  }

  /** Wherever a reference is met, the move after it is the same. */
  ghost predicate Determined<G(!new), A(!new), R>(step: G -> Move<G, A, R>, inside: G -> bool) {
    forall g, h :: inside(g) && inside(h) && SameMet(step, g, h) ==> step(step(g).goal) == step(step(h).goal)
  }

  lemma EndOfNext<G, A, R>(step: G -> Move<G, A, R>, goal: G, n: nat)
    requires EndsIn(step, goal, n) && step(goal).Then?
    ensures n > 1 && EndsIn(step, step(goal).goal, n - 1)
  {
    assert Chase(step, goal, n).0 == Chase(step, step(goal).goal, n - 1).0;
    assert n > 1 ==> Chase(step, goal, n - 1).0 == Chase(step, step(goal).goal, n - 2).0;
  }

  /** The goal at which a reference was met, and how far the answer is from there. */
  lemma {:induction false} MetAt<G(!new), A(!new), R>(step: G -> Move<G, A, R>, inside: G -> bool, goal: G,
                                                            n: nat, ref: R)
    returns (at: G, left: nat)
    requires Closed(step, inside) && inside(goal) && EndsIn(step, goal, n) && ref in Chase(step, goal, n).1
    ensures inside(at) && step(at).Then? && step(at).met == Some(ref)
    ensures 1 < left <= n && EndsIn(step, step(at).goal, left - 1)
    decreases n
  {
    EndOfNext(step, goal, n);
    if step(goal).met == Some(ref) {
      at, left := goal, n;
    } else {
      at, left := MetAt(step, inside, step(goal).goal, n - 1, ref);
    }
  }

  lemma SameMoveSameEnd<G, A, R>(step: G -> Move<G, A, R>, g: G, h: G, n: nat, m: nat)
    requires step(g) == step(h) && EndsIn(step, g, n) && EndsIn(step, h, m)
    ensures n == m
  {
    assert EndsIn(step, h, n);
    if n < m {
      ChaseGrows(step, h, n, m - 1);
    } else if m < n {
      ChaseGrows(step, h, m, n - 1);
    }
  }

  /** A chase that ends meets no reference twice, if the reference says how it goes on. */
  lemma {:induction false} EndingMeetsOnce<G(!new), A(!new), R>(step: G -> Move<G, A, R>, inside: G -> bool,
                                                                      goal: G, n: nat)
    requires Closed(step, inside) && Determined(step, inside) && inside(goal) && EndsIn(step, goal, n)
    ensures Distinct(Chase(step, goal, n).1, {})
    decreases n
  {
    if step(goal).Then? {
      var next, refs := step(goal).goal, Chase(step, step(goal).goal, n - 1).1;
      EndOfNext(step, goal, n);
      EndingMeetsOnce(step, inside, next, n - 1);
      if step(goal).met.Some? {
        var ref := step(goal).met.value;
        if ref in refs {
          var at, left := MetAt(step, inside, next, n - 1, ref);
          assert SameMet(step, goal, at);
          SameMoveSameEnd(step, next, step(at).goal, n - 1, left - 1);
          assert false;
        }
        assert Chase(step, goal, n).1 == [ref] + refs;
      } else {
        assert Chase(step, goal, n).1 == refs;
      }
    }
  }

  lemma {:induction false} FirstEnd<G, A, R>(step: G -> Move<G, A, R>, goal: G, n: nat) returns (k: nat)
    requires Chase(step, goal, n).0.Some?
    ensures EndsIn(step, goal, k)
    decreases n
  {
    k := n;
    if Chase(step, goal, n - 1).0.Some? {
      k := FirstEnd(step, goal, n - 1);
    }
  }

  lemma RepeatNeverEnds<G(!new), A(!new), R>(step: G -> Move<G, A, R>, inside: G -> bool, goal: G, n: nat)
    requires Closed(step, inside) && Determined(step, inside) && inside(goal) && MeetsAgain(step, goal, {}, n)
    ensures Endless(step, goal)
  {
    forall m ensures Chase(step, goal, m).0.None? {
      if Chase(step, goal, m).0.Some? {
        var k := FirstEnd(step, goal, m);
        EndingMeetsOnce(step, inside, goal, k);
        AgreeUpTo(step, goal, {}, k, n);
        assert false;
      }
    }
  }

  /** If every move lowers the rank, an answer comes before a reference does again. */
  lemma {:induction false} EndsOrRepeats<G(!new), A(!new), R(!new)>(step: G -> Move<G, A, R>, inside: G -> bool,
                                                                    rank: (G, set<R>) -> (nat, nat),
                                                                    goal: G, seen: set<R>)
    returns (n: nat)
    requires Closed(step, inside) && inside(goal)
    requires forall g, refs :: inside(g) ==> Descends(step, rank, g, refs)
    ensures Distinct(Chase(step, goal, n).1, seen) ==> Chase(step, goal, n).0.Some?
    decreases rank(goal, seen).0, rank(goal, seen).1
  {
    assert Descends(step, rank, goal, seen);
    match step(goal)
    case Done(_) =>
      n := 1;
    case Then(next, None) =>
      var k := EndsOrRepeats(step, inside, rank, next, seen);
      n := k + 1;
      assert Chase(step, goal, n).1 == Chase(step, next, k).1;
    case Then(next, Some(ref)) =>
      if ref in seen {
        n := 1;
        assert Chase(step, goal, n).1 == [ref];
        assert [ref][0] in seen;
      } else {
        var k := EndsOrRepeats(step, inside, rank, next, seen + {ref});
        n := k + 1;
        assert Chase(step, goal, n).1 == [ref] + Chase(step, next, k).1;
        DistinctCons(ref, Chase(step, next, k).1, seen);
      }
  }

  /** Where references say how the chase goes on and ranks descend, it never ends exactly if it meets one again. */
  lemma EndlessExactlyWhen<G(!new), A(!new), R(!new)>(step: G -> Move<G, A, R>, inside: G -> bool,
                                                      rank: (G, set<R>) -> (nat, nat), goal: G)
    requires Closed(step, inside) && Determined(step, inside) && inside(goal)
    requires forall g, refs :: inside(g) ==> Descends(step, rank, g, refs)
    ensures Endless(step, goal) <==> exists n :: MeetsAgain(step, goal, {}, n)
  {
    var k := EndsOrRepeats(step, inside, rank, goal, {});
    if Endless(step, goal) {
      assert MeetsAgain(step, goal, {}, k);
    }
    forall n | MeetsAgain(step, goal, {}, n) ensures Endless(step, goal) {
      RepeatNeverEnds(step, inside, goal, n);
    }
  }
}
