/**
 * custom_minimize: a gradient-free coordinate search over the integer lattice.
 *
 * The objective `fun` is an arbitrary total function from parameter vectors to
 * scores; the extra positional `args` of the Python signature are captured in it.
 */
module Minimize {
  import opened Wrappers

  type Vector = seq<int>
  /** Inclusive per-dimension bounds, `(low, high)`. */
  type Bounds = seq<(int, int)>

  predicate InRange(b: (int, int), x: int)
  {
    b.0 <= x <= b.1
  }

  /** Every coordinate of `v` lies within its dimension's bounds. */
  predicate WithinBounds(v: Vector, bounds: Bounds)
  {
    |v| <= |bounds| && forall d :: 0 <= d < |v| ==> InRange(bounds[d], v[d])
  }

  predicate NoDuplicates<T(==)>(s: seq<T>)
  {
    forall i, j :: 0 <= i < j < |s| ==> s[i] != s[j]
  }

  /** `w` is `v` changed in coordinate `d` and in no other. */
  predicate DiffersOnlyAt(v: Vector, w: Vector, d: int)
  {
    |w| == |v| && 0 <= d < |v| && w[d] != v[d] && w == v[d := w[d]]
  }

  /** Neither unit step in any dimension, where it stays in bounds, scores strictly lower than `v`. */
  predicate LocallyOptimal(fun: Vector -> real, v: Vector, bounds: Bounds)
  {
    && |v| <= |bounds|
    && (forall d :: 0 <= d < |v| && InRange(bounds[d], v[d] - 1) ==> fun(v[d := v[d] - 1]) >= fun(v))
    && (forall d :: 0 <= d < |v| && InRange(bounds[d], v[d] + 1) ==> fun(v[d := v[d] + 1]) >= fun(v))
  }

  /** Both unit steps of dimension `d` that stay in bounds have already been recorded. */
  predicate Explored(v: Vector, d: int, bounds: Bounds, tested: seq<Vector>)
    requires 0 <= d < |v| <= |bounds|
  {
    && (InRange(bounds[d], v[d] - 1) ==> v[d := v[d] - 1] in tested)
    && (InRange(bounds[d], v[d] + 1) ==> v[d := v[d] + 1] in tested)
  }

  function Max(a: int, b: int): int
  {
    if a >= b then a else b
  }

  /**
   * A coordinate of a vector the search builds is either within its bounds or
   * still the guess's own value: only in-bounds values are ever written.
   */
  predicate BoundedOrGuess(t: Vector, guess: Vector, bounds: Bounds)
  {
    |t| == |guess| <= |bounds| && forall d :: 0 <= d < |t| ==> InRange(bounds[d], t[d]) || t[d] == guess[d]
  }

  /**
   * `v` changes one coordinate of the guess, or of a vector in `earlier`, to a
   * value within that coordinate's bounds.
   */
  ghost predicate BuiltFrom(guess: Vector, bounds: Bounds, earlier: seq<Vector>, v: Vector)
  {
    exists o: Vector, d: nat ::
      && (o == guess || o in earlier)
      && d < |guess| <= |bounds|
      && DiffersOnlyAt(o, v, d)
      && InRange(bounds[d], v[d])
  }

  /** Every recorded vector was built, by one in-bounds change, from the guess or from a vector recorded before it. */
  ghost predicate Provenance(guess: Vector, bounds: Bounds, tested: seq<Vector>)
  {
    forall i {:trigger BuiltFrom(guess, bounds, tested[..i], tested[i])} ::
      0 <= i < |tested| ==> BuiltFrom(guess, bounds, tested[..i], tested[i])
  }

  // ---------------------------------------------------------------------------
  // The finite box of vectors the search can build, used to show that it terminates.

  /** The bounds widened, dimension by dimension, to include the guess. */
  function Hull(guess: Vector, bounds: Bounds): (h: Bounds)
    requires |guess| <= |bounds|
    ensures |h| == |guess|
    ensures forall d :: 0 <= d < |guess| ==> InRange(h[d], guess[d])
    ensures forall d, x :: 0 <= d < |guess| && InRange(bounds[d], x) ==> InRange(h[d], x)
  {
    seq(|guess|, d requires 0 <= d < |guess| =>
      (if bounds[d].0 <= guess[d] then bounds[d].0 else guess[d],
       if bounds[d].1 >= guess[d] then bounds[d].1 else guess[d]))
  }

  ghost function Box(bounds: Bounds): (box: set<Vector>)
    decreases |bounds|
  {
    if bounds == [] then {[]}
    else set v, t | bounds[0].0 <= v <= bounds[0].1 && t in Box(bounds[1..]) :: [v] + t
  }

  lemma {:induction false} InBox(t: Vector, bounds: Bounds)
    requires |t| == |bounds| && WithinBounds(t, bounds)
    ensures t in Box(bounds)
    decreases |bounds|
  {
    if bounds != [] {
      InBox(t[1..], bounds[1..]);
      assert t == [t[0]] + t[1..];
    }
  }

  lemma {:induction false} DistinctElementsCount<T>(s: seq<T>)
    requires NoDuplicates(s)
    ensures |set x | x in s| == |s|
  {
    if s != [] {
      var last := s[|s| - 1];
      var init := s[..|s| - 1];
      assert NoDuplicates(init);
      DistinctElementsCount(init);
      assert (set x | x in s) == (set x | x in init) + {last};
      assert last !in (set x | x in init);
    }
  }

  lemma SubsetCardinality<T>(a: set<T>, b: set<T>)
    requires a <= b
    ensures |a| <= |b|
  {
    assert b == a + (b - a);
  }

  /** The search never records more distinct vectors than the hull's box holds. */
  lemma TestedFitsInBox(tested: seq<Vector>, guess: Vector, bounds: Bounds)
    requires |guess| <= |bounds|
    requires NoDuplicates(tested)
    requires forall t :: t in tested ==> BoundedOrGuess(t, guess, bounds)
    ensures |tested| <= |Box(Hull(guess, bounds))|
  {
    var h := Hull(guess, bounds);
    forall t | t in tested ensures t in Box(h) {
      InBox(t, h);
    }
    DistinctElementsCount(tested);
    SubsetCardinality((set x | x in tested), Box(h));
  }

  /** A vector whose every in-bounds unit step was recorded, and scored no lower, is a local optimum. */
  lemma ExploredIsOptimal(fun: Vector -> real, v: Vector, bounds: Bounds, tested: seq<Vector>)
    requires |v| <= |bounds|
    requires forall d :: 0 <= d < |v| ==> Explored(v, d, bounds, tested)
    requires forall t :: t in tested ==> fun(t) >= fun(v)
    ensures LocallyOptimal(fun, v, bounds)
  {
    forall d | 0 <= d < |v| && InRange(bounds[d], v[d] - 1) ensures fun(v[d := v[d] - 1]) >= fun(v) {
      assert Explored(v, d, bounds, tested);
    }
    forall d | 0 <= d < |v| && InRange(bounds[d], v[d] + 1) ensures fun(v[d := v[d] + 1]) >= fun(v) {
      assert Explored(v, d, bounds, tested);
    }
  }

  // ---------------------------------------------------------------------------

  // ---------------------------------------------------------------------------
  // The search as a function of its state: which candidate each trial tries, in
  // which order the trials and the dimensions come, and when a pass ends.

  /** What the search carries from trial to trial: `best_par`, `best_chi_square`, `tested_parameters`, `function_calls`. */
  datatype SearchState = SearchState(best: Vector, bestScore: real, tested: seq<Vector>, calls: nat)

  /** The state before the first pass: the guess, evaluated once, and nothing recorded. */
  function Initial(fun: Vector -> real, guess: Vector): SearchState
  {
    SearchState(guess, fun(guess), [], 1)
  }


  /** What holds of the search state between any two trials. */
  ghost predicate Valid(fun: Vector -> real, guess: Vector, bounds: Bounds, s: SearchState)
  {
    && BoundedOrGuess(s.best, guess, bounds)
    && s.bestScore == fun(s.best)
    && s.bestScore <= fun(guess)
    && s.calls == 1 + |s.tested|
    && NoDuplicates(s.tested)
    && (forall t :: t in s.tested ==> BoundedOrGuess(t, guess, bounds))
    && (forall t :: t in s.tested ==> fun(t) >= s.bestScore)
    && (s.best == guess || s.best in s.tested)
    && Provenance(guess, bounds, s.tested)
  }
  /**
   * The state after trying `step` in dimension `dim`: the candidate is recorded and
   * evaluated when the step is in bounds and the candidate is new, and it becomes
   * the best vector when it scores strictly lower.
   */
  function Trial(fun: Vector -> real, bounds: Bounds, dim: nat, step: int, s: SearchState): (t: SearchState)
    requires dim < |s.best| && dim < |bounds|
    ensures |t.best| == |s.best| && t.bestScore <= s.bestScore
    ensures t.best == s.best || t.best == s.best[dim := step]
  {
    var candidate := s.best[dim := step];
    if InRange(bounds[dim], step) && candidate !in s.tested then
      var score := fun(candidate);
      if score < s.bestScore then SearchState(candidate, score, s.tested + [candidate], s.calls + 1)
      else SearchState(s.best, s.bestScore, s.tested + [candidate], s.calls + 1)
    else s
  }

  /** One dimension: first `best[dim] - 1`, then `best[dim] + 1`, both taken from the best vector on entry. */
  function DimensionTrials(fun: Vector -> real, bounds: Bounds, dim: nat, s: SearchState): (t: SearchState)
    requires dim < |s.best| && dim < |bounds|
    ensures |t.best| == |s.best| && t.bestScore <= s.bestScore
  {
    Trial(fun, bounds, dim, s.best[dim] + 1, Trial(fun, bounds, dim, s.best[dim] - 1, s))
  }

  datatype PassResult = PassResult(state: SearchState, improved: bool, stop: bool)

  predicate BudgetReached(maxCalls: Option<int>, calls: nat)
  {
    maxCalls.Some? && calls >= maxCalls.value
  }

  /** Whether the outer loop goes on after a pass: it improved and the budget did not stop it. */
  predicate Continues(r: PassResult)
  {
    r.improved && !r.stop
  }

  /**
   * The rest of a pass from dimension `dim` on, in increasing order, with the
   * budget checked after each dimension; `improved` records whether an earlier
   * dimension of the pass lowered the best score.
   */
  function PassFrom(fun: Vector -> real, maxCalls: Option<int>, bounds: Bounds,
                    dim: nat, s: SearchState, improved: bool): (r: PassResult)
    requires dim <= |s.best| <= |bounds|
    ensures |r.state.best| == |s.best|
    decreases |s.best| - dim
  {
    if dim == |s.best| then PassResult(s, improved, false)
    else
      var t := DimensionTrials(fun, bounds, dim, s);
      var improvedNow := improved || t.bestScore < s.bestScore;
      if BudgetReached(maxCalls, t.calls) then PassResult(t, improvedNow, true)
      else PassFrom(fun, maxCalls, bounds, dim + 1, t, improvedNow)
  }

  /** One whole pass of the outer loop. */
  function Pass(fun: Vector -> real, maxCalls: Option<int>, bounds: Bounds, s: SearchState): (r: PassResult)
    requires |s.best| <= |bounds|
    ensures |r.state.best| == |s.best|
  {
    PassFrom(fun, maxCalls, bounds, 0, s, false)
  }

  /**
   * `trace` is a complete run of the search: it starts from the initial state,
   * each entry is the pass result of the one before, every pass but the last
   * lets the loop go on, and the last one ends it.
   */
  predicate IsRun(fun: Vector -> real, guess: Vector, maxCalls: Option<int>, bounds: Bounds, trace: seq<SearchState>)
  {
    && |trace| >= 2
    && trace[0] == Initial(fun, guess)
    && (forall k :: 0 <= k < |trace| ==> |trace[k].best| == |guess| <= |bounds|)
    && (forall k :: 0 <= k < |trace| - 1 ==> Pass(fun, maxCalls, bounds, trace[k]).state == trace[k + 1])
    && (forall k :: 0 <= k < |trace| - 2 ==> Continues(Pass(fun, maxCalls, bounds, trace[k])))
    && !Continues(Pass(fun, maxCalls, bounds, trace[|trace| - 2]))
  }


  // ---------------------------------------------------------------------------
  // What the trials, the dimensions and the passes do to the state.

  /**
   * A trial keeps the invariant: the candidate it records is new, in bounds where
   * it was changed, built from the best vector, and becomes the best vector only
   * when it scores strictly lower than everything recorded so far.
   */
  lemma TrialKeepsValid(fun: Vector -> real, guess: Vector, bounds: Bounds, dim: nat, step: int, s: SearchState)
    requires Valid(fun, guess, bounds, s)
    requires dim < |guess| && step != s.best[dim]
    ensures Valid(fun, guess, bounds, Trial(fun, bounds, dim, step, s))
  {
    var candidate := s.best[dim := step];
    if InRange(bounds[dim], step) && candidate !in s.tested {
      var tested := s.tested + [candidate];
      ProvenanceExtends(guess, bounds, s.tested, s.best, dim, candidate);
      AppendKeepsNoDuplicates(s.tested, candidate);
      assert BoundedOrGuess(candidate, guess, bounds);
      assert forall t :: t in tested ==> t in s.tested || t == candidate;
      if fun(candidate) < s.bestScore {
        assert Trial(fun, bounds, dim, step, s) == SearchState(candidate, fun(candidate), tested, s.calls + 1);
      } else {
        assert Trial(fun, bounds, dim, step, s) == SearchState(s.best, s.bestScore, tested, s.calls + 1);
      }
    }
  }

  /** Appending a vector built from a recorded vector, or from the guess, keeps the provenance of the record. */
  lemma ProvenanceExtends(guess: Vector, bounds: Bounds, tested: seq<Vector>, origin: Vector, dim: nat, v: Vector)
    requires Provenance(guess, bounds, tested)
    requires origin == guess || origin in tested
    requires dim < |guess| <= |bounds| && DiffersOnlyAt(origin, v, dim) && InRange(bounds[dim], v[dim])
    ensures Provenance(guess, bounds, tested + [v])
  {
    var tested' := tested + [v];
    forall i | 0 <= i < |tested'|
      ensures BuiltFrom(guess, bounds, tested'[..i], tested'[i])
    {
      if i < |tested| {
        assert tested'[..i] == tested[..i];
      } else {
        assert tested'[..i] == tested;
      }
    }
  }

  lemma AppendKeepsNoDuplicates<T>(s: seq<T>, x: T)
    requires NoDuplicates(s) && x !in s
    ensures NoDuplicates(s + [x])
  {
    forall i, j | 0 <= i < j < |s| + 1 ensures (s + [x])[i] != (s + [x])[j] {
      if j == |s| {
        assert (s + [x])[i] == s[i];
      }
    }
  }

  /** Both trials of a dimension keep the invariant. */
  lemma DimensionTrialsKeepValid(fun: Vector -> real, guess: Vector, bounds: Bounds, dim: nat, s: SearchState)
    requires Valid(fun, guess, bounds, s)
    requires dim < |guess|
    ensures Valid(fun, guess, bounds, DimensionTrials(fun, bounds, dim, s))
  {
    var m := Trial(fun, bounds, dim, s.best[dim] - 1, s);
    TrialKeepsValid(fun, guess, bounds, dim, s.best[dim] - 1, s);
    assert m.best[dim] != s.best[dim] + 1;
    TrialKeepsValid(fun, guess, bounds, dim, s.best[dim] + 1, m);
    assert DimensionTrials(fun, bounds, dim, s) == Trial(fun, bounds, dim, s.best[dim] + 1, m);
  }

  /** A pass keeps the invariant. */
  lemma {:induction false} PassFromKeepsValid(fun: Vector -> real, guess: Vector, maxCalls: Option<int>, bounds: Bounds,
                                              dim: nat, s: SearchState, improved: bool)
    requires Valid(fun, guess, bounds, s)
    requires dim <= |guess|
    ensures Valid(fun, guess, bounds, PassFrom(fun, maxCalls, bounds, dim, s, improved).state)
    decreases |guess| - dim
  {
    if dim < |guess| {
      var t := DimensionTrials(fun, bounds, dim, s);
      DimensionTrialsKeepValid(fun, guess, bounds, dim, s);
      if !BudgetReached(maxCalls, t.calls) {
        PassFromKeepsValid(fun, guess, maxCalls, bounds, dim + 1, t, improved || t.bestScore < s.bestScore);
      }
    }
  }

  /**
   * What one trial does to the record: the candidate is appended exactly when its
   * step is in bounds and it is new, an in-bounds candidate is recorded afterwards
   * in any case, and the best vector changes only to a newly recorded, strictly
   * better candidate.
   */
  lemma TrialFacts(fun: Vector -> real, bounds: Bounds, dim: nat, step: int, s: SearchState)
    requires dim < |s.best| <= |bounds|
    ensures var t := Trial(fun, bounds, dim, step, s);
            var candidate := s.best[dim := step];
            && |s.tested| <= |t.tested| <= |s.tested| + 1 && t.tested[..|s.tested|] == s.tested
            && (|t.tested| > |s.tested| <==> InRange(bounds[dim], step) && candidate !in s.tested)
            && (|t.tested| > |s.tested| ==> t.tested[|s.tested|] == candidate)
            && (InRange(bounds[dim], step) ==> candidate in t.tested)
            && t.calls == s.calls + (|t.tested| - |s.tested|)
            && (t.bestScore < s.bestScore <==> |t.tested| > |s.tested| && fun(candidate) < s.bestScore)
            && t.best == (if t.bestScore < s.bestScore then candidate else s.best)
  {
    var t := Trial(fun, bounds, dim, step, s);
    var candidate := s.best[dim := step];
    if InRange(bounds[dim], step) && candidate !in s.tested {
      assert t.tested == s.tested + [candidate];
      assert t.tested[..|s.tested|] == s.tested;
    }
  }

  /** What one dimension's two trials do to the record: it grows by at most two, and an unchanged score means the dimension was explored. */
  lemma DimensionTrialsFacts(fun: Vector -> real, bounds: Bounds, dim: nat, s: SearchState)
    requires dim < |s.best| <= |bounds|
    ensures var t := DimensionTrials(fun, bounds, dim, s);
            && |s.tested| <= |t.tested| <= |s.tested| + 2 && t.tested[..|s.tested|] == s.tested
            && t.calls == s.calls + (|t.tested| - |s.tested|)
            && (t.bestScore < s.bestScore ==> |t.tested| > |s.tested|)
            && (t.bestScore == s.bestScore ==> t.best == s.best && Explored(s.best, dim, bounds, t.tested))
  {
    var m := Trial(fun, bounds, dim, s.best[dim] - 1, s);
    var t := Trial(fun, bounds, dim, s.best[dim] + 1, m);
    TrialFacts(fun, bounds, dim, s.best[dim] - 1, s);
    TrialFacts(fun, bounds, dim, s.best[dim] + 1, m);
    assert DimensionTrials(fun, bounds, dim, s) == t;
    PrefixOfPrefix(s.tested, m.tested, t.tested);
    if t.bestScore == s.bestScore {
      assert m.bestScore == s.bestScore && m.best == s.best;
      PrefixKeepsMembers(m.tested, t.tested);
    }
  }

  /** A prefix's elements are elements of the whole sequence. */
  lemma PrefixKeepsMembers<T>(before: seq<T>, after: seq<T>)
    requires |before| <= |after| && after[..|before|] == before
    ensures forall t :: t in before ==> t in after
  {
    forall t | t in before ensures t in after {
      var i :| 0 <= i < |before| && before[i] == t;
      assert after[i] == t;
    }
  }

  lemma PrefixOfPrefix<T>(a: seq<T>, b: seq<T>, c: seq<T>)
    requires |a| <= |b| && b[..|a|] == a
    requires |b| <= |c| && c[..|b|] == b
    ensures c[..|a|] == a
  {
    assert c[..|a|] == c[..|b|][..|a|];
  }


  /**
   * What a pass does to the record: it only appends; it reports an improvement
   * only when it recorded something; a pass without improvement leaves the best
   * vector as it was, and if the budget did not cut it short, every dimension
   * from `dim` on has had both its in-bounds unit steps recorded.
   */
  lemma {:induction false} PassFromFacts(fun: Vector -> real, maxCalls: Option<int>, bounds: Bounds,
                                         dim: nat, s: SearchState, improved: bool)
    requires dim <= |s.best| <= |bounds|
    ensures var r := PassFrom(fun, maxCalls, bounds, dim, s, improved);
            && |s.tested| <= |r.state.tested| && r.state.tested[..|s.tested|] == s.tested
            && (r.improved ==> improved || |r.state.tested| > |s.tested|)
            && (!r.improved ==> !improved && r.state.best == s.best && r.state.bestScore == s.bestScore)
            && (!r.improved && !r.stop ==>
                  forall d :: dim <= d < |s.best| ==> Explored(s.best, d, bounds, r.state.tested))
    decreases |s.best| - dim
  {
    if dim < |s.best| {
      var t := DimensionTrials(fun, bounds, dim, s);
      var improvedNow := improved || t.bestScore < s.bestScore;
      DimensionTrialsFacts(fun, bounds, dim, s);
      if !BudgetReached(maxCalls, t.calls) {
        var r := PassFrom(fun, maxCalls, bounds, dim + 1, t, improvedNow);
        PassFromFacts(fun, maxCalls, bounds, dim + 1, t, improvedNow);
        PrefixOfPrefix(s.tested, t.tested, r.state.tested);
        if !r.improved && !r.stop {
          PrefixKeepsMembers(t.tested, r.state.tested);
          assert Explored(s.best, dim, bounds, r.state.tested);
        }
      }
    }
  }


  /**
   * The budget inside a pass: a pass stops early only once the call count has
   * reached the budget; otherwise the count stays below it (or at the initial
   * evaluation). Since a dimension spends at most two calls and the budget test follows
   * each dimension, the count exceeds the budget by at most one, and never goes
   * past three when the budget is below two.
   */
  lemma {:induction false} PassFromBudget(fun: Vector -> real, maxCalls: Option<int>, bounds: Bounds,
                                          dim: nat, s: SearchState, improved: bool)
    requires dim <= |s.best| <= |bounds|
    requires maxCalls.Some? ==> s.calls < maxCalls.value || s.calls == 1
    ensures var r := PassFrom(fun, maxCalls, bounds, dim, s, improved);
            && (r.stop ==> BudgetReached(maxCalls, r.state.calls))
            && (maxCalls.Some? && !r.stop ==> r.state.calls < maxCalls.value || r.state.calls == 1)
            && (maxCalls.Some? ==> r.state.calls <= Max(maxCalls.value + 1, 3))
    decreases |s.best| - dim
  {
    if dim < |s.best| {
      var t := DimensionTrials(fun, bounds, dim, s);
      DimensionTrialsFacts(fun, bounds, dim, s);
      if !BudgetReached(maxCalls, t.calls) {
        PassFromBudget(fun, maxCalls, bounds, dim + 1, t, improved || t.bestScore < s.bestScore);
      }
    }
  }

  // ---------------------------------------------------------------------------
  // The search itself, proved to compute the functions above.

  /**
   * One trial: the candidate `best[dim := step]` is evaluated only when `step`
   * lies within the bounds of `dim` and the whole candidate vector has not been
   * recorded yet; it is recorded before it is evaluated, and it becomes the best
   * vector only if it scores strictly lower.
   */
  method Propose(fun: Vector -> real, bounds: Bounds, dim: nat, step: int,
                 best: Vector, bestScore: real, tested: seq<Vector>, calls: nat)
    returns (best': Vector, bestScore': real, tested': seq<Vector>, calls': nat, better: bool)
    requires dim < |best| && dim < |bounds|
    ensures better <==> bestScore' < bestScore
    ensures SearchState(best', bestScore', tested', calls') ==
            Trial(fun, bounds, dim, step, SearchState(best, bestScore, tested, calls))
  {
    best', bestScore', tested', calls', better := best, bestScore, tested, calls, false;
    if bounds[dim].0 <= step <= bounds[dim].1 {
      var testPar := best[dim := step];
      if testPar !in tested {
        tested' := tested + [testPar];
        var testScore := fun(testPar);
        calls' := calls + 1;
        if testScore < bestScore {
          bestScore' := testScore;
          best' := testPar;
          better := true;
        }
      }
    }
  }

  /**
   * The two trials of one dimension: `best[dim] - 1`, then `best[dim] + 1`, both
   * computed before either trial, so that after a successful first trial the
   * second candidate lies two away from the new best value.
   */
  method ExploreDimension(fun: Vector -> real, bounds: Bounds, dim: nat,
                          best: Vector, bestScore: real, tested: seq<Vector>, calls: nat)
    returns (best': Vector, bestScore': real, tested': seq<Vector>, calls': nat, better: bool)
    requires dim < |best| && dim < |bounds|
    ensures better <==> bestScore' < bestScore
    ensures SearchState(best', bestScore', tested', calls') ==
            DimensionTrials(fun, bounds, dim, SearchState(best, bestScore, tested, calls))
  {
    var steps := [best[dim] - 1, best[dim] + 1];
    var best1, score1, tested1, calls1, better1 := Propose(fun, bounds, dim, steps[0], best, bestScore, tested, calls);
    var better2;
    best', bestScore', tested', calls', better2 := Propose(fun, bounds, dim, steps[1], best1, score1, tested1, calls1);
    better := better1 || better2;
  }

  /**
   * One pass of the outer loop: every dimension in increasing order, with the
   * budget checked after each dimension. `stop` is set, and the pass cut short,
   * as soon as the call count reaches the budget.
   */
  method Sweep(fun: Vector -> real, guess: Vector, maxCalls: Option<int>, bounds: Bounds,
               best: Vector, bestScore: real, tested: seq<Vector>, calls: nat)
    returns (best': Vector, bestScore': real, tested': seq<Vector>, calls': nat, improved: bool, stop: bool)
    requires |best| == |guess| <= |bounds|
    ensures PassResult(SearchState(best', bestScore', tested', calls'), improved, stop) ==
            Pass(fun, maxCalls, bounds, SearchState(best, bestScore, tested, calls))
  {
    best', bestScore', tested', calls', improved, stop := best, bestScore, tested, calls, false, false;
    for dim := 0 to |guess|
      invariant |best'| == |guess|
      invariant !stop
      invariant PassFrom(fun, maxCalls, bounds, dim, SearchState(best', bestScore', tested', calls'), improved) ==
                Pass(fun, maxCalls, bounds, SearchState(best, bestScore, tested, calls))
    {
      var better;
      best', bestScore', tested', calls', better := ExploreDimension(fun, bounds, dim, best', bestScore', tested', calls');
      improved := improved || better;
      if maxCalls.Some? && calls' >= maxCalls.value {
        stop := true;
        break;
      }
    }
  }

  /**
   * The passes so far: `trace` starts from the initial state, each entry is the
   * pass result of the one before, every pass but the latest let the loop go on,
   * and `improved` and `stop` are the latest pass's flags (both start as the
   * Python's `True` and `False`).
   */
  ghost predicate RunSoFar(fun: Vector -> real, guess: Vector, maxCalls: Option<int>, bounds: Bounds,
                           trace: seq<SearchState>, improved: bool, stop: bool)
  {
    && |trace| >= 1
    && trace[0] == Initial(fun, guess)
    && (forall k :: 0 <= k < |trace| ==> |trace[k].best| == |guess| <= |bounds|)
    && (forall k :: 0 <= k < |trace| - 1 ==> Pass(fun, maxCalls, bounds, trace[k]).state == trace[k + 1])
    && (forall k :: 0 <= k < |trace| - 2 ==> Continues(Pass(fun, maxCalls, bounds, trace[k])))
    && (|trace| == 1 ==> improved && !stop)
    && (|trace| >= 2 ==> PassResult(trace[|trace| - 1], improved, stop) == Pass(fun, maxCalls, bounds, trace[|trace| - 2]))
  }

  /**
   * What one pass of the outer loop guarantees: it keeps the invariant, it
   * reports an improvement only when it recorded something new, a pass without
   * improvement leaves the best vector where it was, and if the budget did not
   * cut it short, that vector has had every in-bounds unit step recorded.
   */
  lemma PassStep(fun: Vector -> real, guess: Vector, maxCalls: Option<int>, bounds: Bounds, s: SearchState)
    requires Valid(fun, guess, bounds, s)
    requires maxCalls.Some? ==> s.calls < maxCalls.value || s.calls == 1
    ensures var r := Pass(fun, maxCalls, bounds, s);
            && Valid(fun, guess, bounds, r.state)
            && |s.tested| <= |r.state.tested|
            && (r.improved ==> |r.state.tested| > |s.tested|)
            && (!r.improved ==> r.state.best == s.best)
            && (!r.improved && !r.stop ==>
                  forall d :: 0 <= d < |guess| ==> Explored(r.state.best, d, bounds, r.state.tested))
            && (r.stop ==> BudgetReached(maxCalls, r.state.calls))
            && (maxCalls.Some? && !r.stop ==> r.state.calls < maxCalls.value || r.state.calls == 1)
            && (maxCalls.Some? ==> r.state.calls <= Max(maxCalls.value + 1, 3))
  {
    PassFromKeepsValid(fun, guess, maxCalls, bounds, 0, s, false);
    PassFromFacts(fun, maxCalls, bounds, 0, s, false);
    PassFromBudget(fun, maxCalls, bounds, 0, s, false);
  }

  /** A pass that the loop condition lets run extends the run so far by its result. */
  lemma RunSoFarExtends(fun: Vector -> real, guess: Vector, maxCalls: Option<int>, bounds: Bounds,
                        trace: seq<SearchState>, improved: bool, stop: bool, r: PassResult)
    requires RunSoFar(fun, guess, maxCalls, bounds, trace, improved, stop)
    requires improved && !stop
    requires r == Pass(fun, maxCalls, bounds, trace[|trace| - 1])
    ensures RunSoFar(fun, guess, maxCalls, bounds, trace + [r.state], r.improved, r.stop)
  {
    var trace' := trace + [r.state];
    assert forall k :: 0 <= k < |trace| ==> trace'[k] == trace[k];
  }

  /** When the loop condition fails, the run so far is a complete run. */
  lemma RunSoFarEnds(fun: Vector -> real, guess: Vector, maxCalls: Option<int>, bounds: Bounds,
                     trace: seq<SearchState>, improved: bool, stop: bool)
    requires RunSoFar(fun, guess, maxCalls, bounds, trace, improved, stop)
    requires !(improved && !stop)
    ensures IsRun(fun, guess, maxCalls, bounds, trace)
  {
  }

  /**
   * The search. Besides the best vector it returns the list of recorded vectors
   * (`tested_parameters`, in the order the objective saw them) and the final
   * value of the call counter; in the Python these two are locals. The ghost
   * `trace` holds the state after each pass.
   */
  method CustomMinimize(fun: Vector -> real, guess: Vector, maxCalls: Option<int>, bounds: Bounds)
    returns (best: Vector, tested: seq<Vector>, calls: nat, ghost trace: seq<SearchState>)
    requires |guess| <= |bounds|
    // The run is exactly the sequence of passes, from the guess until a pass that
    // did not improve or that hit the budget.
    ensures IsRun(fun, guess, maxCalls, bounds, trace)
    ensures trace[|trace| - 1] == SearchState(best, fun(best), tested, calls)
    // Each recorded vector is recorded once, and changes one coordinate of the
    // guess or of an earlier recorded vector to an in-bounds value; the counter
    // counts the initial evaluation plus one per recorded vector.
    ensures calls == 1 + |tested|
    ensures NoDuplicates(tested)
    ensures Provenance(guess, bounds, tested)
    ensures forall t :: t in tested ==> BoundedOrGuess(t, guess, bounds)
    ensures WithinBounds(guess, bounds) ==> forall t :: t in tested ==> WithinBounds(t, bounds)
    // The result is the guess or a recorded vector, so it is in bounds whenever the guess is,
    // it scores no worse than the guess, and no worse than anything evaluated.
    ensures |best| == |guess|
    ensures best == guess || best in tested
    ensures WithinBounds(guess, bounds) ==> WithinBounds(best, bounds)
    ensures fun(best) <= fun(guess)
    ensures forall t :: t in tested ==> fun(best) <= fun(t)
    // Unless the budget ended the search, the result is a local optimum.
    ensures (maxCalls.None? || calls < maxCalls.value) ==> LocallyOptimal(fun, best, bounds)
    // The budget is checked only after each dimension, so it may be overshot.
    ensures maxCalls.Some? ==> calls <= Max(maxCalls.value + 1, 3)
  {
    best := guess;
    var bestScore := fun(best);
    calls := 1;
    var improved := true;
    var stop := false;
    tested := [];
    trace := [SearchState(best, bestScore, tested, calls)];
    TestedFitsInBox(tested, guess, bounds);

    while improved && !stop
      invariant Valid(fun, guess, bounds, SearchState(best, bestScore, tested, calls))
      invariant |tested| <= |Box(Hull(guess, bounds))|
      invariant RunSoFar(fun, guess, maxCalls, bounds, trace, improved, stop)
      invariant trace[|trace| - 1] == SearchState(best, bestScore, tested, calls)
      invariant stop ==> BudgetReached(maxCalls, calls)
      invariant !stop && !improved ==> forall d :: 0 <= d < |guess| ==> Explored(best, d, bounds, tested)
      invariant maxCalls.Some? && !stop ==> calls < maxCalls.value || calls == 1
      invariant maxCalls.Some? ==> calls <= Max(maxCalls.value + 1, 3)
      decreases |Box(Hull(guess, bounds))| - |tested|, improved
    {
      ghost var before := SearchState(best, bestScore, tested, calls);
      ghost var traceBefore, improvedBefore, stopBefore := trace, improved, stop;
      best, bestScore, tested, calls, improved, stop := Sweep(fun, guess, maxCalls, bounds, best, bestScore, tested, calls);
      ghost var r := PassResult(SearchState(best, bestScore, tested, calls), improved, stop);
      PassStep(fun, guess, maxCalls, bounds, before);
      TestedFitsInBox(tested, guess, bounds);
      trace := trace + [r.state];
      RunSoFarExtends(fun, guess, maxCalls, bounds, traceBefore, improvedBefore, stopBefore, r);
    }
    RunSoFarEnds(fun, guess, maxCalls, bounds, trace, improved, stop);
    if maxCalls.None? || calls < maxCalls.value {
      ExploredIsOptimal(fun, best, bounds, tested);
    }
  }

  // ---------------------------------------------------------------------------
  // The calibration scenario: a parabola with its minimum at 113.

  function Parabola(p: Vector): real
  {
    if |p| == 1 then ((p[0] - 113) * (p[0] - 113)) as real else 0.0
  }

  /** Away from the vertex, a unit step towards it lowers the parabola. */
  lemma ParabolaDescends(x: int)
    ensures x > 113 ==> Parabola([x - 1]) < Parabola([x])
    ensures x < 113 ==> Parabola([x + 1]) < Parabola([x])
  {
    assert (x - 113) * (x - 113) == (x - 114) * (x - 114) + 2 * (x - 113) - 1;
    assert (x - 113) * (x - 113) == (x - 112) * (x - 112) + 2 * (113 - x) - 1;
  }

  /** On [80, 140] the only local optimum of the parabola is its vertex. */
  lemma ParabolaLocalOptimum(r: Vector)
    requires |r| == 1 && WithinBounds(r, [(80, 140)])
    requires LocallyOptimal(Parabola, r, [(80, 140)])
    ensures r == [113]
  {
    var x := r[0];
    assert r == [x] && r[0 := x - 1] == [x - 1] && r[0 := x + 1] == [x + 1];
    ParabolaDescends(x);
  }

  /** The search started at 130 on [80, 140] with no budget converges to 113. */
  method CalibrationScenario() returns (best: Vector)
    ensures best == [113]
  {
    var tested, calls;
    ghost var trace;
    best, tested, calls, trace := CustomMinimize(Parabola, [130], None, [(80, 140)]);
    ParabolaLocalOptimum(best);
  }
}

