/** The random rule selector of adaptive dialogs (`RandomSelector`).

    Given the ordered rules of a planning cycle, a selector picks at most one
    rule index to run next: every rule is eligible, or, when the selector
    evaluates guards, only the rules whose guard evaluates to `true` against
    the dialog state; the winner is drawn from the eligible indices with the
    selector's own pseudo-random generator. */
module Selectors {
  import opened RandomNumbers

  datatype Option<+T> = None | Some(value: T)

  datatype Result<+T, +E> = Ok(value: T) | Err(error: E)

  /** What a guard expression evaluates to when it raises no error: a boolean,
      or anything else (a number, a string, null, ...). */
  datatype Value = Bool(b: bool) | NonBool

  /** The pair `(value, error)` that `TryEvaluate` returns, as a tagged result. */
  datatype GuardResult = EvalError | EvalValue(value: Value)

  /** `Select` throws while testing rule `index`: its guard produced, without
      error, a value that the cast to `bool` rejects. */
  datatype SelectError = InvalidCast(index: nat)

  /** The eligibility test of one guard: `Some(b)` when it yields `b`, `None`
      when casting the value to `bool` throws. An evaluation error makes the
      test `false` before any cast is attempted. */
  function Verdict(g: GuardResult): (r: Option<bool>)
    ensures r == Some(true) <==> g == EvalValue(Bool(true))
    ensures r == None <==> g == EvalValue(NonBool)
  {
    match g
    case EvalError => Some(false)
    case EvalValue(Bool(b)) => Some(b)
    case EvalValue(NonBool) => None
  }

  /** The candidate list after the scan has looked at the first `n` rules: the
      indices appended so far, or the failure of the cast on the way. */
  function CandidatesUpTo<R, S>(rules: seq<R>, n: nat, evaluate: bool,
                                eval: (R, S) -> GuardResult, state: S)
    : (r: Result<seq<nat>, SelectError>)
    requires n <= |rules|
    ensures r.Ok? ==> |r.value| <= n
    ensures r.Err? ==> evaluate && r.error.index < n
    ensures !evaluate ==> r.Ok? && |r.value| == n
    decreases n
  {
    if n == 0 then Ok([])
    else
      match CandidatesUpTo(rules, n - 1, evaluate, eval, state)
      case Err(e) => Err(e)
      case Ok(c) =>
        if !evaluate then Ok(c + [n - 1])
        else
          match Verdict(eval(rules[n - 1], state))
          case None => Err(InvalidCast(n - 1))
          case Some(b) => Ok(if b then c + [n - 1] else c)
  }

  /** The candidate list of a whole scan: strictly ascending rule indices,
      all of them when guards are not evaluated. */
  function Candidates<R, S>(rules: seq<R>, evaluate: bool, eval: (R, S) -> GuardResult, state: S)
    : (r: Result<seq<nat>, SelectError>)
    ensures !evaluate ==> r == Ok(Indices(|rules|))
    ensures r.Ok? ==> forall j, l :: 0 <= j < l < |r.value| ==> r.value[j] < r.value[l]
    ensures r.Ok? ==> forall j :: 0 <= j < |r.value| ==> r.value[j] < |rules|
  {
    var r := CandidatesUpTo(rules, |rules|, evaluate, eval, state);
    if !evaluate then
      CandidatesWithoutEvaluation(rules, |rules|, eval, state);
      r
    else if r.Ok? then
      CandidatesAscending(rules, |rules|, evaluate, eval, state, r.value);
      r
    else r
  }

  /** Once the cast has failed, scanning further rules keeps that failure. */
  lemma {:induction false} FailureIsFinal<R, S>(rules: seq<R>, i: nat, n: nat, evaluate: bool,
                                                eval: (R, S) -> GuardResult, state: S)
    requires i <= n <= |rules|
    requires CandidatesUpTo(rules, i, evaluate, eval, state).Err?
    ensures CandidatesUpTo(rules, n, evaluate, eval, state) == CandidatesUpTo(rules, i, evaluate, eval, state)
    decreases n
  {
    if i < n {
      FailureIsFinal(rules, i, n - 1, evaluate, eval, state);
    }
  }

  /** Candidates are appended in strictly ascending index order, and each is
      the index of a rule already scanned. */
  lemma {:induction false} CandidatesAscending<R, S>(rules: seq<R>, n: nat, evaluate: bool,
                                                     eval: (R, S) -> GuardResult, state: S, c: seq<nat>)
    requires n <= |rules|
    requires CandidatesUpTo(rules, n, evaluate, eval, state) == Ok(c)
    ensures forall j, l :: 0 <= j < l < |c| ==> c[j] < c[l]
    ensures forall j :: 0 <= j < |c| ==> c[j] < n
    decreases n
  {
    if n > 0 {
      var prev := CandidatesUpTo(rules, n - 1, evaluate, eval, state);
      if prev.Ok? {
        CandidatesAscending(rules, n - 1, evaluate, eval, state, prev.value);
      }
    }
  }

  /** The indices `0, 1, ..., n - 1` in ascending order. */
  function Indices(n: nat): (r: seq<nat>)
    ensures |r| == n && forall i :: 0 <= i < n ==> r[i] == i
  {
    seq(n, i => i)
  }

  /** Without guard evaluation the scan never fails and every index up to `n`
      is a candidate, in order. */
  lemma {:induction false} CandidatesWithoutEvaluation<R, S>(rules: seq<R>, n: nat,
                                                             eval: (R, S) -> GuardResult, state: S)
    requires n <= |rules|
    ensures CandidatesUpTo(rules, n, false, eval, state) == Ok(Indices(n))
    decreases n
  {
    if n > 0 {
      CandidatesWithoutEvaluation(rules, n - 1, eval, state);
      assert Indices(n - 1) + [n - 1] == Indices(n);
    }
  }

  /** With guard evaluation, an index is a candidate exactly when its guard
      evaluated without error to `true`; in particular a guard that reports an
      error is never a candidate. */
  lemma {:induction false} CandidateIffGuardTrue<R, S>(rules: seq<R>, n: nat,
                                                       eval: (R, S) -> GuardResult, state: S, c: seq<nat>)
    requires n <= |rules|
    requires CandidatesUpTo(rules, n, true, eval, state) == Ok(c)
    ensures forall i :: 0 <= i < n ==> (i in c <==> eval(rules[i], state) == EvalValue(Bool(true)))
    ensures forall i :: 0 <= i < n && eval(rules[i], state) == EvalError ==> i !in c
    decreases n
  {
    if n > 0 {
      var prev := CandidatesUpTo(rules, n - 1, true, eval, state);
      if prev.Ok? {
        CandidateIffGuardTrue(rules, n - 1, eval, state, prev.value);
        CandidatesAscending(rules, n - 1, true, eval, state, prev.value);
        assert n - 1 !in prev.value;
      }
    }
  }

  /** With guard evaluation, the scan fails exactly when some scanned guard
      yields a non-boolean value without error, and it fails at the first such
      rule. Without guard evaluation it never fails. */
  lemma {:induction false} CastFailureAtFirstNonBool<R, S>(rules: seq<R>, n: nat, evaluate: bool,
                                                           eval: (R, S) -> GuardResult, state: S)
    requires n <= |rules|
    ensures CandidatesUpTo(rules, n, evaluate, eval, state).Err?
        <==> evaluate && exists i :: 0 <= i < n && eval(rules[i], state) == EvalValue(NonBool)
    ensures CandidatesUpTo(rules, n, evaluate, eval, state).Err? ==>
        var i := CandidatesUpTo(rules, n, evaluate, eval, state).error.index;
        i < n && eval(rules[i], state) == EvalValue(NonBool) &&
        forall j :: 0 <= j < i ==> eval(rules[j], state) != EvalValue(NonBool)
    decreases n
  {
    if n > 0 {
      CastFailureAtFirstNonBool(rules, n - 1, evaluate, eval, state);
    }
  }

  /** Lines 68-73: the result list and the generator afterwards. No candidate
      gives an empty list and leaves the generator alone; otherwise one draw
      `k` in `[0, |c|)` picks `c[k]`. */
  function Choose(draw: Draw, c: seq<nat>, g: Random): (r: (seq<nat>, Random))
    ensures |r.0| <= 1
    ensures r.0 == [] <==> c == []
    ensures c == [] ==> r.1 == g
    ensures c != [] ==> exists k :: 0 <= k < |c| && r.0 == [c[k]] && r == ([c[k]], Next(draw, g, |c|).1)
  {
    if |c| == 0 then ([], g)
    else
      var (k, g') := Next(draw, g, |c|);
      ([c[k]], g')
  }

  /** The whole of `Select` on values: the result and the generator afterwards.
      The generator moves on by exactly one draw when an index is selected, and
      not at all otherwise. */
  function Selection<R, S>(draw: Draw, rules: seq<R>, evaluate: bool, g: Random,
                           eval: (R, S) -> GuardResult, state: S)
    : (r: (Result<seq<nat>, SelectError>, Random))
    ensures r.0.Ok? ==> |r.0.value| <= 1
    ensures (r.0.Err? || r.0.value == []) ==> r.1 == g
    ensures r.0.Ok? && r.0.value != [] ==> r.1.origin == g.origin && r.1.drawn == g.drawn + 1
  {
    match Candidates(rules, evaluate, eval, state)
    case Err(e) => (Err(e), g)
    case Ok(c) =>
      var (picked, g') := Choose(draw, c, g);
      (Ok(picked), g')
  }

  /** Successive selections, one per dialog state in `states`, starting from
      generator `g`: their results in order and the generator afterwards. */
  function Replay<R, S>(draw: Draw, rules: seq<R>, evaluate: bool, g: Random,
                        eval: (R, S) -> GuardResult, states: seq<S>)
    : (r: (seq<Result<seq<nat>, SelectError>>, Random))
    ensures |r.0| == |states|
    ensures forall i :: 0 <= i < |states| ==> r.0[i].Ok? ==> |r.0[i].value| <= 1
    decreases |states|
  {
    if states == [] then ([], g)
    else
      var (first, g') := Selection(draw, rules, evaluate, g, eval, states[0]);
      var (rest, g'') := Replay(draw, rules, evaluate, g', eval, states[1..]);
      ([first] + rest, g'')
  }

  /** What a selection promises: at most one index, a valid rule index, drawn
      only from eligible rules; without guard evaluation the result is empty
      exactly when there are no rules; with it, empty exactly when no guard
      evaluated to `true`. A failed cast leaves the generator as it was. */
  lemma SelectionProperties<R, S>(draw: Draw, rules: seq<R>, evaluate: bool, g: Random,
                                  eval: (R, S) -> GuardResult, state: S)
    ensures var (res, g') := Selection(draw, rules, evaluate, g, eval, state);
      && (res.Err? ==> g' == g && evaluate && res.error.index < |rules|
                       && eval(rules[res.error.index], state) == EvalValue(NonBool))
      && (res.Ok? ==> |res.value| <= 1)
      && (res.Ok? ==> forall x :: x in res.value ==> x < |rules|)
      && (res.Ok? && evaluate ==> forall x :: x in res.value ==> eval(rules[x], state) == EvalValue(Bool(true)))
      && (!evaluate ==> res.Ok? && (res.value == [] <==> rules == []))
      && (res.Ok? && evaluate ==>
            (res.value == [] <==> forall i :: 0 <= i < |rules| ==> eval(rules[i], state) != EvalValue(Bool(true))))
  {
    var cs := Candidates(rules, evaluate, eval, state);
    CastFailureAtFirstNonBool(rules, |rules|, evaluate, eval, state);
    if !evaluate {
      CandidatesWithoutEvaluation(rules, |rules|, eval, state);
      assert |rules| > 0 ==> Indices(|rules|)[0] in Indices(|rules|);
    }
    if cs.Ok? {
      CandidatesAscending(rules, |rules|, evaluate, eval, state, cs.value);
      if evaluate {
        CandidateIffGuardTrue(rules, |rules|, eval, state, cs.value);
        if cs.value != [] {
          assert cs.value[0] in cs.value;
        }
      }
    }
  }

  /** A `RandomSelector`. The algorithm of its generator is fixed when it is
      created (`draw`); `rules` is `None` until the first `Initialize`, and
      `rand` is `None` until the first `Initialize` or seed assignment. */
  class RandomSelector<Rule> {
    const draw: Draw
    var rules: Option<seq<Rule>>
    var evaluate: bool
    var rand: Option<Random>
    var seed: int32

    /** The seed only changes together with the generator, so a selector
        without a generator still has the initial seed; and an initialized
        selector has a generator. */
    ghost predicate Valid()
      reads this
    {
      && (rand.None? ==> seed == -1)
      && (rules.Some? ==> rand.Some?)
    }

    /** Lines 16-20: no rules, no generator, seed -1. */
    constructor (draw: Draw)
      ensures Valid()
      ensures this.draw == draw && rules == None && !evaluate && rand == None && seed == -1
    {
      this.draw := draw;
      rules := None;
      evaluate := false;
      rand := None;
      seed := -1;
    }

    /** The `Seed` setter: stores the seed and always builds a new generator
        from it, restarting the sequence of draws. */
    method SetSeed(value: int32)
      requires Valid()
      modifies this`seed, this`rand
      ensures Valid()
      ensures seed == value && rand == Some(Fresh(Seeded(value)))
    {
      seed := value;
      rand := Some(Fresh(Seeded(seed)));
    }

    /** Stores the rules and the flag. Builds a generator only when there is
        none; an existing one is kept with its draws. The generator built is
        seeded with `seed` unless that is -1; since a selector without a
        generator always has seed -1, it is in fact always unseeded. */
    method Initialize(rules: seq<Rule>, evaluate: bool, entropy: int)
      requires Valid()
      modifies this`rules, this`evaluate, this`rand
      ensures Valid()
      ensures this.rules == Some(rules) && this.evaluate == evaluate
      ensures old(rand).Some? ==> rand == old(rand)
      ensures old(rand).None? ==>
        rand == Some(Fresh(if seed == -1 then Unseeded(entropy) else Seeded(seed)))
      ensures old(rand).None? ==> rand == Some(Fresh(Unseeded(entropy)))
    {
      this.rules := Some(rules);
      this.evaluate := evaluate;
      if rand.None? {
        rand := Some(Fresh(if seed == -1 then Unseeded(entropy) else Seeded(seed)));
      }
    }

    /** Scans the rules in index order collecting candidates, then draws one
        of them. Only the generator changes, and only when there is a
        candidate. */
    method Select<S>(eval: (Rule, S) -> GuardResult, state: S) returns (result: Result<seq<nat>, SelectError>)
      requires Valid() && rules.Some?
      modifies this`rand
      ensures Valid() && rand.Some?
      ensures (result, rand.value) == Selection(draw, rules.value, evaluate, old(rand.value), eval, state)
      ensures result.Ok? ==> |result.value| <= 1
      ensures result.Ok? ==> forall x :: x in result.value ==> x < |rules.value|
      ensures result.Ok? && evaluate ==>
        forall x :: x in result.value ==> eval(rules.value[x], state) == EvalValue(Bool(true))
      ensures !evaluate ==> result.Ok? && (result.value == [] <==> rules.value == [])
    {
      var rs := rules.value;
      var candidates: seq<nat> := [];
      var i := 0;
      while i < |rs|
        invariant 0 <= i <= |rs|
        invariant CandidatesUpTo(rs, i, evaluate, eval, state) == Ok(candidates)
      {
        if evaluate {
          var eligible: bool;
          match eval(rs[i], state) {
            case EvalError =>
              eligible := false;
            case EvalValue(v) =>
              if v.NonBool? {
                FailureIsFinal(rs, i + 1, |rs|, evaluate, eval, state);
                SelectionProperties(draw, rs, evaluate, rand.value, eval, state);
                return Err(InvalidCast(i));
              }
              eligible := v.b;
          }
          if eligible {
            candidates := candidates + [i];
          }
        } else {
          candidates := candidates + [i];
        }
        i := i + 1;
      }
      SelectionProperties(draw, rs, evaluate, rand.value, eval, state);
      result := Ok([]);
      if |candidates| > 0 {
        var (selection, next) := Next(draw, rand.value, |candidates|);
        result := Ok([candidates[selection]]);
        rand := Some(next);
      }
    }
  }

  /** One more selection extends a replay: its result is appended and it
      starts from the generator the replay left behind. */
  lemma {:induction false} ReplayExtend<R, S>(draw: Draw, rules: seq<R>, evaluate: bool, g: Random,
                                              eval: (R, S) -> GuardResult, states: seq<S>, state: S)
    ensures var before := Replay(draw, rules, evaluate, g, eval, states);
      var last := Selection(draw, rules, evaluate, before.1, eval, state);
      Replay(draw, rules, evaluate, g, eval, states + [state]) == (before.0 + [last.0], last.1)
    decreases |states|
  {
    if states != [] {
      var (first, g1) := Selection(draw, rules, evaluate, g, eval, states[0]);
      ReplayExtend(draw, rules, evaluate, g1, eval, states[1..], state);
      var (rest, g2) := Replay(draw, rules, evaluate, g1, eval, states[1..]);
      var (last, g3) := Selection(draw, rules, evaluate, g2, eval, state);
      assert (states + [state])[0] == states[0];
      assert (states + [state])[1..] == states[1..] + [state];
      assert Replay(draw, rules, evaluate, g, eval, states) == ([first] + rest, g2);
      assert Replay(draw, rules, evaluate, g, eval, states + [state]) == ([first] + (rest + [last]), g3);
      assert [first] + (rest + [last]) == ([first] + rest) + [last];
    } else {
      var (last, g1) := Selection(draw, rules, evaluate, g, eval, state);
      assert states + [state] == [state] && [] + [last] == [last] + [];
    }
  }

  /** Calls `s.Select` once per dialog state in `states`, in order, and
      collects the results. */
  method SelectEach<R, S>(s: RandomSelector<R>, eval: (R, S) -> GuardResult, states: seq<S>)
    returns (run: seq<Result<seq<nat>, SelectError>>)
    requires s.Valid() && s.rules.Some?
    modifies s`rand
    ensures s.Valid() && s.rand.Some?
    ensures (run, s.rand.value) == Replay(s.draw, s.rules.value, s.evaluate, old(s.rand.value), eval, states)
  {
    ghost var g0 := s.rand.value;
    run := [];
    var i := 0;
    while i < |states|
      invariant 0 <= i <= |states|
      invariant s.Valid() && s.rand.Some?
      invariant Replay(s.draw, s.rules.value, s.evaluate, g0, eval, states[..i]) == (run, s.rand.value)
    {
      ReplayExtend(s.draw, s.rules.value, s.evaluate, g0, eval, states[..i], states[i]);
      assert states[..i] + [states[i]] == states[..i + 1];
      var r := s.Select(eval, states[i]);
      run := run + [r];
      i := i + 1;
    }
    assert states[..i] == states;
  }

  /** Two selectors given the same seed, the same rules and flag, and the same
      sequence of dialog states select the same indices, whatever entropy the
      runtime would have offered them. */
  method SeededSelectorsAgree<R, S>(draw: Draw, seed: int32, rules: seq<R>, evaluate: bool,
                                    eval: (R, S) -> GuardResult, states: seq<S>,
                                    entropyA: int, entropyB: int)
    returns (runA: seq<Result<seq<nat>, SelectError>>, runB: seq<Result<seq<nat>, SelectError>>)
    ensures |runA| == |states| && runA == runB
  {
    var a := new RandomSelector<R>(draw);
    a.SetSeed(seed);
    a.Initialize(rules, evaluate, entropyA);
    runA := SelectEach(a, eval, states);

    var b := new RandomSelector<R>(draw);
    b.SetSeed(seed);
    b.Initialize(rules, evaluate, entropyB);
    runB := SelectEach(b, eval, states);
  }

  /** Assigning the seed again restarts the sequence: after a run of
      selections and any number of further selections, re-seeding and
      re-initializing reproduces the first run, selection by selection. */
  method ReseedingRestarts<R, S>(draw: Draw, seed: int32, rules: seq<R>, evaluate: bool,
                                 eval: (R, S) -> GuardResult, states: seq<S>, between: seq<S>,
                                 entropy: int)
    returns (before: seq<Result<seq<nat>, SelectError>>, after: seq<Result<seq<nat>, SelectError>>)
    ensures |before| == |states| && before == after
  {
    var s := new RandomSelector<R>(draw);
    s.SetSeed(seed);
    s.Initialize(rules, evaluate, entropy);
    before := SelectEach(s, eval, states);
    var _ := SelectEach(s, eval, between);
    s.SetSeed(seed);
    s.Initialize(rules, evaluate, entropy);
    after := SelectEach(s, eval, states);
  }
}
