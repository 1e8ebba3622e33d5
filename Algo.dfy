/**
 * The rule engine that decides when to post a context prompt
 * (contextualizethat/algo.py): a statistic over the oracle's count history,
 * a debounce gate with its own state, a comparison against a random draw,
 * and AND/OR sequences of rules that stop at the first deciding result.
 */
module Algo {
  import opened Oracle

  // ---------------------------------------------------------------------------
  // LongThreadAlgo
  // ---------------------------------------------------------------------------

  /** The square root of the deviation must exceed this for a long thread. */
  const DEVIATION_FACTOR: real := 0.25

  function Abs(x: real): (r: real)
  {
    if x < 0.0 then -x else x
  }

  function Sum(cs: seq<int>): (total: real)
  {
    if cs == [] then 0.0 else cs[0] as real + Sum(cs[1..])
  }

  function Mean(cs: seq<int>): (m: real)
    requires cs != []
  {
    Sum(cs) / |cs| as real
  }

  /** The sum of the distances of the counts from `mean`. */
  function SumAbsDiff(cs: seq<int>, mean: real): (total: real)
  {
    if cs == [] then 0.0 else Abs(cs[0] as real - mean) + SumAbsDiff(cs[1..], mean)
  }

  /**
   * The value whose square root the source compares: how far the last count's
   * distance from the mean is from the mean absolute deviation.
   */
  function Deviation(cs: seq<int>): (d: real)
    requires cs != []
  {
    var mean := Mean(cs);
    Abs(Abs(Last(cs) as real - mean) - SumAbsDiff(cs, mean) / |cs| as real)
  }

  /**
   * LongThreadAlgo: false on an empty history, otherwise whether the square
   * root of `Deviation` exceeds `DEVIATION_FACTOR`, compared here on squares.
   */
  predicate LongThreadFires(cs: seq<int>)
    ensures cs == [] ==> !LongThreadFires(cs)
    ensures LongThreadFires(cs) ==> Deviation(cs) > 0.0
  {
    cs != [] && Deviation(cs) > DEVIATION_FACTOR * DEVIATION_FACTOR
  }

  /** Comparing the square root with the factor is comparing the value with its square. */
  lemma SqrtComparison(d: real, root: real)
    requires root >= 0.0 && root * root == d
    ensures root > DEVIATION_FACTOR <==> d > DEVIATION_FACTOR * DEVIATION_FACTOR
  {
    if root > DEVIATION_FACTOR {
      MulStrictMonotone(root, DEVIATION_FACTOR, root);
      MulMonotone(DEVIATION_FACTOR, DEVIATION_FACTOR, root);
    } else {
      MulMonotone(root, root, DEVIATION_FACTOR);
      MulMonotone(DEVIATION_FACTOR, root, DEVIATION_FACTOR);
    }
  }

  lemma MulMonotone(a: real, b: real, c: real)
    requires a >= 0.0 && b <= c
    ensures a * b <= a * c
  {
  }

  lemma MulStrictMonotone(a: real, b: real, c: real)
    requires a > 0.0 && b < c
    ensures a * b < a * c
  {
  }

  lemma {:induction false} SumOfConstant(cs: seq<int>, c: int)
    requires forall i :: 0 <= i < |cs| ==> cs[i] == c
    ensures Sum(cs) == |cs| as real * c as real
  {
    if cs != [] {
      SumOfConstant(cs[1..], c);
    }
  }

  lemma {:induction false} SumAbsDiffOfConstant(cs: seq<int>, c: int)
    requires forall i :: 0 <= i < |cs| ==> cs[i] == c
    ensures SumAbsDiff(cs, c as real) == 0.0
  {
    if cs != [] {
      SumAbsDiffOfConstant(cs[1..], c);
    }
  }

  /** A history whose counts are all equal, the empty one included, never signals a long thread. */
  lemma LongThreadQuietOnConstantHistory(cs: seq<int>)
    requires forall i :: 0 <= i < |cs| ==> cs[i] == cs[0]
    ensures !LongThreadFires(cs)
  {
    if cs != [] {
      var n := |cs| as real;
      SumOfConstant(cs, cs[0]);
      assert Mean(cs) == cs[0] as real by {
        assert Sum(cs) / n == (n * cs[0] as real) / n;
      }
      SumAbsDiffOfConstant(cs, cs[0]);
      assert Deviation(cs) == 0.0;
    }
  }

  /** The history [1, 1, 1, 1, 10]: mean 2.8, mean deviation 2.88, last distance 7.2. */
  lemma LongThreadFiresOnSpike()
    ensures LongThreadFires([1, 1, 1, 1, 10])
  {
    var cs := [1, 1, 1, 1, 10];
    assert cs[1..] == [1, 1, 1, 10] && cs[2..] == [1, 1, 10] && cs[3..] == [1, 10] && cs[4..] == [10];
    assert Sum([10]) == 10.0;
    assert Sum(cs) == 14.0;
    assert Mean(cs) == 2.8;
    assert SumAbsDiff([10], 2.8) == 7.2;
    assert SumAbsDiff(cs, 2.8) == 14.4;
    assert Deviation(cs) == 4.32;
  }

  // ---------------------------------------------------------------------------
  // DelayAlgo and RandoAlgo
  // ---------------------------------------------------------------------------

  /** The delay of a gate built without one: thirty minutes. */
  const DEFAULT_DELAY: real := (30 * 60) as real

  /** The gate opens when at least `delay` has passed since it last opened. */
  predicate DelayFires(delay: real, lastTime: real, now: real)
    ensures delay > 0.0 && now == lastTime ==> !DelayFires(delay, lastTime, now)
    ensures delay <= 0.0 && now >= lastTime ==> DelayFires(delay, lastTime, now)
  {
    now - lastTime >= delay
  }

  /** A debounce gate: opens at most once per `delay`, remembering when it last opened. */
  class DelayAlgo {
    const delay: real
    var lastTime: real

    constructor (delay: real := DEFAULT_DELAY)
      ensures this.delay == delay && lastTime == 0.0
    {
      this.delay := delay;
      lastTime := 0.0;
    }

    /** Opens when `delay` has passed since `lastTime`, and then moves `lastTime` to `now`. */
    method SendContextMessage(now: real) returns (fire: bool)
      modifies this
      ensures fire <==> DelayFires(delay, old(lastTime), now)
      ensures lastTime == if fire then now else old(lastTime)
    {
      var delta := now - lastTime;
      if delta >= delay {
        lastTime := now;
        return true;
      }
      return false;
    }
  }

  /**
   * A fresh gate with a delay of 100 refuses at time 0 (no time has passed
   * since time 0), refuses at 50, opens at 150 and then refuses at 200.
   */
  method DelayGating() returns (at0: bool, at50: bool, at150: bool, at200: bool)
    ensures !at0 && !at50 && at150 && !at200
  {
    var gate := new DelayAlgo(100.0);
    at0 := gate.SendContextMessage(0.0);
    at50 := gate.SendContextMessage(50.0);
    at150 := gate.SendContextMessage(150.0);
    at200 := gate.SendContextMessage(200.0);
  }

  /** RandoAlgo: true when the draw is at least `chance`; for draws in [0, 1), a chance of 1 or more never fires, one of 0 or less always does. */
  predicate RandoFires(chance: real, draw: real)
    ensures 0.0 <= draw < 1.0 && chance >= 1.0 ==> !RandoFires(chance, draw)
    ensures 0.0 <= draw < 1.0 && chance <= 0.0 ==> RandoFires(chance, draw)
  {
    draw >= chance
  }

  // ---------------------------------------------------------------------------
  // Rule trees and their evaluation
  // ---------------------------------------------------------------------------

  /** `all` (and_seq) or `any` (or_seq). */
  datatype Op = All | Any

  /** A rule tree; Delay leaves are gate objects, so two leaves may share one gate. */
  datatype Rule =
    | Sequence(op: Op, rules: seq<Rule>)
    | LongThread
    | Delay(gate: DelayAlgo)
    | Rando(chance: real)

  /**
   * What an evaluation sees: the oracle's count history, the clock, and the
   * random stream (`draws(i)` is the i-th value of `random.random()`).
   */
  datatype Env = Env(counts: seq<int>, now: real, draws: nat -> real)

  /** The result, the gates' last-opened times afterwards, and how many draws were consumed so far. */
  datatype Outcome = Outcome(fire: bool, last: map<DelayAlgo, real>, used: nat)

  /** The gates of a rule tree. */
  function Gates(r: Rule): (gs: set<DelayAlgo>)
    decreases r
  {
    match r
    case Sequence(_, rules) => GatesOf(rules)
    case Delay(g) => {g}
    case _ => {}
  }

  function GatesOf(rules: seq<Rule>): (gs: set<DelayAlgo>)
    ensures forall i :: 0 <= i < |rules| ==> Gates(rules[i]) <= gs
    ensures forall g :: g in gs ==> exists i :: 0 <= i < |rules| && g in Gates(rules[i])
    decreases rules
  {
    if rules == [] then {}
    else
      var rest := GatesOf(rules[1..]);
      assert forall i :: 1 <= i < |rules| ==> rules[i] == rules[1..][i - 1];
      Gates(rules[0]) + rest
  }

  /** A sub-rule's result decides an `all` when false and an `any` when true. */
  predicate Decisive(op: Op, b: bool)
  {
    b != (op == All)
  }

  /**
   * Evaluation of a rule: Delay reads and may move its gate's time, Rando
   * consumes one draw, a sequence evaluates its sub-rules left to right.
   * Gates outside the rule keep their times.
   */
  function Eval(r: Rule, env: Env, last: map<DelayAlgo, real>, used: nat): (o: Outcome)
    requires Gates(r) <= last.Keys
    ensures o.last.Keys == last.Keys && o.used >= used
    ensures forall g :: g in last && g !in Gates(r) ==> o.last[g] == last[g]
    decreases r
  {
    match r
    case LongThread => Outcome(LongThreadFires(env.counts), last, used)
    case Delay(g) =>
      var fire := DelayFires(g.delay, last[g], env.now);
      Outcome(fire, if fire then last[g := env.now] else last, used)
    case Rando(chance) => Outcome(RandoFires(chance, env.draws(used)), last, used + 1)
    case Sequence(op, rules) => EvalSeq(op, rules, env, last, used)
  }

  /**
   * `all`/`any` over the lazy generator of sub-results: the first decisive
   * result ends the evaluation; an empty sequence gives true for `all` and
   * false for `any`.
   */
  function EvalSeq(op: Op, rules: seq<Rule>, env: Env, last: map<DelayAlgo, real>, used: nat): (o: Outcome)
    requires GatesOf(rules) <= last.Keys
    ensures o.last.Keys == last.Keys && o.used >= used
    ensures forall g :: g in last && g !in GatesOf(rules) ==> o.last[g] == last[g]
    decreases rules
  {
    if rules == [] then Outcome(op == All, last, used)
    else
      var first := Eval(rules[0], env, last, used);
      if Decisive(op, first.fire) then first
      else EvalSeq(op, rules[1..], env, first.last, first.used)
  }

  /**
   * The reference reading of a sequence: every sub-rule evaluated in order,
   * each seeing the state the previous one left; one outcome per sub-rule.
   */
  function EvalEager(rules: seq<Rule>, env: Env, last: map<DelayAlgo, real>, used: nat): (os: seq<Outcome>)
    requires GatesOf(rules) <= last.Keys
    ensures |os| == |rules|
    ensures forall j :: 0 <= j < |os| ==> os[j].last.Keys == last.Keys
    decreases rules
  {
    if rules == [] then []
    else
      var first := Eval(rules[0], env, last, used);
      [first] + EvalEager(rules[1..], env, first.last, first.used)
  }

  /** `all` over the eager results is true iff every one is; `any` iff some one is. */
  predicate Reduce(op: Op, os: seq<Outcome>)
  {
    match op
    case All => forall j :: 0 <= j < |os| ==> os[j].fire
    case Any => exists j :: 0 <= j < |os| && os[j].fire
  }

  /** The reducer over a first outcome and the rest: a decisive first result is the answer. */
  lemma ReduceCons(op: Op, first: Outcome, rest: seq<Outcome>)
    ensures Reduce(op, [first] + rest) == if Decisive(op, first.fire) then first.fire else Reduce(op, rest)
  {
    var os := [first] + rest;
    assert os[0] == first;
    assert forall j :: 1 <= j < |os| ==> os[j] == rest[j - 1];
    assert forall j :: 0 <= j < |rest| ==> rest[j] == os[j + 1];
    if op == Any && !first.fire && Reduce(op, os) {
      var j :| 0 <= j < |os| && os[j].fire;
      assert rest[j - 1].fire;
    }
  }

  /**
   * and_seq is true iff every sub-rule is, or_seq iff some sub-rule is: the
   * short-circuit result agrees with the reducer over all sub-results.
   */
  lemma {:induction false} SequenceAgreesWithEager(op: Op, rules: seq<Rule>, env: Env,
                                                   last: map<DelayAlgo, real>, used: nat)
    requires GatesOf(rules) <= last.Keys
    ensures EvalSeq(op, rules, env, last, used).fire == Reduce(op, EvalEager(rules, env, last, used))
  {
    if rules != [] {
      var first := Eval(rules[0], env, last, used);
      var rest := EvalEager(rules[1..], env, first.last, first.used);
      assert EvalEager(rules, env, last, used) == [first] + rest;
      ReduceCons(op, first, rest);
      if !Decisive(op, first.fire) {
        SequenceAgreesWithEager(op, rules[1..], env, first.last, first.used);
      }
    }
  }

  /**
   * Short-circuit: when sub-rule `i` is the first decisive one, the sequence
   * ends exactly as the eager run does after sub-rule `i`: the same result,
   * the same gate times and the same number of draws, so the later sub-rules
   * are not evaluated.
   */
  lemma {:induction false} SequenceStopsAtFirstDecisive(op: Op, rules: seq<Rule>, env: Env,
                                                        last: map<DelayAlgo, real>, used: nat, i: nat)
    requires GatesOf(rules) <= last.Keys && i < |rules|
    requires var os := EvalEager(rules, env, last, used);
      (forall j :: 0 <= j < i ==> !Decisive(op, os[j].fire)) && Decisive(op, os[i].fire)
    ensures EvalSeq(op, rules, env, last, used) == EvalEager(rules, env, last, used)[i]
  {
    var first := Eval(rules[0], env, last, used);
    var os := EvalEager(rules, env, last, used);
    var rest := EvalEager(rules[1..], env, first.last, first.used);
    assert os == [first] + rest;
    if i > 0 {
      assert !Decisive(op, os[0].fire);
      forall j | 0 <= j < i - 1 ensures !Decisive(op, rest[j].fire) {
        assert os[j + 1] == rest[j];
      }
      SequenceStopsAtFirstDecisive(op, rules[1..], env, first.last, first.used, i - 1);
    }
  }

  /** No outcome of `os` decides the sequence. */
  predicate NoneDecisive(op: Op, os: seq<Outcome>)
  {
    forall j :: 0 <= j < |os| ==> !Decisive(op, os[j].fire)
  }

  /** With no decisive sub-rule, every sub-rule runs and the sequence gives true for all, false for any. */
  lemma {:induction false} SequenceUndecided(op: Op, rules: seq<Rule>, env: Env,
                                             last: map<DelayAlgo, real>, used: nat)
    requires GatesOf(rules) <= last.Keys && rules != []
    requires NoneDecisive(op, EvalEager(rules, env, last, used))
    ensures var os := EvalEager(rules, env, last, used);
      EvalSeq(op, rules, env, last, used) == os[|os| - 1].(fire := op == All)
  {
    var first := Eval(rules[0], env, last, used);
    var os := EvalEager(rules, env, last, used);
    var rest := EvalEager(rules[1..], env, first.last, first.used);
    assert os == [first] + rest;
    assert os[0] == first;
    assert EvalSeq(op, rules, env, last, used) == EvalSeq(op, rules[1..], env, first.last, first.used);
    if |rules| == 1 {
      assert rules[1..] == [];
    } else {
      assert os[1..] == rest;
      SequenceUndecided(op, rules[1..], env, first.last, first.used);
      assert os[|os| - 1] == rest[|rest| - 1];
    }
  }

  // ---------------------------------------------------------------------------
  // The default rule
  // ---------------------------------------------------------------------------

  /** The `chance` of the default rule's Rando leaf. */
  const DEFAULT_CHANCE: real := 75.0

  /** and_seq(LongThread, Delay, Rando(75)) over the given gate. */
  function DefaultRule(gate: DelayAlgo): (r: Rule)
    ensures Gates(r) == {gate}
  {
    var rules := [LongThread, Delay(gate), Rando(DEFAULT_CHANCE)];
    assert GatesOf(rules[2..]) == {} by {
      assert rules[2..][1..] == [];
    }
    assert GatesOf(rules[1..]) == {gate} by {
      assert rules[1..][1..] == rules[2..];
    }
    Sequence(All, rules)
  }

  /** `default_algo`: the default rule over a fresh gate with the default delay. */
  method DefaultAlgo() returns (r: Rule)
    ensures r.Sequence? && |r.rules| == 3 && r.rules[1].Delay?
    ensures r == DefaultRule(r.rules[1].gate)
    ensures fresh(r.rules[1].gate)
    ensures r.rules[1].gate.delay == DEFAULT_DELAY && r.rules[1].gate.lastTime == 0.0
  {
    var gate := new DelayAlgo();
    r := DefaultRule(gate);
  }

  /**
   * The default rule never fires for a draw in [0, 1). Its gate moves and a
   * draw is consumed only when LongThread holds (and the draw only when the
   * gate opens); otherwise nothing changes.
   */
  lemma DefaultRuleNeverFires(gate: DelayAlgo, env: Env, last: map<DelayAlgo, real>, used: nat)
    requires gate in last
    requires 0.0 <= env.draws(used) < 1.0
    ensures var o := Eval(DefaultRule(gate), env, last, used);
      && !o.fire
      && (!LongThreadFires(env.counts) ==> o.last == last && o.used == used)
      && (LongThreadFires(env.counts) && !DelayFires(gate.delay, last[gate], env.now) ==>
            o.last == last && o.used == used)
      && (LongThreadFires(env.counts) && DelayFires(gate.delay, last[gate], env.now) ==>
            o.last == last[gate := env.now] && o.used == used + 1)
  {
    var rules := [LongThread, Delay(gate), Rando(DEFAULT_CHANCE)];
    var lt := LongThreadFires(env.counts);
    var opens := DelayFires(gate.delay, last[gate], env.now);
    var afterGate := if opens then last[gate := env.now] else last;
    assert Eval(DefaultRule(gate), env, last, used) == EvalSeq(All, rules, env, last, used);
    assert Eval(rules[0], env, last, used) == Outcome(lt, last, used);
    if lt {
      assert rules[1..][0] == Delay(gate) && rules[1..][1..] == [Rando(DEFAULT_CHANCE)];
      assert EvalSeq(All, rules, env, last, used) == EvalSeq(All, rules[1..], env, last, used);
      assert Eval(Delay(gate), env, last, used) == Outcome(opens, afterGate, used);
      if opens {
        assert EvalSeq(All, rules[1..], env, last, used) ==
          EvalSeq(All, [Rando(DEFAULT_CHANCE)], env, afterGate, used);
        assert !RandoFires(DEFAULT_CHANCE, env.draws(used));
        assert Eval(Rando(DEFAULT_CHANCE), env, afterGate, used) == Outcome(false, afterGate, used + 1);
      }
    }
  }

  // ---------------------------------------------------------------------------
  // Evaluating a rule tree in place
  // ---------------------------------------------------------------------------

  /** The current last-opened time of each gate of `G`. */
  ghost function LastTimes(G: set<DelayAlgo>): (m: map<DelayAlgo, real>)
    reads G
    ensures m.Keys == G
  {
    map g | g in G :: g.lastTime
  }

  /**
   * `send_context_message` on a rule tree: reads the oracle's history for
   * LongThread, asks each Delay gate (which may move its time), takes one draw
   * per Rando, and walks sequences left to right, stopping at the first
   * decisive sub-result. Result, draws consumed and gate times are those of `Eval`.
   */
  method Evaluate(r: Rule, oracle: ChatOracle, now: real, draws: nat -> real, used: nat,
                  ghost G: set<DelayAlgo>) returns (fire: bool, usedAfter: nat)
    requires oracle.Valid() && Gates(r) <= G
    modifies Gates(r)
    ensures var o := Eval(r, Env(oracle.Counts(), now, draws), old(LastTimes(G)), used);
      fire == o.fire && usedAfter == o.used && LastTimes(G) == o.last
    decreases r
  {
    match r
    case LongThread =>
      var counts := oracle.GetMessageCounts();
      fire, usedAfter := LongThreadFires(counts), used;
    case Delay(g) =>
      fire := g.SendContextMessage(now);
      usedAfter := used;
      assert LastTimes(G) == old(LastTimes(G))[g := g.lastTime];
    case Rando(chance) =>
      fire, usedAfter := RandoFires(chance, draws(used)), used + 1;
    case Sequence(op, rules) =>
      ghost var env := Env(oracle.Counts(), now, draws);
      ghost var whole := EvalSeq(op, rules, env, old(LastTimes(G)), used);
      var i, decided := 0, false;
      fire, usedAfter := op == All, used;
      while i < |rules| && !decided
        invariant 0 <= i <= |rules|
        invariant oracle.Valid() && oracle.Counts() == env.counts
        invariant !decided ==>
          fire == (op == All) && GatesOf(rules[i..]) <= G &&
          whole == EvalSeq(op, rules[i..], env, LastTimes(G), usedAfter)
        invariant decided ==> whole == Outcome(fire, LastTimes(G), usedAfter)
        decreases |rules| - i
      {
        assert rules[i..][0] == rules[i] && rules[i..][1..] == rules[i + 1..];
        var b, u := Evaluate(rules[i], oracle, now, draws, usedAfter, G);
        usedAfter := u;
        if Decisive(op, b) {
          fire, decided := b, true;
        }
        i := i + 1;
      }
  }
}
