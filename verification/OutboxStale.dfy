/**
 * Claims that judge the earlier rows on an old snapshot.
 *
 * Under READ COMMITTED the claim locks its candidate and re-checks the
 * candidate's own row, but the NOT EXISTS subquery keeps the snapshot of the
 * statement's start.  Such a run has exactly the states of an ordinary one.
 */
module OutboxStale {
  import opened Wrappers
  import opened Outbox
  import opened OutboxInvariant

  datatype StaleStep =
    | Fresh(step: Step)
    | StaleClaim(snapshot: nat, token: Token, leaseSeconds: nat, event: EventId)

  /** The guard of a step taken in `states[i]`; a snapshot is that state or an older one. */
  predicate StaleEnabled(states: seq<State>, i: nat, step: StaleStep)
    requires i < |states|
  {
    var s := states[i];
    match step
    case Fresh(ordinary) => Enabled(s, ordinary)
    case StaleClaim(k, token, lease, e) =>
      && k <= i
      && token !in s.claims && lease > 0
      && e in states[k].rows && IsHead(states[k].rows, e)
      && e in s.rows && OwnRowClaimable(s.rows[e], s.now)
  }

  function StaleNext(states: seq<State>, i: nat, step: StaleStep): State
    requires i < |states| && StaleEnabled(states, i, step)
  {
    match step
    case Fresh(ordinary) => Next(states[i], ordinary)
    case StaleClaim(_, token, lease, e) => Claimed(states[i], e, token, lease)
  }

  /** All states of a run with stale claims, the first one included. */
  ghost predicate StaleRun(now: Time, states: seq<State>, steps: seq<StaleStep>) {
    && |states| == |steps| + 1
    && states[0] == Empty(now)
    && (forall i | 0 <= i < |steps| ::
          StaleEnabled(states, i, steps[i]) && states[i + 1] == StaleNext(states, i, steps[i]))
  }

  /** The ordinary claim that does the same: every other row counts as locked. */
  function Ordinary(s: State, step: StaleStep): Step {
    match step
    case Fresh(ordinary) => ordinary
    case StaleClaim(_, token, lease, e) => ClaimNext(token, lease, s.rows.Keys - {e}, Some(e))
  }

  /** The first `n` steps, each made ordinary. */
  function Ordinaries(states: seq<State>, steps: seq<StaleStep>, n: nat): seq<Step>
    requires n <= |steps| < |states|
  {
    if n == 0 then [] else Ordinaries(states, steps, n - 1) + [Ordinary(states[n - 1], steps[n - 1])]
  }

  lemma {:induction false} StatesExtend(states: seq<State>, i: nat, j: nat)
    requires i <= j < |states|
    requires forall k | 0 <= k < j :: Extends(states[k].rows, states[k + 1].rows)
    ensures Extends(states[i].rows, states[j].rows)
    decreases j
  {
    if i < j {
      StatesExtend(states, i, j - 1);
      ExtendsIsTransitive(states[i].rows, states[j - 1].rows, states[j].rows);
    }
  }

  /** What an old snapshot showed about earlier rows is still true. */
  lemma StaleStepIsOrdinary(states: seq<State>, i: nat, step: StaleStep)
    requires i < |states|
    requires forall k | 0 <= k < i :: Extends(states[k].rows, states[k + 1].rows)
    requires StaleEnabled(states, i, step)
    ensures Enabled(states[i], Ordinary(states[i], step))
    ensures StaleNext(states, i, step) == Next(states[i], Ordinary(states[i], step))
  {
    if step.StaleClaim? {
      StatesExtend(states, step.snapshot, i);
      HeadsStayHeads(states[step.snapshot].rows, states[i].rows, step.event);
    }
  }

  lemma OneMoreStep(now: Time, steps: seq<Step>, step: Step)
    requires Legal(Empty(now), steps)
    requires Enabled(After(Empty(now), steps), step)
    ensures Legal(Empty(now), steps + [step])
    ensures After(Empty(now), steps + [step]) == Next(After(Empty(now), steps), step)
    ensures Extends(After(Empty(now), steps).rows, Next(After(Empty(now), steps), step).rows)
  {
    EmptyHasInv(now);
    RunKeepsInv(Empty(now), steps);
    StepExtends(After(Empty(now), steps), step);
    assert Legal(Next(After(Empty(now), steps), step), []);
    RunsCompose(Empty(now), steps, [step]);
  }

  lemma {:induction false} StalePrefixIsOrdinary(now: Time, states: seq<State>, steps: seq<StaleStep>, n: nat)
    requires StaleRun(now, states, steps) && n <= |steps|
    ensures Legal(Empty(now), Ordinaries(states, steps, n))
    ensures After(Empty(now), Ordinaries(states, steps, n)) == states[n]
    ensures forall k | 0 <= k < n :: Extends(states[k].rows, states[k + 1].rows)
    decreases n
  {
    if n > 0 {
      StalePrefixIsOrdinary(now, states, steps, n - 1);
      StaleStepIsOrdinary(states, n - 1, steps[n - 1]);
      OneMoreStep(now, Ordinaries(states, steps, n - 1), Ordinary(states[n - 1], steps[n - 1]));
    }
  }

  /** Every state of a run with stale claims is a state of an ordinary run, so every ordering property holds of it. */
  lemma StaleRunsAreOrdinary(now: Time, states: seq<State>, steps: seq<StaleStep>, n: nat)
    requires StaleRun(now, states, steps) && n <= |steps|
    ensures Legal(Empty(now), Ordinaries(states, steps, n))
    ensures After(Empty(now), Ordinaries(states, steps, n)) == states[n]
    ensures Reachable(states[n])
  {
    StalePrefixIsOrdinary(now, states, steps, n);
  }
}
