/** Aggregates do not influence one another: a run seen from one aggregate is itself a run. */
module OutboxProjection {
  import opened Wrappers
  import opened Outbox
  import opened OutboxLogs
  import opened OutboxInvariant

  /** The state with every row, claim and log entry of other aggregates removed. */
  function Project(s: State, agg: Aggregate): State {
    var own := Members(s.rows, agg);
    State(
      s.now,
      map e | e in s.rows && e in own :: s.rows[e],
      map t | t in s.claims && s.claims[t].event in own :: s.claims[t],
      Select(s.inserted, own),
      Select(s.accepted, own))
  }

  /** What remains of a step: itself when it is about the aggregate or about none. */
  function Residue(s: State, step: Step, agg: Aggregate): seq<Step>
    requires Enabled(s, step)
  {
    var own := Members(s.rows, agg);
    var keep :=
      match step
      case Tick(_) => true
      case Insert(_, row) => row.envelope.aggregate == agg
      case ClaimNext(_, _, _, chosen) => chosen.None? || chosen.value in own
      case Deliver(token, _) => s.claims[token].event in own
      case Settle(token, _) => s.claims[token].event in own;
    if keep then [step] else []
  }

  function Residues(s: State, steps: seq<Step>, agg: Aggregate): seq<Step>
    requires Legal(s, steps)
    decreases |steps|
  {
    if steps == [] then [] else Residue(s, steps[0], agg) + Residues(Next(s, steps[0]), steps[1..], agg)
  }

  /** Eligibility of a row looks at its own aggregate only. */
  lemma EligibilityIsLocal(s: State, agg: Aggregate, e: EventId)
    requires e in Members(s.rows, agg)
    ensures Eligible(Project(s, agg).rows, e, s.now) <==> Eligible(s.rows, e, s.now)
  {
    var own := Project(s, agg).rows;
    assert forall x | x in own :: own[x] == s.rows[x];
    assert forall x | x in s.rows && Earlier(s.rows, x, e) :: x in own;
  }

  /** The globally least eligible row is least among its own aggregate's eligible rows. */
  lemma CandidateIsLocal(s: State, agg: Aggregate, locked: set<EventId>, chosen: Option<EventId>)
    requires IsCandidate(s.rows, s.now, locked, chosen)
    requires chosen.Some? ==> chosen.value in Members(s.rows, agg)
    ensures IsCandidate(Project(s, agg).rows, s.now, locked, chosen)
  {
    forall x | x in Members(s.rows, agg)
      ensures Eligible(Project(s, agg).rows, x, s.now) <==> Eligible(s.rows, x, s.now)
    {
      EligibilityIsLocal(s, agg, x);
    }
  }

  lemma MembersAfter(s: State, step: Step, agg: Aggregate)
    requires ClaimsWellFormed(s) && Enabled(s, step)
    ensures Members(Next(s, step).rows, agg) ==
            if step.Insert? && step.row.envelope.aggregate == agg
            then Members(s.rows, agg) + {step.event} else Members(s.rows, agg)
  {
    StepExtends(s, step);
  }

  lemma LogsAgree(s: State, own: set<EventId>, e: EventId)
    requires LogMatchesTable(s) && ClaimsWellFormed(s) && AcceptancesRecorded(s) && e !in s.rows
    ensures Select(s.inserted, own + {e}) == Select(s.inserted, own)
    ensures Select(s.accepted, own + {e}) == Select(s.accepted, own)
  {
    SelectAgrees(s.inserted, own, own + {e});
    SelectAgrees(s.accepted, own, own + {e});
  }

  /** A step about another aggregate leaves no trace. */
  lemma ForeignStepVanishes(s: State, step: Step, agg: Aggregate)
    requires LogMatchesTable(s) && ClaimsWellFormed(s) && AcceptancesRecorded(s) && Enabled(s, step)
    requires Residue(s, step, agg) == []
    ensures Project(Next(s, step), agg) == Project(s, agg)
  {
    MembersAfter(s, step, agg);
    ForeignLogs(s, step, agg);
    ForeignRows(s, step, agg);
    ForeignClaims(s, step, agg);
  }

  lemma ForeignLogs(s: State, step: Step, agg: Aggregate)
    requires Enabled(s, step) && Residue(s, step, agg) == []
    ensures Select(Next(s, step).inserted, Members(s.rows, agg)) == Select(s.inserted, Members(s.rows, agg))
    ensures Select(Next(s, step).accepted, Members(s.rows, agg)) == Select(s.accepted, Members(s.rows, agg))
  {
    if step.Insert? {
      SelectAppends(s.inserted, step.event, Members(s.rows, agg));
    } else if step.Deliver? {
      SelectAppends(s.accepted, s.claims[step.token].event, Members(s.rows, agg));
    }
  }

  lemma ForeignRows(s: State, step: Step, agg: Aggregate)
    requires Enabled(s, step) && Residue(s, step, agg) == []
    requires Members(Next(s, step).rows, agg) == Members(s.rows, agg)
    ensures Project(Next(s, step), agg).rows == Project(s, agg).rows
    ensures Next(s, step).now == s.now
  {
    forall e | e in Members(s.rows, agg)
      ensures e in Next(s, step).rows && Next(s, step).rows[e] == s.rows[e]
    {
    }
  }

  lemma ForeignClaims(s: State, step: Step, agg: Aggregate)
    requires Enabled(s, step) && Residue(s, step, agg) == []
    requires Members(Next(s, step).rows, agg) == Members(s.rows, agg)
    ensures Project(Next(s, step), agg).claims == Project(s, agg).claims
  {
    var own := Members(s.rows, agg);
    forall t | t in s.claims && s.claims[t].event in own
      ensures t in Next(s, step).claims && Next(s, step).claims[t] == s.claims[t]
    {
    }
  }

  /** A step about the aggregate is the same step of the projected table. */
  lemma OwnStepRemains(s: State, step: Step, agg: Aggregate)
    requires LogMatchesTable(s) && ClaimsWellFormed(s) && AcceptancesRecorded(s) && Enabled(s, step)
    requires Residue(s, step, agg) == [step]
    ensures Enabled(Project(s, agg), step)
    ensures Project(Next(s, step), agg) == Next(Project(s, agg), step)
  {
    match step
    case Tick(_) =>
    case Insert(_, _) => OwnInsertRemains(s, step, agg);
    case ClaimNext(_, _, _, _) => OwnClaimRemains(s, step, agg);
    case Deliver(_, _) => OwnDeliveryRemains(s, step, agg);
    case Settle(_, _) => OwnSettlementRemains(s, step, agg);
  }

  lemma OwnInsertRemains(s: State, step: Step, agg: Aggregate)
    requires LogMatchesTable(s) && ClaimsWellFormed(s) && AcceptancesRecorded(s) && Enabled(s, step)
    requires step.Insert? && Residue(s, step, agg) == [step]
    ensures Enabled(Project(s, agg), step)
    ensures Project(Next(s, step), agg) == Next(Project(s, agg), step)
  {
    var own, after := Members(s.rows, agg), Members(s.rows, agg) + {step.event};
    MembersAfter(s, step, agg);
    assert Select(s.inserted + [step.event], after) == Select(s.inserted, own) + [step.event]
      && Select(s.accepted, after) == Select(s.accepted, own)
    by {
      LogsAgree(s, own, step.event);
      SelectAppends(s.inserted, step.event, after);
    }
    OwnInsertRows(s, step, agg);
    OwnInsertClaims(s, step, agg);
  }

  lemma OwnInsertRows(s: State, step: Step, agg: Aggregate)
    requires Enabled(s, step)
    requires step.Insert? && Residue(s, step, agg) == [step]
    ensures Enabled(Project(s, agg), step)
    ensures Project(Next(s, step), agg).rows == Project(s, agg).rows[step.event := step.row]
  {
  }

  lemma OwnInsertClaims(s: State, step: Step, agg: Aggregate)
    requires ClaimsWellFormed(s) && Enabled(s, step) && step.Insert?
    requires Members(Next(s, step).rows, agg) == Members(s.rows, agg) + {step.event}
    ensures Project(Next(s, step), agg).claims == Project(s, agg).claims
  {
    var own := Members(s.rows, agg);
    forall t | t in s.claims
      ensures s.claims[t].event in own + {step.event} <==> s.claims[t].event in own
    {
      assert s.claims[t].event != step.event;
    }
  }

  lemma OwnClaimRemains(s: State, step: Step, agg: Aggregate)
    requires ClaimsWellFormed(s) && Enabled(s, step)
    requires step.ClaimNext? && Residue(s, step, agg) == [step]
    ensures Enabled(Project(s, agg), step)
    ensures Project(Next(s, step), agg) == Next(Project(s, agg), step)
  {
    MembersAfter(s, step, agg);
    CandidateIsLocal(s, agg, step.locked, step.chosen);
    SameState(Project(Next(s, step), agg), Next(Project(s, agg), step));
  }

  lemma OwnDeliveryRemains(s: State, step: Step, agg: Aggregate)
    requires ClaimsWellFormed(s) && Enabled(s, step)
    requires step.Deliver? && Residue(s, step, agg) == [step]
    ensures Enabled(Project(s, agg), step)
    ensures Project(Next(s, step), agg) == Next(Project(s, agg), step)
  {
    MembersAfter(s, step, agg);
    SelectAppends(s.accepted, s.claims[step.token].event, Members(s.rows, agg));
    SameState(Project(Next(s, step), agg), Next(Project(s, agg), step));
  }

  lemma OwnSettlementRemains(s: State, step: Step, agg: Aggregate)
    requires ClaimsWellFormed(s) && Enabled(s, step)
    requires step.Settle? && Residue(s, step, agg) == [step]
    ensures Enabled(Project(s, agg), step)
    ensures Project(Next(s, step), agg) == Next(Project(s, agg), step)
  {
    MembersAfter(s, step, agg);
    assert Affects(Project(s, agg), step.token, step.verdict) == Affects(s, step.token, step.verdict);
    SameState(Project(Next(s, step), agg), Next(Project(s, agg), step));
  }

  /** States are equal when their clocks, logs and tables agree entry by entry. */
  lemma SameState(a: State, b: State)
    requires a.now == b.now && a.inserted == b.inserted && a.accepted == b.accepted
    requires a.rows.Keys == b.rows.Keys && forall e | e in a.rows :: a.rows[e] == b.rows[e]
    requires a.claims.Keys == b.claims.Keys && forall t | t in a.claims :: a.claims[t] == b.claims[t]
    ensures a == b
  {
    assert a.rows == b.rows && a.claims == b.claims;
  }

  lemma {:induction false} RunProjectsFrom(s: State, steps: seq<Step>, agg: Aggregate)
    requires Inv(s) && Legal(s, steps)
    ensures Legal(Project(s, agg), Residues(s, steps, agg))
    ensures After(Project(s, agg), Residues(s, steps, agg)) == Project(After(s, steps), agg)
    decreases |steps|
  {
    if steps != [] {
      var step, rest := steps[0], Residues(Next(s, steps[0]), steps[1..], agg);
      StepKeepsInv(s, step);
      RunProjectsFrom(Next(s, step), steps[1..], agg);
      if Residue(s, step, agg) == [] {
        ForeignStepVanishes(s, step, agg);
        assert Residues(s, steps, agg) == rest;
      } else {
        OwnStepRemains(s, step, agg);
        assert Residues(s, steps, agg) == [step] + rest;
        assert ([step] + rest)[1..] == rest;
      }
    }
  }

  /** Every run, seen from one aggregate, is a legal run of a table holding that aggregate alone. */
  lemma AggregatesAreIndependent(now: Time, steps: seq<Step>, agg: Aggregate)
    requires Legal(Empty(now), steps)
    ensures Legal(Empty(now), Residues(Empty(now), steps, agg))
    ensures After(Empty(now), Residues(Empty(now), steps, agg)) == Project(After(Empty(now), steps), agg)
  {
    EmptyHasInv(now);
    RunProjectsFrom(Empty(now), steps, agg);
    assert Project(Empty(now), agg) == Empty(now);
  }
}
