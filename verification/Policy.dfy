// Whether a list of steps needs a human's approval, and for which scopes.
module Policy {
  import opened Text
  import opened Models

  function Rank(b: BlastRadius): nat {
    match b case Nothing => 0 case Low => 1 case Medium => 2 case High => 3
  }

  function Wider(a: BlastRadius, b: BlastRadius): BlastRadius {
    if Rank(a) < Rank(b) then b else a
  }

  function MaxBlast(steps: seq<WorkflowStep>): BlastRadius {
    if steps == [] then Nothing else Wider(steps[0].blastRadius, MaxBlast(steps[1..]))
  }

  predicate IsRisky(step: WorkflowStep) {
    step.mutatesExternalState || step.operationType != READ || Rank(step.blastRadius) >= Rank(Medium)
  }

  function AllScopes(steps: seq<WorkflowStep>): set<string> {
    set step, scope | step in steps && scope in step.requiredScopes :: scope
  }

  function Descriptions(steps: seq<WorkflowStep>): seq<string> {
    seq(|steps|, i requires 0 <= i < |steps| => steps[i].hitlDescription)
  }

  // `evaluate_workflow_policy`.
  function Evaluate(steps: seq<WorkflowStep>): WorkflowPolicyDecision {
    if steps == [] then WorkflowPolicyDecision(false, Nothing, "No workflow actions were proposed.", [])
    else
      var blast := MaxBlast(steps);
      var mutating := exists step <- steps :: step.mutatesExternalState;
      var elevated := exists step <- steps :: step.operationType == WRITE || step.operationType == ADMIN;
      WorkflowPolicyDecision(
        mutating || elevated || Rank(blast) >= Rank(Medium),
        blast,
        Join(Descriptions(steps), "; "),
        Sorted(AllScopes(steps)))
  }

  lemma {:induction false} MaxBlastIsLeastBound(steps: seq<WorkflowStep>)
    ensures forall step <- steps :: Rank(step.blastRadius) <= Rank(MaxBlast(steps))
    ensures steps != [] ==> exists step <- steps :: step.blastRadius == MaxBlast(steps)
  {
    if steps != [] {
      MaxBlastIsLeastBound(steps[1..]);
      assert steps == [steps[0]] + steps[1..];
      if MaxBlast(steps) == steps[0].blastRadius {
        assert steps[0] in steps;
      } else {
        assert |steps| > 1;
        var step :| step in steps[1..] && step.blastRadius == MaxBlast(steps[1..]);
        assert step in steps;
      }
    }
  }

  // Approval is required exactly when some step is risky, the blast radius is the widest of the
  // steps, and a scope is required exactly when some step requires it.
  lemma PolicyIsExact(steps: seq<WorkflowStep>, scope: string)
    ensures Evaluate(steps).requiresHitl <==> exists step <- steps :: IsRisky(step)
    ensures forall step <- steps :: Rank(step.blastRadius) <= Rank(Evaluate(steps).blastRadius)
    ensures steps != [] ==> exists step <- steps :: step.blastRadius == Evaluate(steps).blastRadius
    ensures scope in Evaluate(steps).requiredScopes <==> exists step <- steps :: scope in step.requiredScopes
    ensures Increasing(Evaluate(steps).requiredScopes)
    ensures |steps| == 1 ==> Evaluate(steps).humanDescription == steps[0].hitlDescription
    ensures steps == [] ==>
      Evaluate(steps) == WorkflowPolicyDecision(false, Nothing, "No workflow actions were proposed.", [])
  {
    MaxBlastIsLeastBound(steps);
    if steps != [] {
      var step :| step in steps && step.blastRadius == MaxBlast(steps);
    }
  }

  lemma {:induction false} MaxBlastIsAJoin(a: seq<WorkflowStep>, b: seq<WorkflowStep>)
    ensures MaxBlast(a + b) == Wider(MaxBlast(a), MaxBlast(b))
  {
    if a == [] {
      assert a + b == b;
    } else {
      assert (a + b)[1..] == a[1..] + b;
      MaxBlastIsAJoin(a[1..], b);
    }
  }

  lemma DescriptionsJoin(a: seq<WorkflowStep>, b: seq<WorkflowStep>)
    ensures a != [] && b != [] ==>
      Join(Descriptions(a + b), "; ") == Join(Descriptions(a), "; ") + "; " + Join(Descriptions(b), "; ")
  {
    if a != [] && b != [] {
      assert Descriptions(a + b) == Descriptions(a) + Descriptions(b);
      JoinAppend(Descriptions(a), Descriptions(b), "; ");
    }
  }

  // Evaluating two lists one after the other joins their decisions.
  lemma PolicyIsAJoin(a: seq<WorkflowStep>, b: seq<WorkflowStep>)
    ensures var p, q, r := Evaluate(a), Evaluate(b), Evaluate(a + b);
      && r.requiresHitl == (p.requiresHitl || q.requiresHitl)
      && r.blastRadius == Wider(p.blastRadius, q.blastRadius)
      && r.requiredScopes == Sorted(Elements(p.requiredScopes) + Elements(q.requiredScopes))
      && (a != [] && b != [] ==> r.humanDescription == p.humanDescription + "; " + q.humanDescription)
  {
    DescriptionsJoin(a, b);
    hide Join, Descriptions;
    PolicyIsExact(a, "");
    PolicyIsExact(b, "");
    PolicyIsExact(a + b, "");
    MaxBlastIsAJoin(a, b);
    hide MaxBlast, IsRisky, Sorted;
    assert Elements(Evaluate(a + b).requiredScopes) == AllScopes(a + b);
    assert forall step :: step in a + b <==> step in a || step in b;
    assert AllScopes(a + b) == AllScopes(a) + AllScopes(b);
    assert Elements(Evaluate(a).requiredScopes) == AllScopes(a) && Elements(Evaluate(b).requiredScopes) == AllScopes(b);
    assert Evaluate(a + b).requiredScopes == Sorted(AllScopes(a + b)) by {
      SortedElements(Evaluate(a + b).requiredScopes);
    }
  }

  // But for the description, the decision does not depend on the order of the steps, nor on
  // repetitions.
  lemma PolicyIgnoresOrder(a: seq<WorkflowStep>, b: seq<WorkflowStep>)
    requires forall step :: step in a <==> step in b
    ensures Evaluate(a).(humanDescription := "") == Evaluate(b).(humanDescription := "")
  {
    PolicyIsExact(a, "");
    PolicyIsExact(b, "");
    assert AllScopes(a) == AllScopes(b);
    assert a == [] <==> b == [] by {
      if a != [] { assert a[0] in b; }
      if b != [] { assert b[0] in a; }
    }
    if a != [] {
      var s :| s in a && s.blastRadius == Evaluate(a).blastRadius;
      var t :| t in b && t.blastRadius == Evaluate(b).blastRadius;
      assert Rank(s.blastRadius) == Rank(t.blastRadius);
    }
  }
}
