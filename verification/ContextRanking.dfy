/** What the order of importance means for a package, on the bare fields of its candidates. */
module ContextRanking {
  import opened Prelude
  import opened ContextBuilder

  // ----- The order on the fields ------------------------------------------------------------------------------------

  /** `a` comes first in a dictionary. */
  predicate TextBefore(a: string, b: string) {
    exists k: nat :: k <= |a| && k <= |b| && a[..k] == b[..k] && FirstDifference(a, b, k)
  }

  predicate FirstDifference(a: string, b: string, k: nat)
    requires k <= |a| && k <= |b|
  {
    (k == |a| < |b|) || (k < |a| && k < |b| && a[k] < b[k])
  }

  /** `a` is more important: it alone is required, or has the higher priority, then the higher relevance, then the
      earlier kind, then the earlier identifier. */
  predicate Outranks(a: Candidate, b: Candidate) {
    || (a.required && !b.required)
    || (&& a.required == b.required
        && (|| a.priority > b.priority
            || (&& a.priority == b.priority
                && (|| a.relevance > b.relevance
                    || (&& a.relevance == b.relevance
                        && (|| a.kind.Rank() < b.kind.Rank()
                            || (a.kind == b.kind && TextBefore(a.id, b.id))))))))
  }

  lemma SamePrefix(a: string, b: string, k: nat)
    requires k <= |a| && k <= |b|
    ensures k > 0 && a[..k] == b[..k] ==> a[0] == b[0]
  {
    if k > 0 && a[..k] == b[..k] {
      assert a[..k][0] == b[..k][0];
    }
  }

  lemma {:induction false} TextBeforeIff(a: string, b: string)
    ensures TextBefore(a, b) <==> !TextLeq(b, a)
  {
    if a == "" || b == "" || a[0] != b[0] {
      if TextBefore(a, b) {
        var k: nat :| k <= |a| && k <= |b| && a[..k] == b[..k] && FirstDifference(a, b, k);
        SamePrefix(a, b, k);
      }
      assert a[..0] == b[..0];
      assert !TextLeq(b, a) ==> FirstDifference(a, b, 0);
    } else {
      TextBeforeIff(a[1..], b[1..]);
      TextBeforeTail(a, b);
    }
  }

  lemma TextBeforeTail(a: string, b: string)
    requires a != "" && b != "" && a[0] == b[0]
    ensures TextBefore(a, b) <==> TextBefore(a[1..], b[1..])
  {
    if TextBefore(a, b) {
      var k: nat :| k <= |a| && k <= |b| && a[..k] == b[..k] && FirstDifference(a, b, k);
      assert a[1..][..k - 1] == a[..k][1..] && b[1..][..k - 1] == b[..k][1..];
      assert FirstDifference(a[1..], b[1..], k - 1);
    }
    if TextBefore(a[1..], b[1..]) {
      var k: nat :| k <= |a| - 1 && k <= |b| - 1 && a[1..][..k] == b[1..][..k] && FirstDifference(a[1..], b[1..], k);
      assert a[..k + 1] == [a[0]] + a[1..][..k] && b[..k + 1] == [b[0]] + b[1..][..k];
      assert FirstDifference(a, b, k + 1);
    }
  }

  /** The kinds, the most important first. */
  const KINDS := [Task, Dependency, Summary, Workspace, Memory, Decision, Lock, GitDiff]

  lemma KindsByRank(a: Kind, b: Kind)
    ensures a.Rank() < |KINDS| && KINDS[a.Rank()] == a
    ensures a.Rank() == b.Rank() <==> a == b
  {
  }

  /** The sort puts nothing after what it outranks, and this is all it asks for. */
  lemma LeqIffNotOutranked(a: Candidate, b: Candidate)
    ensures Leq(a, b) <==> !Outranks(b, a)
  {
    TextBeforeIff(b.id, a.id);
    KindsByRank(a.kind, b.kind);
  }

  // ----- Packages ---------------------------------------------------------------------------------------------------

  lemma {:induction false} KeptFits(s: seq<Candidate>, used: nat, usable: nat)
    ensures forall c <- Kept(s, used, usable) :: c in s && (c.required || used + Tokens(c) <= usable)
    ensures forall c <- Dropped(s, used, usable) :: c in s
  {
    if s == [] {
    } else {
      KeptFits(s[1..], if Takes(s[0], used, usable) then used + Tokens(s[0]) else used, usable);
    }
  }

  lemma {:induction false} KeptSorted(s: seq<Candidate>, used: nat, usable: nat)
    requires Sorted(s)
    ensures Sorted(Kept(s, used, usable))
  {
    if s == [] {
    } else {
      var next := if Takes(s[0], used, usable) then used + Tokens(s[0]) else used;
      KeptSorted(s[1..], next, usable);
      KeptFits(s[1..], next, usable);
      var kept := Kept(s[1..], next, usable);
      forall j | 0 <= j < |kept| ensures Leq(s[0], kept[j]) {
        assert kept[j] in s[1..];
      }
    }
  }

  /** Nothing is dropped for something less important that is optional and no smaller. */
  lemma {:induction false} GreedyIsFair(s: seq<Candidate>, used: nat, usable: nat)
    requires Sorted(s)
    ensures forall o <- Dropped(s, used, usable), k <- Kept(s, used, usable) ::
              !k.required && Tokens(o) <= Tokens(k) ==> Leq(k, o)
  {
    if s == [] {
    } else {
      var next := if Takes(s[0], used, usable) then used + Tokens(s[0]) else used;
      GreedyIsFair(s[1..], next, usable);
      KeptFits(s[1..], next, usable);
      forall o | o in s[1..] ensures Leq(s[0], o) {
        var j :| 0 <= j < |s| - 1 && s[1..][j] == o;
        assert s[j + 1] == o;
      }
    }
  }

  /** A candidate whose fields are in order. */
  predicate Sound(c: Candidate) {
    !Blank(c.id) && !Blank(c.source) && !Blank(c.content) && 0.0 <= c.relevance <= 1.0
  }

  lemma CheckedIffSound(c: Candidate)
    ensures CheckCandidate(c).None? <==> Sound(c)
  {
  }

  /** A package is built exactly if the reserve leaves something of the budget, every candidate is sound and the
      required ones fit. */
  lemma BuiltIff(candidates: seq<Candidate>, budget: Budget)
    ensures Build(candidates, budget).Ok? <==>
            && budget.reservedTokens < budget.maxTokens
            && (forall c <- candidates :: Sound(c))
            && RequiredTokens(candidates) <= budget.maxTokens - budget.reservedTokens
  {
    BuildSucceedsIff(candidates, budget);
    forall i | 0 <= i < |candidates| ensures CheckCandidate(candidates[i]).None? <==> Sound(candidates[i]) {
      CheckedIffSound(candidates[i]);
    }
    assert (forall c <- candidates :: Sound(c)) <==> forall i :: 0 <= i < |candidates| ==> Sound(candidates[i]);
  }

  /** The error that is reported is true. */
  predicate ErrorTold(candidates: seq<Candidate>, budget: Budget, error: BuildError) {
    match error
    case NoUsableBudget => budget.reservedTokens >= budget.maxTokens
    case MissingIdOrSource => exists c <- candidates :: Blank(c.id) || Blank(c.source)
    case EmptyContent => exists c <- candidates :: Blank(c.content)
    case RelevanceOutOfRange => exists c <- candidates :: !(0.0 <= c.relevance <= 1.0)
    case RequiredOverflow(required, usable) =>
      && required == RequiredTokens(candidates) && required > usable
      && budget.reservedTokens < budget.maxTokens && usable == budget.maxTokens - budget.reservedTokens
  }

  lemma {:induction false} FirstInvalidIs(candidates: seq<Candidate>)
    ensures FirstInvalid(candidates).Some? ==>
              exists c <- candidates :: FirstInvalid(candidates) == CheckCandidate(c)
  {
    if candidates != [] && CheckCandidate(candidates[0]).None? {
      FirstInvalidIs(candidates[1..]);
    }
  }

  lemma ErrorsAreTrue(candidates: seq<Candidate>, budget: Budget)
    ensures var r := Build(candidates, budget); r.Err? ==> ErrorTold(candidates, budget, r.error)
  {
    FirstInvalidIs(candidates);
    SortSorts(candidates);
    RequiredByMultiset(Sort(candidates), candidates);
  }

  /** The items of a package stand in order of importance. */
  lemma ItemsAreRanked(candidates: seq<Candidate>, budget: Budget, i: nat, j: nat)
    requires Build(candidates, budget).Ok? && i < j < |Build(candidates, budget).value.items|
    ensures var items := Build(candidates, budget).value.items;
            !Outranks(items[j].candidate, items[i].candidate)
  {
    PackageContents(candidates, budget);
    SortSorts(candidates);
    var sorted, usable := Sort(candidates), Build(candidates, budget).value.usable;
    KeptSorted(sorted, 0, usable);
    var kept := Kept(sorted, 0, usable);
    assert Leq(kept[i], kept[j]);
    LeqIffNotOutranked(kept[i], kept[j]);
  }

  /** What a package omits is a candidate that outranks no optional one of at least its size that was kept. */
  lemma OmissionsAreFair(candidates: seq<Candidate>, budget: Budget, i: nat) returns (o: Candidate)
    requires Build(candidates, budget).Ok? && i < |Build(candidates, budget).value.omitted|
    ensures var p := Build(candidates, budget).value;
            && o in candidates && p.omitted[i] == Omission(o.id, o.source, EstimateTokens(o.content))
            && forall item <- p.items ::
                 !item.candidate.required && EstimateTokens(o.content) <= EstimateTokens(item.candidate.content) ==>
                   !Outranks(o, item.candidate)
  {
    PackageContents(candidates, budget);
    SortSorts(candidates);
    var sorted, p := Sort(candidates), Build(candidates, budget).value;
    var kept, dropped := Kept(sorted, 0, p.usable), Dropped(sorted, 0, p.usable);
    GreedyIsFair(sorted, 0, p.usable);
    KeptFits(sorted, 0, p.usable);
    o := dropped[i];
    assert o in dropped && o in multiset(sorted);
    forall item | item in p.items && !item.candidate.required && Tokens(o) <= Tokens(item.candidate)
      ensures !Outranks(o, item.candidate)
    {
      var m :| 0 <= m < |p.items| && p.items[m] == item;
      assert kept[m] == item.candidate && kept[m] in kept;
      LeqIffNotOutranked(item.candidate, o);
    }
  }
}
