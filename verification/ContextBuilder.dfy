/** The greedy context packer: sorts candidates by importance and keeps every one that still fits a
    token budget. */
module ContextBuilder {
  import opened Prelude

  datatype Kind = Task | Dependency | Summary | Workspace | Memory | Decision | Lock | GitDiff {
    /** Position in the declaration, which is how kinds are compared. */
    function Rank(): nat {
      match this
      case Task => 0
      case Dependency => 1
      case Summary => 2
      case Workspace => 3
      case Memory => 4
      case Decision => 5
      case Lock => 6
      case GitDiff => 7
    }
  }

  datatype Candidate = Candidate(
    id: string,
    kind: Kind,
    content: string,
    source: string,
    inclusionReason: string,
    priority: nat,
    relevance: real,
    required: bool
  )

  datatype Budget = Budget(maxTokens: nat, reservedTokens: nat)

  datatype Item = Item(candidate: Candidate, tokens: nat)

  datatype Omission = Omission(id: string, source: string, tokens: nat)

  datatype Package = Package(items: seq<Item>, omitted: seq<Omission>, tokens: nat, usable: nat)

  datatype BuildError =
    | NoUsableBudget
    | MissingIdOrSource
    | EmptyContent
    | RelevanceOutOfRange
    | RequiredOverflow(required: nat, usable: nat)

  /** A quarter of the characters, rounded up, and never zero. */
  function EstimateTokens(content: string): (t: nat)
    ensures t >= 1
    ensures 4 * (t - 1) < |content| <= 4 * t || (t == 1 && content == "")
  {
    var t := (|content| + 3) / 4;
    if t == 0 then 1 else t
  }

  function Tokens(c: Candidate): nat {
    EstimateTokens(c.content)
  }

  function UsableBudget(b: Budget): Result<nat, BuildError> {
    if b.maxTokens == 0 || b.reservedTokens >= b.maxTokens then Err(NoUsableBudget)
    else Ok(b.maxTokens - b.reservedTokens)
  }

  function CheckCandidate(c: Candidate): Option<BuildError> {
    if Blank(c.id) || Blank(c.source) then Some(MissingIdOrSource)
    else if Blank(c.content) then Some(EmptyContent)
    else if !(0.0 <= c.relevance <= 1.0) then Some(RelevanceOutOfRange)
    else None
  }

  function FirstInvalid(candidates: seq<Candidate>): (r: Option<BuildError>)
    ensures r.None? <==> forall i :: 0 <= i < |candidates| ==> CheckCandidate(candidates[i]).None?
  {
    if candidates == [] then None
    else if CheckCandidate(candidates[0]).Some? then CheckCandidate(candidates[0])
    else FirstInvalid(candidates[1..])
  }

  // ----- The order of importance -------------------------------------------------------------------

  predicate TextLeq(a: string, b: string) {
    a == "" || (b != "" && (a[0] < b[0] || (a[0] == b[0] && TextLeq(a[1..], b[1..]))))
  }

  lemma {:induction false} TextOrder(a: string, b: string, c: string)
    ensures TextLeq(a, b) || TextLeq(b, a)
    ensures TextLeq(a, b) && TextLeq(b, a) ==> a == b
    ensures TextLeq(a, b) && TextLeq(b, c) ==> TextLeq(a, c)
  {
    if a != "" && b != "" {
      TextOrder(a[1..], b[1..], if c == "" then "" else c[1..]);
      assert a == [a[0]] + a[1..] && b == [b[0]] + b[1..];
    }
  }

  /** Required first, then higher priority, higher relevance, kind and identifier. */
  predicate Leq(a: Candidate, b: Candidate) {
    if a.required != b.required then a.required
    else if a.priority != b.priority then a.priority > b.priority
    else if a.relevance != b.relevance then a.relevance > b.relevance
    else if a.kind != b.kind then a.kind.Rank() < b.kind.Rank()
    else TextLeq(a.id, b.id)
  }

  lemma LeqOrder(a: Candidate, b: Candidate, c: Candidate)
    ensures Leq(a, b) || Leq(b, a)
    ensures Leq(a, b) && Leq(b, c) ==> Leq(a, c)
    ensures Leq(a, b) && Leq(b, a) ==> a.kind == b.kind && a.id == b.id
  {
    TextOrder(a.id, b.id, c.id);
    TextOrder(b.id, c.id, a.id);
  }

  function Insert(c: Candidate, sorted: seq<Candidate>): seq<Candidate> {
    if sorted == [] || Leq(c, sorted[0]) then [c] + sorted
    else [sorted[0]] + Insert(c, sorted[1..])
  }

  /** The stable sort by importance: equals keep their input order. */
  function Sort(candidates: seq<Candidate>): seq<Candidate> {
    if candidates == [] then [] else Insert(candidates[0], Sort(candidates[1..]))
  }

  ghost predicate Sorted(s: seq<Candidate>) {
    forall i, j :: 0 <= i < j < |s| ==> Leq(s[i], s[j])
  }

  lemma {:induction false} InsertAdds(c: Candidate, sorted: seq<Candidate>)
    ensures multiset(Insert(c, sorted)) == multiset{c} + multiset(sorted)
  {
    if sorted != [] && !Leq(c, sorted[0]) {
      InsertAdds(c, sorted[1..]);
      assert sorted == [sorted[0]] + sorted[1..];
    }
  }

  lemma {:induction false} InsertSorted(c: Candidate, sorted: seq<Candidate>)
    requires Sorted(sorted)
    ensures Sorted(Insert(c, sorted))
  {
    if sorted == [] || Leq(c, sorted[0]) {
      forall j | 0 <= j < |sorted| ensures Leq(c, sorted[j]) {
        LeqOrder(c, sorted[0], sorted[j]);
      }
    } else {
      var rest := Insert(c, sorted[1..]);
      InsertSorted(c, sorted[1..]);
      InsertAdds(c, sorted[1..]);
      LeqOrder(c, sorted[0], c);
      forall j | 0 <= j < |rest| ensures Leq(sorted[0], rest[j]) {
        assert rest[j] in multiset(rest);
        assert rest[j] == c || rest[j] in sorted[1..];
      }
    }
  }

  lemma {:induction false} SortSorts(candidates: seq<Candidate>)
    ensures Sorted(Sort(candidates)) && multiset(Sort(candidates)) == multiset(candidates)
  {
    if candidates == [] {
    } else {
      SortSorts(candidates[1..]);
      InsertSorted(candidates[0], Sort(candidates[1..]));
      InsertAdds(candidates[0], Sort(candidates[1..]));
      assert candidates == [candidates[0]] + candidates[1..];
    }
  }

  ghost predicate DistinctKeys(s: seq<Candidate>) {
    forall i, j :: 0 <= i < j < |s| ==> s[i].kind != s[j].kind || s[i].id != s[j].id
  }

  /** Neither ranks before the other. */
  predicate Tied(a: Candidate, b: Candidate) {
    Leq(a, b) && Leq(b, a)
  }

  /** Different candidates never rank equal. */
  ghost predicate NoRivals(m: multiset<Candidate>) {
    forall a, b {:trigger Tied(a, b)} :: a in m && b in m && Tied(a, b) ==> a == b
  }

  lemma FirstIsLeast(s: seq<Candidate>, c: Candidate)
    requires Sorted(s) && c in multiset(s)
    ensures s != [] && Leq(s[0], c)
  {
    var i :| 0 <= i < |s| && s[i] == c;
    LeqOrder(s[0], s[0], s[0]);
  }

  lemma HeadsAgree(s: seq<Candidate>, t: seq<Candidate>)
    requires Sorted(s) && Sorted(t) && multiset(s) == multiset(t) && NoRivals(multiset(s))
    requires s != []
    ensures t != [] && s[0] == t[0]
  {
    assert s[0] in multiset(s);
    FirstIsLeast(t, s[0]);
    assert t[0] in multiset(t);
    FirstIsLeast(s, t[0]);
    assert Tied(s[0], t[0]);
  }

  lemma TailMultiset(s: seq<Candidate>)
    requires s != []
    ensures multiset(s) == multiset{s[0]} + multiset(s[1..])
    ensures multiset(s[1..]) <= multiset(s)
  {
    assert s == [s[0]] + s[1..];
  }

  lemma TailsAgree(s: seq<Candidate>, t: seq<Candidate>)
    requires s != [] && t != [] && s[0] == t[0] && multiset(s) == multiset(t)
    requires NoRivals(multiset(s))
    ensures multiset(s[1..]) == multiset(t[1..]) && NoRivals(multiset(s[1..]))
  {
    TailMultiset(s);
    TailMultiset(t);
    assert multiset(s[1..]) == multiset(s) - multiset{s[0]};
    assert forall c :: c in multiset(s[1..]) ==> c in multiset(s);
  }

  /** Without rivals a multiset has only one sorted arrangement. */
  lemma {:induction false} SortedIsUnique(s: seq<Candidate>, t: seq<Candidate>)
    requires Sorted(s) && Sorted(t) && multiset(s) == multiset(t) && NoRivals(multiset(s))
    ensures s == t
  {
    assert |s| == |multiset(s)| == |multiset(t)| == |t|;
    if s == [] {
    } else {
      HeadsAgree(s, t);
      TailsAgree(s, t);
      SortedIsUnique(s[1..], t[1..]);
      assert s == [s[0]] + s[1..] && t == [t[0]] + t[1..];
    }
  }

  // ----- Packing -------------------------------------------------------------------------------------

  function RequiredTokens(s: seq<Candidate>): nat {
    if s == [] then 0 else (if s[0].required then Tokens(s[0]) else 0) + RequiredTokens(s[1..])
  }

  function TotalTokens(s: seq<Candidate>): nat {
    if s == [] then 0 else Tokens(s[0]) + TotalTokens(s[1..])
  }

  predicate Takes(c: Candidate, used: nat, usable: nat) {
    c.required || used + Tokens(c) <= usable
  }

  /** What is kept of a sorted list when `used` tokens are already spent. */
  function Kept(s: seq<Candidate>, used: nat, usable: nat): seq<Candidate> {
    if s == [] then []
    else if Takes(s[0], used, usable) then [s[0]] + Kept(s[1..], used + Tokens(s[0]), usable)
    else Kept(s[1..], used, usable)
  }

  function Dropped(s: seq<Candidate>, used: nat, usable: nat): seq<Candidate> {
    if s == [] then []
    else if Takes(s[0], used, usable) then Dropped(s[1..], used + Tokens(s[0]), usable)
    else [s[0]] + Dropped(s[1..], used, usable)
  }

  function Items(s: seq<Candidate>): (r: seq<Item>)
    ensures |r| == |s|
  {
    seq(|s|, i requires 0 <= i < |s| => Item(s[i], Tokens(s[i])))
  }

  function Omissions(s: seq<Candidate>): (r: seq<Omission>)
    ensures |r| == |s|
  {
    seq(|s|, i requires 0 <= i < |s| => Omission(s[i].id, s[i].source, Tokens(s[i])))
  }

  function Build(candidates: seq<Candidate>, budget: Budget): Result<Package, BuildError> {
    var usable := UsableBudget(budget);
    if usable.Err? then Err(usable.error)
    else
      var invalid := FirstInvalid(candidates);
      if invalid.Some? then Err(invalid.value)
      else
        var sorted := Sort(candidates);
        if RequiredTokens(sorted) > usable.value then
          Err(RequiredOverflow(RequiredTokens(sorted), usable.value))
        else
          var kept := Kept(sorted, 0, usable.value);
          Ok(Package(Items(kept), Omissions(Dropped(sorted, 0, usable.value)), TotalTokens(kept), usable.value))
  }

  method ValidateAll(candidates: seq<Candidate>) returns (r: Option<BuildError>)
    ensures r == FirstInvalid(candidates)
  {
    for i := 0 to |candidates|
      invariant FirstInvalid(candidates) == FirstInvalid(candidates[i..])
    {
      var invalid := CheckCandidate(candidates[i]);
      if invalid.Some? { return invalid; }
    }
    return None;
  }

  method SumRequired(sorted: seq<Candidate>) returns (required: nat)
    ensures required == RequiredTokens(sorted)
  {
    required := 0;
    for i := 0 to |sorted|
      invariant required + RequiredTokens(sorted[i..]) == RequiredTokens(sorted)
    {
      if sorted[i].required { required := required + Tokens(sorted[i]); }
    }
  }

  /** Packing from position `i` on, one candidate further. */
  lemma PackUnfolds(s: seq<Candidate>, i: nat, used: nat, usable: nat)
    requires i < |s|
    ensures Takes(s[i], used, usable) ==>
      && Kept(s[i..], used, usable) == [s[i]] + Kept(s[i + 1..], used + Tokens(s[i]), usable)
      && Dropped(s[i..], used, usable) == Dropped(s[i + 1..], used + Tokens(s[i]), usable)
    ensures !Takes(s[i], used, usable) ==>
      && Kept(s[i..], used, usable) == Kept(s[i + 1..], used, usable)
      && Dropped(s[i..], used, usable) == [s[i]] + Dropped(s[i + 1..], used, usable)
  {
    assert s[i..][0] == s[i] && s[i..][1..] == s[i + 1..];
  }

  lemma KeepOne(kept: seq<Candidate>, c: Candidate)
    ensures Items(kept + [c]) == Items(kept) + [Item(c, Tokens(c))]
    ensures TotalTokens(kept + [c]) == TotalTokens(kept) + Tokens(c)
  {
    TotalSnoc(kept, c);
  }

  lemma DropOne(dropped: seq<Candidate>, c: Candidate)
    ensures Omissions(dropped + [c]) == Omissions(dropped) + [Omission(c.id, c.source, Tokens(c))]
  {
  }

  /** The loop state after `i` candidates: what it has decided, and that the rest decides the rest. */
  ghost predicate PackedSoFar(s: seq<Candidate>, i: nat, usable: nat, kept: seq<Candidate>, dropped: seq<Candidate>,
                              used: nat)
    requires i <= |s|
  {
    && kept + Kept(s[i..], used, usable) == Kept(s, 0, usable)
    && dropped + Dropped(s[i..], used, usable) == Dropped(s, 0, usable)
  }

  lemma PackStep(s: seq<Candidate>, i: nat, usable: nat, kept: seq<Candidate>, dropped: seq<Candidate>, used: nat)
    requires i < |s| && PackedSoFar(s, i, usable, kept, dropped, used)
    ensures Takes(s[i], used, usable) ==> PackedSoFar(s, i + 1, usable, kept + [s[i]], dropped, used + Tokens(s[i]))
    ensures !Takes(s[i], used, usable) ==> PackedSoFar(s, i + 1, usable, kept, dropped + [s[i]], used)
  {
    PackUnfolds(s, i, used, usable);
  }

  lemma PackDone(s: seq<Candidate>, usable: nat, kept: seq<Candidate>, dropped: seq<Candidate>, used: nat)
    requires PackedSoFar(s, |s|, usable, kept, dropped, used)
    ensures kept == Kept(s, 0, usable) && dropped == Dropped(s, 0, usable)
  {
    assert s[|s|..] == [];
  }

  method Pack(sorted: seq<Candidate>, usable: nat)
    returns (items: seq<Item>, omitted: seq<Omission>, used: nat)
    ensures items == Items(Kept(sorted, 0, usable))
    ensures omitted == Omissions(Dropped(sorted, 0, usable))
    ensures used == TotalTokens(Kept(sorted, 0, usable))
  {
    items, omitted, used := [], [], 0;
    ghost var kept, dropped := [], [];
    assert sorted[0..] == sorted;
    for i := 0 to |sorted|
      invariant PackedSoFar(sorted, i, usable, kept, dropped, used)
      invariant items == Items(kept) && omitted == Omissions(dropped) && used == TotalTokens(kept)
    {
      var candidate := sorted[i];
      PackStep(sorted, i, usable, kept, dropped, used);
      var tokens := Tokens(candidate);
      if candidate.required || used + tokens <= usable {
        KeepOne(kept, candidate);
        used := used + tokens;
        items := items + [Item(candidate, tokens)];
        kept := kept + [candidate];
      } else {
        DropOne(dropped, candidate);
        omitted := omitted + [Omission(candidate.id, candidate.source, tokens)];
        dropped := dropped + [candidate];
      }
    }
    PackDone(sorted, usable, kept, dropped, used);
  }

  method BuildPackage(candidates: seq<Candidate>, budget: Budget)
    returns (r: Result<Package, BuildError>)
    ensures r == Build(candidates, budget)
  {
    var usable := UsableBudget(budget);
    if usable.Err? { return Err(usable.error); }
    var invalid := ValidateAll(candidates);
    if invalid.Some? { return Err(invalid.value); }
    var sorted := Sort(candidates);
    var required := SumRequired(sorted);
    if required > usable.value { return Err(RequiredOverflow(required, usable.value)); }
    var items, omitted, used := Pack(sorted, usable.value);
    return Ok(Package(items, omitted, used, usable.value));
  }

  lemma {:induction false} TotalSnoc(s: seq<Candidate>, c: Candidate)
    ensures TotalTokens(s + [c]) == TotalTokens(s) + Tokens(c)
  {
    if s == [] {
      assert s + [c] == [c];
    } else {
      TotalSnoc(s[1..], c);
      assert (s + [c])[1..] == s[1..] + [c];
    }
  }

  /** Once a sorted list has reached an optional candidate, no required one follows. */
  lemma {:induction false} NoRequiredAfterOptional(s: seq<Candidate>)
    requires Sorted(s) && s != [] && !s[0].required
    ensures RequiredTokens(s) == 0
  {
    if |s| > 1 {
      assert Leq(s[0], s[1]);
      NoRequiredAfterOptional(s[1..]);
    }
  }

  lemma {:induction false} PackingPartitions(s: seq<Candidate>, used: nat, usable: nat)
    ensures multiset(Kept(s, used, usable)) + multiset(Dropped(s, used, usable)) == multiset(s)
  {
    if s == [] {
    } else {
      assert s == [s[0]] + s[1..];
      PackingPartitions(s[1..], if Takes(s[0], used, usable) then used + Tokens(s[0]) else used, usable);
    }
  }

  /** What greedy packing of a sorted list achieves from any starting point. */
  lemma {:induction false} GreedyPacking(s: seq<Candidate>, used: nat, usable: nat)
    requires Sorted(s) && used + RequiredTokens(s) <= usable
    ensures used + TotalTokens(Kept(s, used, usable)) <= usable
    ensures forall c <- Dropped(s, used, usable) ::
              !c.required && used + TotalTokens(Kept(s, used, usable)) + Tokens(c) > usable
  {
    if s == [] {
    } else {
      if Takes(s[0], used, usable) {
        if !s[0].required { NoRequiredAfterOptional(s); }
        GreedyPacking(s[1..], used + Tokens(s[0]), usable);
        var kept := Kept(s[1..], used + Tokens(s[0]), usable);
        assert ([s[0]] + kept)[1..] == kept;
      } else {
        GreedyPacking(s[1..], used, usable);
      }
    }
  }

  /** A built package in terms of what was kept and dropped. */
  lemma PackageContents(candidates: seq<Candidate>, budget: Budget)
    requires Build(candidates, budget).Ok?
    ensures var p, sorted := Build(candidates, budget).value, Sort(candidates);
            && p.items == Items(Kept(sorted, 0, p.usable)) && p.omitted == Omissions(Dropped(sorted, 0, p.usable))
            && p.tokens == TotalTokens(Kept(sorted, 0, p.usable))
            && p.usable == budget.maxTokens - budget.reservedTokens && RequiredTokens(sorted) <= p.usable
  {
  }

  lemma RequiredAreKept(candidates: seq<Candidate>, usable: nat)
    requires RequiredTokens(Sort(candidates)) <= usable
    ensures forall c <- candidates :: c.required ==> c in Kept(Sort(candidates), 0, usable)
  {
    var sorted := Sort(candidates);
    SortSorts(candidates);
    GreedyPacking(sorted, 0, usable);
    PackingPartitions(sorted, 0, usable);
    var kept, dropped := Kept(sorted, 0, usable), Dropped(sorted, 0, usable);
    forall c <- candidates | c.required ensures c in kept {
      assert c in multiset(candidates);
      assert c in multiset(kept) || c in multiset(dropped);
    }
  }

  lemma OmittedDoNotFit(s: seq<Candidate>, usable: nat, i: nat)
    requires Sorted(s) && RequiredTokens(s) <= usable && i < |Dropped(s, 0, usable)|
    ensures TotalTokens(Kept(s, 0, usable)) + Omissions(Dropped(s, 0, usable))[i].tokens > usable
  {
    GreedyPacking(s, 0, usable);
    assert Dropped(s, 0, usable)[i] in Dropped(s, 0, usable);
  }

  /** A package partitions the candidates: what is kept and what is omitted together are exactly the
      input; all required ones are kept; the total is the sum of the kept estimates, within the usable
      budget; and no omitted candidate would fit into what remains. */
  lemma PackageIsSound(candidates: seq<Candidate>, budget: Budget)
    requires Build(candidates, budget).Ok?
    ensures var p := Build(candidates, budget).value;
            var kept, dropped := Kept(Sort(candidates), 0, p.usable), Dropped(Sort(candidates), 0, p.usable);
            && p.items == Items(kept) && p.omitted == Omissions(dropped)
            && multiset(kept) + multiset(dropped) == multiset(candidates)
            && p.tokens == TotalTokens(kept) <= p.usable == budget.maxTokens - budget.reservedTokens
            && (forall c <- candidates :: c.required ==> c in kept)
            && (forall i :: 0 <= i < |p.omitted| ==> p.tokens + p.omitted[i].tokens > p.usable)
  {
    PackageContents(candidates, budget);
    var sorted, p := Sort(candidates), Build(candidates, budget).value;
    SortSorts(candidates);
    GreedyPacking(sorted, 0, p.usable);
    PackingPartitions(sorted, 0, p.usable);
    RequiredAreKept(candidates, p.usable);
    forall i | 0 <= i < |p.omitted| ensures p.tokens + p.omitted[i].tokens > p.usable {
      OmittedDoNotFit(sorted, p.usable, i);
    }
  }

  lemma RemoveFrom(t: seq<Candidate>, c: Candidate) returns (rest: seq<Candidate>)
    requires c in multiset(t)
    ensures multiset(rest) == multiset(t) - multiset{c} && |rest| < |t|
    ensures RequiredTokens(t) == (if c.required then Tokens(c) else 0) + RequiredTokens(rest)
  {
    var j :| 0 <= j < |t| && t[j] == c;
    rest := t[..j] + t[j + 1..];
    assert t == t[..j] + [c] + t[j + 1..];
    RequiredRemove(t, j);
  }

  lemma {:induction false} RequiredByMultiset(s: seq<Candidate>, t: seq<Candidate>)
    requires multiset(s) == multiset(t)
    ensures RequiredTokens(s) == RequiredTokens(t)
  {
    assert |s| == |multiset(s)| == |multiset(t)| == |t|;
    if s == [] {
    } else {
      TailMultiset(s);
      var rest := RemoveFrom(t, s[0]);
      RequiredByMultiset(s[1..], rest);
    }
  }

  lemma {:induction false} RequiredRemove(t: seq<Candidate>, j: nat)
    requires j < |t|
    ensures RequiredTokens(t) ==
            (if t[j].required then Tokens(t[j]) else 0) + RequiredTokens(t[..j] + t[j + 1..])
  {
    if j == 0 {
      assert t[..0] + t[1..] == t[1..];
    } else {
      RequiredRemove(t[1..], j - 1);
      assert (t[..j] + t[j + 1..])[1..] == t[1..][..j - 1] + t[1..][j..];
    }
  }

  lemma BuildOkIs(candidates: seq<Candidate>, budget: Budget)
    ensures Build(candidates, budget).Ok? <==>
            && UsableBudget(budget).Ok? && FirstInvalid(candidates).None?
            && RequiredTokens(Sort(candidates)) <= UsableBudget(budget).value
  {
  }

  /** Building succeeds exactly when the budget is usable, every candidate is valid and the required
      ones fit. */
  lemma BuildSucceedsIff(candidates: seq<Candidate>, budget: Budget)
    ensures Build(candidates, budget).Ok? <==>
            && budget.reservedTokens < budget.maxTokens
            && (forall i :: 0 <= i < |candidates| ==> CheckCandidate(candidates[i]).None?)
            && RequiredTokens(candidates) <= budget.maxTokens - budget.reservedTokens
  {
    BuildOkIs(candidates, budget);
    SortSorts(candidates);
    RequiredByMultiset(Sort(candidates), candidates);
  }

  lemma DistinctDetermine(s: seq<Candidate>)
    requires DistinctKeys(s)
    ensures NoRivals(multiset(s))
  {
    forall a, b | a in multiset(s) && b in multiset(s) && Tied(a, b) ensures a == b {
      LeqOrder(a, b, a);
      var i :| 0 <= i < |s| && s[i] == a;
      var j :| 0 <= j < |s| && s[j] == b;
    }
  }

  lemma ValidityIsShared(a: seq<Candidate>, b: seq<Candidate>)
    requires multiset(a) == multiset(b)
    requires forall i :: 0 <= i < |a| ==> CheckCandidate(a[i]).None?
    ensures forall i :: 0 <= i < |b| ==> CheckCandidate(b[i]).None?
  {
    forall i | 0 <= i < |b| ensures CheckCandidate(b[i]).None? {
      assert b[i] in multiset(a);
    }
  }

  ghost predicate AllValid(s: seq<Candidate>) {
    forall i :: 0 <= i < |s| ==> CheckCandidate(s[i]).None?
  }

  lemma ValidOrderIndependent(a: seq<Candidate>, b: seq<Candidate>, budget: Budget)
    requires multiset(a) == multiset(b) && NoRivals(multiset(a)) && AllValid(a) && AllValid(b)
    ensures Build(a, budget) == Build(b, budget)
  {
    SortSorts(a);
    SortSorts(b);
    SortedIsUnique(Sort(a), Sort(b));
  }

  lemma InvalidBuildsNothing(s: seq<Candidate>, budget: Budget)
    requires !AllValid(s)
    ensures Build(s, budget).Err?
  {
  }

  /** Order independence: with distinct (kind, id) pairs, every arrangement of the same candidates builds the
      same package, or none builds one; and if all candidates are valid the error is the same too. */
  lemma OrderIndependent(a: seq<Candidate>, b: seq<Candidate>, budget: Budget)
    requires multiset(a) == multiset(b) && DistinctKeys(a)
    ensures Build(a, budget).Ok? <==> Build(b, budget).Ok?
    ensures Build(a, budget).Ok? || AllValid(a) ==> Build(a, budget) == Build(b, budget)
  {
    if AllValid(a) {
      ValidityIsShared(a, b);
      DistinctDetermine(a);
      ValidOrderIndependent(a, b, budget);
    } else {
      InvalidBuildsNothing(a, budget);
      if AllValid(b) { ValidityIsShared(b, a); }
      InvalidBuildsNothing(b, budget);
    }
  }

  // ----- When the order matters ----------------------------------------------------------------------------

  /** Tied candidates keep their input order, wherever they are inserted. */
  lemma {:induction false} InsertionOrderShows(a: Candidate, b: Candidate, sorted: seq<Candidate>)
    requires Tied(a, b) && a != b
    ensures Insert(a, Insert(b, sorted)) != Insert(b, Insert(a, sorted))
  {
    if sorted == [] {
      assert Insert(b, sorted) == [b] && Insert(a, sorted) == [a];
      assert Insert(a, [b])[0] == a && Insert(b, [a])[0] == b;
    } else {
      LeqOrder(a, b, sorted[0]);
      LeqOrder(b, a, sorted[0]);
      if Leq(a, sorted[0]) {
        assert Insert(a, Insert(b, sorted))[0] == a && Insert(b, Insert(a, sorted))[0] == b;
      } else {
        InsertionOrderShows(a, b, sorted[1..]);
        InsertPast(a, b, sorted);
        InsertPast(b, a, sorted);
      }
    }
  }

  lemma InsertPast(a: Candidate, b: Candidate, sorted: seq<Candidate>)
    requires sorted != [] && !Leq(a, sorted[0]) && !Leq(b, sorted[0])
    ensures Insert(a, Insert(b, sorted)) == [sorted[0]] + Insert(a, Insert(b, sorted[1..]))
    ensures Insert(a, Insert(b, sorted))[1..] == Insert(a, Insert(b, sorted[1..]))
  {
    assert Insert(b, sorted)[1..] == Insert(b, sorted[1..]);
  }

  lemma {:induction false} RoomForAll(s: seq<Candidate>, used: nat, usable: nat)
    requires used + TotalTokens(s) <= usable
    ensures Kept(s, used, usable) == s && RequiredTokens(s) <= TotalTokens(s)
  {
    if s == [] {
    } else {
      RoomForAll(s[1..], used + Tokens(s[0]), usable);
      assert s == [s[0]] + s[1..];
    }
  }

  /** With room for everything the package is the sorted list. */
  lemma RoomyPackage(s: seq<Candidate>, usable: nat)
    requires AllValid(s) && TotalTokens(Sort(s)) <= usable && usable > 0
    ensures Build(s, Budget(usable, 0)).Ok? && Build(s, Budget(usable, 0)).value.items == Items(Sort(s))
  {
    RoomForAll(Sort(s), 0, usable);
  }

  lemma ItemsDetermine(s: seq<Candidate>, t: seq<Candidate>)
    requires Items(s) == Items(t)
    ensures s == t
  {
    assert |s| == |Items(s)| == |t|;
    forall i | 0 <= i < |s| ensures s[i] == t[i] {
      assert Items(s)[i].candidate == s[i] && Items(t)[i].candidate == t[i];
    }
  }

  lemma PairFirst(a: Candidate, b: Candidate, rest: seq<Candidate>)
    ensures Sort([a, b] + rest) == Insert(a, Insert(b, Sort(rest)))
    ensures multiset([a, b] + rest) == multiset{a, b} + multiset(rest)
  {
    assert ([a, b] + rest)[1..] == [b] + rest && ([b] + rest)[1..] == rest;
  }

  lemma TakeOut(s: seq<Candidate>, a: Candidate, b: Candidate) returns (rest: seq<Candidate>)
    requires a in multiset(s) && b in multiset(s) && a != b
    ensures multiset(s) == multiset{a, b} + multiset(rest)
  {
    var others := RemoveFrom(s, a);
    assert b in multiset(others);
    rest := RemoveFrom(others, b);
  }

  /** Under a budget with room for everything, two orders of the same rivals build different packages. */
  lemma RivalsShow(s: seq<Candidate>, a: Candidate, b: Candidate, rest: seq<Candidate>) returns (budget: Budget)
    requires AllValid(s) && multiset(s) == multiset{a, b} + multiset(rest) && Tied(a, b) && a != b
    ensures Build([a, b] + rest, budget) != Build([b, a] + rest, budget)
  {
    var t, u := [a, b] + rest, [b, a] + rest;
    PairFirst(a, b, rest);
    PairFirst(b, a, rest);
    ValidityIsShared(s, t);
    ValidityIsShared(s, u);
    InsertionOrderShows(a, b, Sort(rest));
    var usable := TotalTokens(Sort(t)) + TotalTokens(Sort(u)) + 1;
    budget := Budget(usable, 0);
    RoomyPackages(t, u, usable);
  }

  lemma RoomyPackages(t: seq<Candidate>, u: seq<Candidate>, usable: nat)
    requires AllValid(t) && AllValid(u) && Sort(t) != Sort(u)
    requires TotalTokens(Sort(t)) + TotalTokens(Sort(u)) < usable
    ensures Build(t, Budget(usable, 0)) != Build(u, Budget(usable, 0))
  {
    RoomyPackage(t, usable);
    RoomyPackage(u, usable);
    if Items(Sort(t)) == Items(Sort(u)) {
      ItemsDetermine(Sort(t), Sort(u));
    }
  }

  ghost predicate SamePackage(s: seq<Candidate>, t: seq<Candidate>, budget: Budget) {
    multiset(t) == multiset(s) ==> Build(t, budget) == Build(s, budget)
  }

  lemma SameWithoutRivals(s: seq<Candidate>, t: seq<Candidate>, budget: Budget)
    requires AllValid(s) && NoRivals(multiset(s))
    ensures SamePackage(s, t, budget)
  {
    if multiset(t) == multiset(s) {
      ValidityIsShared(s, t);
      ValidOrderIndependent(s, t, budget);
    }
  }

  lemma OneDiffers(s: seq<Candidate>, t: seq<Candidate>, u: seq<Candidate>, budget: Budget)
    requires multiset(t) == multiset(s) == multiset(u) && Build(t, budget) != Build(u, budget)
    ensures !SamePackage(s, t, budget) || !SamePackage(s, u, budget)
  {
  }

  lemma DifferentWithRivals(s: seq<Candidate>, a: Candidate, b: Candidate) returns (t: seq<Candidate>, budget: Budget)
    requires AllValid(s) && a in multiset(s) && b in multiset(s) && Tied(a, b) && a != b
    ensures !SamePackage(s, t, budget)
  {
    var rest := TakeOut(s, a, b);
    PairFirst(a, b, rest);
    PairFirst(b, a, rest);
    budget := RivalsShow(s, a, b, rest);
    OneDiffers(s, [a, b] + rest, [b, a] + rest, budget);
    t := if SamePackage(s, [a, b] + rest, budget) then [b, a] + rest else [a, b] + rest;
  }

  /** The package of valid candidates is the same for every arrangement and every budget if and only if no two
      different candidates tie on all of required, priority, relevance, kind and identifier. */
  lemma OrderIndependentIff(s: seq<Candidate>)
    requires AllValid(s)
    ensures (forall t, budget :: SamePackage(s, t, budget)) <==> NoRivals(multiset(s))
  {
    if NoRivals(multiset(s)) {
      forall t, budget ensures SamePackage(s, t, budget) {
        SameWithoutRivals(s, t, budget);
      }
    } else {
      var a, b :| a in multiset(s) && b in multiset(s) && Tied(a, b) && a != b;
      var t, budget := DifferentWithRivals(s, a, b);
      assert !SamePackage(s, t, budget);
    }
  }

  /** Without distinct keys the input order can decide: of two rivals that rank equal, the earlier one
      gets the last token. */
  lemma RivalsDependOnOrder(x: Candidate, y: Candidate)
    requires x == Candidate("id", Task, "x", "s", "r", 0, 0.0, false) && y == x.(content := "y")
    ensures multiset([x, y]) == multiset([y, x])
    ensures Build([x, y], Budget(1, 0)) == Ok(Package([Item(x, 1)], [Omission("id", "s", 1)], 1, 1))
    ensures Build([y, x], Budget(1, 0)) == Ok(Package([Item(y, 1)], [Omission("id", "s", 1)], 1, 1))
  {
    LeqOrder(x, y, x);
    assert !Blank("id") && !Blank("s") && !Blank("x") && !Blank("y") by {
      assert "id"[0] == 'i' && "s"[0] == 's' && "x"[0] == 'x' && "y"[0] == 'y';
    }
    PackPair(x, y);
    PackPair(y, x);
  }

  lemma PackPair(x: Candidate, y: Candidate)
    requires |x.content| == |y.content| == 1 && !x.required && !y.required && Leq(x, y)
    requires CheckCandidate(x).None? && CheckCandidate(y).None?
    ensures Build([x, y], Budget(1, 0)) ==
            Ok(Package([Item(x, 1)], [Omission(y.id, y.source, 1)], 1, 1))
  {
    BuildSucceedsIff([x, y], Budget(1, 0));
    assert [x, y][1..] == [y] && [y][1..] == [];
    assert Sort([y]) == [y];
    assert Sort([x, y]) == [x, y];
    assert RequiredTokens([y]) == 0 && RequiredTokens([x, y]) == 0;
    assert Kept([y], 1, 1) == [] && Dropped([y], 1, 1) == [y];
    assert Kept([x, y], 0, 1) == [x] && Dropped([x, y], 0, 1) == [y];
    assert [x][1..] == [] && TotalTokens([x]) == 1;
    assert Items([x]) == [Item(x, 1)] && Omissions([y]) == [Omission(y.id, y.source, 1)];
  }
}
