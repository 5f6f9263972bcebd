/** Exactly when the input order shows under one given budget: which candidates that tie are kept and dropped. */
module ContextOrder {
  import opened Prelude
  import opened ContextBuilder

  // ----- Blocks of ties -------------------------------------------------------------------------------------------

  /** The length of the first block of candidates that tie. */
  function BlockLength(s: seq<Candidate>): (k: nat)
    requires s != []
    ensures 1 <= k <= |s|
  {
    if |s| > 1 && Tied(s[0], s[1]) then 1 + BlockLength(s[1..]) else 1
  }

  function Block(s: seq<Candidate>): seq<Candidate>
    requires s != []
  {
    s[..BlockLength(s)]
  }

  function Beyond(s: seq<Candidate>): seq<Candidate>
    requires s != []
  {
    s[BlockLength(s)..]
  }

  /** In a sorted list the first block is everything that ties with the first candidate. */
  lemma {:induction false} BlockIsTied(s: seq<Candidate>)
    requires Sorted(s) && s != []
    ensures forall c <- Block(s) :: Tied(s[0], c)
    ensures forall c <- Beyond(s) :: !Tied(s[0], c)
  {
    LeqOrder(s[0], s[0], s[0]);
    if |s| > 1 && Tied(s[0], s[1]) {
      BlockIsTied(s[1..]);
      forall c | c in Block(s) ensures Tied(s[0], c) {
        assert c == s[0] || c in Block(s[1..]);
        TiesCompose(s[0], s[1], c);
      }
      forall c | c in Beyond(s) ensures !Tied(s[0], c) {
        assert c in Beyond(s[1..]);
        TiesCompose(s[1], s[0], c);
      }
    } else if |s| > 1 {
      forall i | 1 <= i < |s| ensures !Tied(s[0], s[i]) {
        LeqOrder(s[1], s[i], s[0]);
        assert Leq(s[0], s[1]) && (i == 1 || Leq(s[1], s[i]));
      }
    }
  }

  lemma TiesCompose(a: Candidate, b: Candidate, c: Candidate)
    requires Tied(a, b)
    ensures Tied(b, c) <==> Tied(a, c)
  {
    LeqOrder(a, b, c);
    LeqOrder(b, a, c);
    LeqOrder(c, b, a);
    LeqOrder(c, a, b);
  }

  lemma SplitMultiset(s: seq<Candidate>, k: nat)
    requires k <= |s|
    ensures multiset(s) == multiset(s[..k]) + multiset(s[k..])
  {
    assert s == s[..k] + s[k..];
  }

  lemma CountInBlock(s: seq<Candidate>, c: Candidate)
    requires Sorted(s) && s != []
    ensures multiset(Block(s))[c] == if Tied(s[0], c) then multiset(s)[c] else 0
  {
    BlockIsTied(s);
    SplitMultiset(s, BlockLength(s));
    if Tied(s[0], c) {
      assert c !in Beyond(s);
    } else {
      assert c !in Block(s);
    }
  }

  lemma FirstsTie(s: seq<Candidate>, t: seq<Candidate>)
    requires Sorted(s) && Sorted(t) && multiset(s) == multiset(t) && s != []
    ensures t != [] && Tied(s[0], t[0])
  {
    assert s[0] in multiset(s);
    FirstIsLeast(t, s[0]);
    assert t[0] in multiset(t);
    FirstIsLeast(s, t[0]);
  }

  lemma SameBlocks(s: seq<Candidate>, t: seq<Candidate>)
    requires Sorted(s) && Sorted(t) && multiset(s) == multiset(t) && s != []
    ensures t != [] && multiset(Block(s)) == multiset(Block(t)) && multiset(Beyond(s)) == multiset(Beyond(t))
  {
    FirstsTie(s, t);
    forall c ensures multiset(Block(s))[c] == multiset(Block(t))[c] {
      CountInBlock(s, c);
      CountInBlock(t, c);
      TiesCompose(s[0], t[0], c);
    }
    SplitMultiset(s, BlockLength(s));
    SplitMultiset(t, BlockLength(t));
    assert multiset(Beyond(s)) == multiset(s) - multiset(Block(s));
    assert multiset(Beyond(t)) == multiset(t) - multiset(Block(t));
  }

  /** Block by block, the same candidates. */
  ghost predicate Aligned(s: seq<Candidate>, t: seq<Candidate>)
    decreases |s|
  {
    if s == [] then t == []
    else t != [] && multiset(Block(s)) == multiset(Block(t)) && Aligned(Beyond(s), Beyond(t))
  }

  lemma {:induction false} SortedAreAligned(s: seq<Candidate>, t: seq<Candidate>)
    requires Sorted(s) && Sorted(t) && multiset(s) == multiset(t)
    ensures Aligned(s, t)
    decreases |s|
  {
    assert |s| == |multiset(s)| == |multiset(t)| == |t|;
    if s == [] {
    } else {
      SameBlocks(s, t);
      SlicesSorted(s, BlockLength(s));
      SlicesSorted(t, BlockLength(t));
      SortedAreAligned(Beyond(s), Beyond(t));
    }
  }

  lemma SlicesSorted(s: seq<Candidate>, k: nat)
    requires Sorted(s) && k <= |s|
    ensures Sorted(s[..k]) && Sorted(s[k..])
  {
  }

  // ----- Packing in parts ------------------------------------------------------------------------------------------

  /** How a candidate that is left out is reported. */
  function OmissionOf(c: Candidate): Omission {
    Omission(c.id, c.source, Tokens(c))
  }

  /** The part of a package that a sorted list decides. */
  function Packed(s: seq<Candidate>, used: nat, usable: nat): (seq<Candidate>, seq<Omission>) {
    (Kept(s, used, usable), Omissions(Dropped(s, used, usable)))
  }

  lemma OmissionsHead(s: seq<Candidate>)
    requires s != []
    ensures Omissions(s) != [] && Omissions(s)[0] == OmissionOf(s[0])
  {
  }

  lemma OmissionsAppend(a: seq<Candidate>, b: seq<Candidate>)
    ensures Omissions(a + b) == Omissions(a) + Omissions(b)
  {
  }

  /** Packing, one candidate further. */
  lemma PackHead(s: seq<Candidate>, used: nat, usable: nat)
    requires s != []
    ensures Takes(s[0], used, usable) ==>
      && Kept(s, used, usable) == [s[0]] + Kept(s[1..], used + Tokens(s[0]), usable)
      && Dropped(s, used, usable) == Dropped(s[1..], used + Tokens(s[0]), usable)
      && TotalTokens(Kept(s, used, usable)) ==
         Tokens(s[0]) + TotalTokens(Kept(s[1..], used + Tokens(s[0]), usable))
    ensures !Takes(s[0], used, usable) ==>
      && Kept(s, used, usable) == Kept(s[1..], used, usable)
      && Dropped(s, used, usable) == [s[0]] + Dropped(s[1..], used, usable)
  {
    var kept := Kept(s[1..], used + Tokens(s[0]), usable);
    assert ([s[0]] + kept)[1..] == kept;
  }

  lemma Associates<T>(x: T, a: seq<T>, b: seq<T>)
    ensures [x] + (a + b) == ([x] + a) + b
  {
  }

  /** Both lists, one candidate further. */
  lemma AppendHead(a: seq<Candidate>, b: seq<Candidate>, used: nat, usable: nat)
    requires a != []
    ensures Takes(a[0], used, usable) ==>
      && Kept(a + b, used, usable) == [a[0]] + Kept(a[1..] + b, used + Tokens(a[0]), usable)
      && Dropped(a + b, used, usable) == Dropped(a[1..] + b, used + Tokens(a[0]), usable)
    ensures !Takes(a[0], used, usable) ==>
      && Kept(a + b, used, usable) == Kept(a[1..] + b, used, usable)
      && Dropped(a + b, used, usable) == [a[0]] + Dropped(a[1..] + b, used, usable)
  {
    assert (a + b)[0] == a[0] && (a + b)[1..] == a[1..] + b;
  }

  lemma {:induction false} KeptAppend(a: seq<Candidate>, b: seq<Candidate>, used: nat, usable: nat)
    ensures Kept(a + b, used, usable) ==
            Kept(a, used, usable) + Kept(b, used + TotalTokens(Kept(a, used, usable)), usable)
  {
    if a == [] {
      assert a + b == b;
    } else {
      var next := if Takes(a[0], used, usable) then used + Tokens(a[0]) else used;
      AppendHead(a, b, used, usable);
      PackHead(a, used, usable);
      KeptAppend(a[1..], b, next, usable);
      var kept := Kept(a[1..], next, usable);
      Associates(a[0], kept, Kept(b, next + TotalTokens(kept), usable));
    }
  }

  lemma {:induction false} DroppedAppend(a: seq<Candidate>, b: seq<Candidate>, used: nat, usable: nat)
    ensures Dropped(a + b, used, usable) ==
            Dropped(a, used, usable) + Dropped(b, used + TotalTokens(Kept(a, used, usable)), usable)
  {
    if a == [] {
      assert a + b == b;
    } else {
      var next := if Takes(a[0], used, usable) then used + Tokens(a[0]) else used;
      AppendHead(a, b, used, usable);
      PackHead(a, used, usable);
      DroppedAppend(a[1..], b, next, usable);
      var kept := Kept(a[1..], next, usable);
      Associates(a[0], Dropped(a[1..], next, usable), Dropped(b, next + TotalTokens(kept), usable));
    }
  }

  /** Packing again what was kept keeps it. */
  lemma {:induction false} KeptIsKept(s: seq<Candidate>, used: nat, usable: nat)
    ensures var kept := Kept(s, used, usable);
            Kept(kept, used, usable) == kept && Dropped(kept, used, usable) == []
  {
    if s == [] {
    } else if Takes(s[0], used, usable) {
      KeptIsKept(s[1..], used + Tokens(s[0]), usable);
      assert Kept(s, used, usable)[1..] == Kept(s[1..], used + Tokens(s[0]), usable);
    } else {
      KeptIsKept(s[1..], used, usable);
    }
  }

  /** What is dropped does not fit in the end either. */
  lemma {:induction false} DroppedStaysOut(s: seq<Candidate>, used: nat, usable: nat)
    ensures forall c <- Dropped(s, used, usable) :: !Takes(c, used + TotalTokens(Kept(s, used, usable)), usable)
  {
    if s == [] {
    } else {
      var next := if Takes(s[0], used, usable) then used + Tokens(s[0]) else used;
      DroppedStaysOut(s[1..], next, usable);
      var kept := Kept(s[1..], next, usable);
      assert ([s[0]] + kept)[1..] == kept;
    }
  }

  // ----- One block ------------------------------------------------------------------------------------------------

  /** All of a block that fits when its turn comes is the same, and so is all that is reported as omitted of it. */
  ghost predicate BlockIsPlain(b: seq<Candidate>, used: nat, usable: nat) {
    && (forall x, y {:trigger Takes(x, used, usable), Takes(y, used, usable)} ::
          x in b && y in b && Takes(x, used, usable) && Takes(y, used, usable) ==> x == y)
    && (forall x, y :: x in Dropped(b, used, usable) && y in Dropped(b, used, usable) ==>
          OmissionOf(x) == OmissionOf(y))
  }

  /** How many of `n` copies of `x` fit. */
  function Copies(x: Candidate, n: nat, used: nat, usable: nat): (r: nat)
    ensures r <= n
  {
    if n == 0 || !Takes(x, used, usable) then 0 else 1 + Copies(x, n - 1, used + Tokens(x), usable)
  }

  lemma {:induction false} OnlyCopiesFit(b: seq<Candidate>, x: Candidate, used: nat, usable: nat)
    requires forall c <- b :: c != x ==> !Takes(c, used, usable)
    ensures |Kept(b, used, usable)| == Copies(x, multiset(b)[x], used, usable)
    ensures forall c <- Kept(b, used, usable) :: c == x
  {
    if b == [] {
    } else {
      assert b == [b[0]] + b[1..];
      assert multiset(b)[x] == (if b[0] == x then 1 else 0) + multiset(b[1..])[x];
      var next := if Takes(b[0], used, usable) then used + Tokens(b[0]) else used;
      forall c | c in b[1..] && c != x ensures !Takes(c, next, usable) {
        assert c in b;
      }
      OnlyCopiesFit(b[1..], x, next, usable);
    }
  }

  lemma SameOmissions(a: seq<Candidate>, b: seq<Candidate>)
    requires multiset(a) == multiset(b)
    requires forall x, y :: x in a && y in a ==> OmissionOf(x) == OmissionOf(y)
    ensures Omissions(a) == Omissions(b)
  {
    assert |a| == |multiset(a)| == |multiset(b)| == |b|;
    forall i | 0 <= i < |a| ensures Omissions(a)[i] == Omissions(b)[i] {
      assert b[i] in multiset(b);
      assert OmissionOf(a[i]) == OmissionOf(b[i]);
    }
  }

  /** The one candidate of a plain block that can fit. */
  lemma OneFits(b: seq<Candidate>, used: nat, usable: nat) returns (x: Candidate)
    requires b != [] && BlockIsPlain(b, used, usable)
    ensures forall c <- b :: c != x ==> !Takes(c, used, usable)
  {
    x := b[0];
    if y :| y in b && Takes(y, used, usable) {
      x := y;
    }
  }

  lemma PlainKept(b: seq<Candidate>, c: seq<Candidate>, x: Candidate, used: nat, usable: nat)
    requires multiset(b) == multiset(c) && forall y <- b :: y != x ==> !Takes(y, used, usable)
    ensures Kept(b, used, usable) == Kept(c, used, usable)
  {
    forall y | y in c ensures y in b {
      assert y in multiset(c);
    }
    OnlyCopiesFit(b, x, used, usable);
    OnlyCopiesFit(c, x, used, usable);
    forall i | 0 <= i < |Kept(b, used, usable)| ensures Kept(b, used, usable)[i] == Kept(c, used, usable)[i] {
      assert Kept(b, used, usable)[i] in Kept(b, used, usable) && Kept(c, used, usable)[i] in Kept(c, used, usable);
    }
  }

  lemma SameDropped(b: seq<Candidate>, c: seq<Candidate>, used: nat, usable: nat)
    requires multiset(b) == multiset(c) && Kept(b, used, usable) == Kept(c, used, usable)
    ensures multiset(Dropped(b, used, usable)) == multiset(Dropped(c, used, usable))
  {
    PackingPartitions(b, used, usable);
    PackingPartitions(c, used, usable);
    assert multiset(Dropped(b, used, usable)) == multiset(b) - multiset(Kept(b, used, usable));
    assert multiset(Dropped(c, used, usable)) == multiset(c) - multiset(Kept(c, used, usable));
  }

  /** Every order of a plain block packs alike, and takes the same room. */
  lemma PlainBlockPacks(b: seq<Candidate>, c: seq<Candidate>, used: nat, usable: nat)
    requires multiset(b) == multiset(c) && b != [] && BlockIsPlain(b, used, usable)
    ensures Packed(b, used, usable) == Packed(c, used, usable)
  {
    var x := OneFits(b, used, usable);
    PlainKept(b, c, x, used, usable);
    SameDropped(b, c, used, usable);
    SameOmissions(Dropped(b, used, usable), Dropped(c, used, usable));
  }

  lemma WithFirst(b: seq<Candidate>, x: Candidate) returns (c: seq<Candidate>)
    requires x in b
    ensures multiset(c) == multiset(b) && c != [] && c[0] == x
  {
    assert x in multiset(b);
    var rest := RemoveFrom(b, x);
    c := [x] + rest;
  }

  /** Two orders of a block show when different candidates fit at its start. */
  lemma RivalsFit(b: seq<Candidate>, rest: seq<Candidate>, x: Candidate, y: Candidate, used: nat, usable: nat)
      returns (c: seq<Candidate>)
    requires x in b && y in b && x != y && Takes(x, used, usable) && Takes(y, used, usable)
    ensures multiset(c) == multiset(b) && Packed(c + rest, used, usable) != Packed(b + rest, used, usable)
  {
    var cx := WithFirst(b, x);
    var cy := WithFirst(b, y);
    assert Kept(cx + rest, used, usable)[0] == x && Kept(cy + rest, used, usable)[0] == y;
    c := if Packed(cx + rest, used, usable) == Packed(b + rest, used, usable) then cy else cx;
  }

  /** What was kept of the block first, and then one of the others. */
  lemma KeptFirst(b: seq<Candidate>, rest: seq<Candidate>, x: Candidate, used: nat, usable: nat)
      returns (c: seq<Candidate>)
    requires x in Dropped(b, used, usable)
    ensures multiset(c) == multiset(b)
    ensures Packed(c + rest, used, usable).1 != [] && Packed(c + rest, used, usable).1[0] == OmissionOf(x)
  {
    var others := WithFirst(Dropped(b, used, usable), x);
    c := Kept(b, used, usable) + others;
    Rearranged(b, others, used, usable);
    OthersComeFirst(b, others + rest, used, usable);
    assert c + rest == Kept(b, used, usable) + (others + rest);
  }

  lemma OthersComeFirst(b: seq<Candidate>, others: seq<Candidate>, used: nat, usable: nat)
    requires others != [] && others[0] in Dropped(b, used, usable)
    ensures var left := Packed(Kept(b, used, usable) + others, used, usable).1;
            left != [] && left[0] == OmissionOf(others[0])
  {
    KeptIsKept(b, used, usable);
    DroppedStaysOut(b, used, usable);
    DroppedComesFirst(Kept(b, used, usable), others, used, usable);
  }

  lemma Rearranged(b: seq<Candidate>, others: seq<Candidate>, used: nat, usable: nat)
    requires multiset(others) == multiset(Dropped(b, used, usable))
    ensures multiset(Kept(b, used, usable) + others) == multiset(b)
  {
    PackingPartitions(b, used, usable);
  }

  lemma DroppedComesFirst(kept: seq<Candidate>, others: seq<Candidate>, used: nat, usable: nat)
    requires Kept(kept, used, usable) == kept && Dropped(kept, used, usable) == []
    requires others != [] && !Takes(others[0], used + TotalTokens(kept), usable)
    ensures var left := Packed(kept + others, used, usable).1;
            left != [] && left[0] == OmissionOf(others[0])
  {
    var dropped := Dropped(kept + others, used, usable);
    assert dropped == Dropped(others, used + TotalTokens(kept), usable) by {
      DroppedAppend(kept, others, used, usable);
    }
    PackHead(others, used + TotalTokens(kept), usable);
    OmissionsHead(dropped);
  }

  /** Two orders of a block show when it leaves out candidates that are reported differently. */
  lemma RivalsDrop(b: seq<Candidate>, rest: seq<Candidate>, x: Candidate, y: Candidate, used: nat, usable: nat)
      returns (c: seq<Candidate>)
    requires x in Dropped(b, used, usable) && y in Dropped(b, used, usable) && OmissionOf(x) != OmissionOf(y)
    ensures multiset(c) == multiset(b) && Packed(c + rest, used, usable) != Packed(b + rest, used, usable)
  {
    var cx := KeptFirst(b, rest, x, used, usable);
    var cy := KeptFirst(b, rest, y, used, usable);
    c := if Packed(cx + rest, used, usable) == Packed(b + rest, used, usable) then cy else cx;
  }

  // ----- Whole lists ------------------------------------------------------------------------------------------------

  /** Every block of ties is plain when its turn comes. */
  ghost predicate OrderIsHidden(s: seq<Candidate>, used: nat, usable: nat)
    decreases |s|
  {
    s == [] ||
    (&& BlockIsPlain(Block(s), used, usable)
     && OrderIsHidden(Beyond(s), used + TotalTokens(Kept(Block(s), used, usable)), usable))
  }

  lemma PackJoined(a: seq<Candidate>, b: seq<Candidate>, used: nat, usable: nat)
    ensures var after := used + TotalTokens(Kept(a, used, usable));
            && Packed(a + b, used, usable).0 == Packed(a, used, usable).0 + Packed(b, after, usable).0
            && Packed(a + b, used, usable).1 == Packed(a, used, usable).1 + Packed(b, after, usable).1
  {
    KeptAppend(a, b, used, usable);
    DroppedAppend(a, b, used, usable);
    OmissionsAppend(Dropped(a, used, usable), Dropped(b, used + TotalTokens(Kept(a, used, usable)), usable));
  }

  /** Lists of two parts pack alike if the parts do. */
  lemma PartsAgree(a: seq<Candidate>, b: seq<Candidate>, c: seq<Candidate>, d: seq<Candidate>, used: nat, usable: nat)
    requires Packed(a, used, usable) == Packed(c, used, usable)
    requires var after := used + TotalTokens(Packed(a, used, usable).0);
             Packed(b, after, usable) == Packed(d, after, usable)
    ensures Packed(a + b, used, usable) == Packed(c + d, used, usable)
  {
    PackJoined(a, b, used, usable);
    PackJoined(c, d, used, usable);
  }

  /** And if only the second parts differ, it shows. */
  lemma PartsDiffer(a: seq<Candidate>, b: seq<Candidate>, c: seq<Candidate>, used: nat, usable: nat)
    requires var after := used + TotalTokens(Packed(a, used, usable).0);
             Packed(b, after, usable) != Packed(c, after, usable)
    ensures Packed(a + b, used, usable) != Packed(a + c, used, usable)
  {
    var start := Packed(a, used, usable);
    var after := used + TotalTokens(start.0);
    PackJoined(a, b, used, usable);
    PackJoined(a, c, used, usable);
    Differ(start.0, Packed(b, after, usable).0, Packed(c, after, usable).0);
    Differ(start.1, Packed(b, after, usable).1, Packed(c, after, usable).1);
  }

  lemma Differ<T>(a: seq<T>, b: seq<T>, c: seq<T>)
    ensures a + b == a + c <==> b == c
  {
    assert (a + b)[|a|..] == b && (a + c)[|a|..] == c;
  }

  lemma {:induction false} HiddenOrdersPack(s: seq<Candidate>, t: seq<Candidate>, used: nat, usable: nat)
    requires Aligned(s, t) && OrderIsHidden(s, used, usable)
    ensures Packed(s, used, usable) == Packed(t, used, usable)
    decreases |s|
  {
    if s == [] {
    } else {
      PlainBlockPacks(Block(s), Block(t), used, usable);
      HiddenOrdersPack(Beyond(s), Beyond(t), used + TotalTokens(Kept(Block(s), used, usable)), usable);
      PartsAgree(Block(s), Beyond(s), Block(t), Beyond(t), used, usable);
      assert s == Block(s) + Beyond(s) && t == Block(t) + Beyond(t);
    }
  }

  /** A sorted list stays sorted when its first block is put in another order. */
  lemma BlockReordered(s: seq<Candidate>, c: seq<Candidate>)
    requires Sorted(s) && s != [] && multiset(c) == multiset(Block(s))
    ensures Sorted(c + Beyond(s)) && multiset(c + Beyond(s)) == multiset(s)
  {
    BlockIsTied(s);
    SplitMultiset(s, BlockLength(s));
    assert s == Block(s) + Beyond(s);
    var t := c + Beyond(s);
    forall x | x in c ensures Tied(s[0], x) {
      assert x in multiset(c);
    }
    forall i, j | 0 <= i < j < |t| ensures Leq(t[i], t[j]) {
      if i < |c| {
        assert t[i] in c;
        assert t[j] in c || t[j] in Beyond(s);
        assert Leq(s[0], t[j]) by {
          if t[j] in c { assert Tied(s[0], t[j]); } else { FirstIsBefore(s, t[j]); }
        }
        LeqOrder(t[i], s[0], t[j]);
      } else {
        assert t[i] == Beyond(s)[i - |c|] && t[j] == Beyond(s)[j - |c|];
      }
    }
  }

  lemma FirstIsBefore(s: seq<Candidate>, c: Candidate)
    requires Sorted(s) && s != [] && c in s
    ensures Leq(s[0], c)
  {
    assert c in multiset(s);
    FirstIsLeast(s, c);
  }

  /** A sorted list stays sorted when what follows its first block is put in another sorted order. */
  lemma BeyondReordered(s: seq<Candidate>, r: seq<Candidate>)
    requires Sorted(s) && s != [] && Sorted(r) && multiset(r) == multiset(Beyond(s))
    ensures Sorted(Block(s) + r) && multiset(Block(s) + r) == multiset(s)
  {
    SplitMultiset(s, BlockLength(s));
    assert s == Block(s) + Beyond(s);
    var t := Block(s) + r;
    forall i, j | 0 <= i < j < |t| ensures Leq(t[i], t[j]) {
      if i < |Block(s)| <= j {
        assert t[j] in multiset(r);
        var k :| 0 <= k < |Beyond(s)| && Beyond(s)[k] == t[j];
        assert t[i] == s[i] && t[j] == s[BlockLength(s) + k];
      }
    }
  }

  lemma RoughBlockShows(s: seq<Candidate>, used: nat, usable: nat) returns (t: seq<Candidate>)
    requires Sorted(s) && s != [] && !BlockIsPlain(Block(s), used, usable)
    ensures Sorted(t) && multiset(t) == multiset(s) && Packed(t, used, usable) != Packed(s, used, usable)
  {
    var b, c := Block(s), [];
    assert s == b + Beyond(s);
    if x, y :| x in b && y in b && Takes(x, used, usable) && Takes(y, used, usable) && x != y {
      c := RivalsFit(b, Beyond(s), x, y, used, usable);
    } else {
      var x, y :| x in Dropped(b, used, usable) && y in Dropped(b, used, usable) && OmissionOf(x) != OmissionOf(y);
      c := RivalsDrop(b, Beyond(s), x, y, used, usable);
    }
    BlockReordered(s, c);
    t := c + Beyond(s);
  }

  lemma LaterBlockShows(s: seq<Candidate>, r: seq<Candidate>, used: nat, usable: nat)
    requires s != []
    requires var after := used + TotalTokens(Packed(Block(s), used, usable).0);
             Packed(r, after, usable) != Packed(Beyond(s), after, usable)
    ensures Packed(Block(s) + r, used, usable) != Packed(s, used, usable)
  {
    assert s == Block(s) + Beyond(s);
    PartsDiffer(Block(s), r, Beyond(s), used, usable);
  }

  lemma {:induction false} ShownOrder(s: seq<Candidate>, used: nat, usable: nat) returns (t: seq<Candidate>)
    requires Sorted(s) && !OrderIsHidden(s, used, usable)
    ensures Sorted(t) && multiset(t) == multiset(s) && Packed(t, used, usable) != Packed(s, used, usable)
    decreases |s|
  {
    if !BlockIsPlain(Block(s), used, usable) {
      t := RoughBlockShows(s, used, usable);
    } else {
      SlicesSorted(s, BlockLength(s));
      var r := ShownOrder(Beyond(s), used + TotalTokens(Kept(Block(s), used, usable)), usable);
      BeyondReordered(s, r);
      LaterBlockShows(s, r, used, usable);
      t := Block(s) + r;
    }
  }

  // ----- Packages ---------------------------------------------------------------------------------------------------

  lemma {:induction false} SortedIsSorted(s: seq<Candidate>)
    requires Sorted(s)
    ensures Sort(s) == s
  {
    if s == [] {
    } else {
      SortedIsSorted(s[1..]);
      assert |s| > 1 ==> Leq(s[0], s[1]);
      assert s == [s[0]] + s[1..];
    }
  }

  function PackageOf(packed: (seq<Candidate>, seq<Omission>), usable: nat): Package {
    Package(Items(packed.0), packed.1, TotalTokens(packed.0), usable)
  }

  lemma BuiltIs(s: seq<Candidate>, budget: Budget)
    requires Build(s, budget).Ok?
    ensures budget.reservedTokens < budget.maxTokens
    ensures var usable := budget.maxTokens - budget.reservedTokens;
            Build(s, budget).value == PackageOf(Packed(Sort(s), 0, usable), usable)
  {
    PackageContents(s, budget);
  }

  lemma BothBuilt(s: seq<Candidate>, t: seq<Candidate>, budget: Budget)
    requires AllValid(s) && multiset(t) == multiset(s) && Build(s, budget).Ok?
    ensures Build(t, budget).Ok?
  {
    ValidityIsShared(s, t);
    RequiredByMultiset(s, t);
    BuildSucceedsIff(s, budget);
    BuildSucceedsIff(t, budget);
  }

  lemma PackageDetermines(p: (seq<Candidate>, seq<Omission>), q: (seq<Candidate>, seq<Omission>), usable: nat)
    ensures PackageOf(p, usable) == PackageOf(q, usable) <==> p == q
  {
    if Items(p.0) == Items(q.0) {
      ItemsDetermine(p.0, q.0);
    }
  }

  /** For valid candidates the package is a matter of how the sorted list packs. */
  lemma SamePackageIff(s: seq<Candidate>, t: seq<Candidate>, budget: Budget)
    requires AllValid(s) && multiset(t) == multiset(s) && Build(s, budget).Ok?
    ensures var usable := Build(s, budget).value.usable;
            Build(t, budget) == Build(s, budget) <==> Packed(Sort(t), 0, usable) == Packed(Sort(s), 0, usable)
  {
    var usable := Build(s, budget).value.usable;
    BothBuilt(s, t, budget);
    BuiltIs(s, budget);
    BuiltIs(t, budget);
    PackageDetermines(Packed(Sort(t), 0, usable), Packed(Sort(s), 0, usable), usable);
  }

  /** An error does not depend on the order either. */
  lemma SameError(s: seq<Candidate>, t: seq<Candidate>, budget: Budget)
    requires AllValid(s) && multiset(t) == multiset(s) && Build(s, budget).Err?
    ensures Build(t, budget) == Build(s, budget)
  {
    ValidityIsShared(s, t);
    SortSorts(s);
    SortSorts(t);
    RequiredByMultiset(Sort(s), Sort(t));
  }

  /** Under a given budget the package of valid candidates is the same for every arrangement if and only if none is
      built, or in every block of ties those that fit when its turn comes are all the same candidate, and those
      that are left out are all reported alike. */
  lemma OrderHiddenIff(s: seq<Candidate>, budget: Budget)
    requires AllValid(s)
    ensures (forall t :: SamePackage(s, t, budget)) <==>
            Build(s, budget).Err? || OrderIsHidden(Sort(s), 0, Build(s, budget).value.usable)
  {
    if Build(s, budget).Err? {
      forall t ensures SamePackage(s, t, budget) {
        if multiset(t) == multiset(s) { SameError(s, t, budget); }
      }
    } else {
      OrderHiddenWhenBuilt(s, budget);
    }
  }

  lemma OrderHiddenWhenBuilt(s: seq<Candidate>, budget: Budget)
    requires AllValid(s) && Build(s, budget).Ok?
    ensures (forall t :: SamePackage(s, t, budget)) <==> OrderIsHidden(Sort(s), 0, Build(s, budget).value.usable)
  {
    var usable := Build(s, budget).value.usable;
    SortSorts(s);
    if OrderIsHidden(Sort(s), 0, usable) {
      forall t ensures SamePackage(s, t, budget) {
        if multiset(t) == multiset(s) {
          SortSorts(t);
          SortedAreAligned(Sort(s), Sort(t));
          HiddenOrdersPack(Sort(s), Sort(t), 0, usable);
          SamePackageIff(s, t, budget);
        }
      }
    } else {
      var t := ShownOrder(Sort(s), 0, usable);
      SortedIsSorted(t);
      SamePackageIff(s, t, budget);
      assert !SamePackage(s, t, budget);
    }
  }
}
