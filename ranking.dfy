/** The merit-order ranking of `GenerateProductionPlanResponse`
    (PowerplantController.cs): a stable sort by unit cost ascending, then by
    maximum output descending, followed by the tagging of every plant with
    its position inside its technology group. */
module Ranking {
  import opened Models

  // ---------------------------------------------------------------------
  // The sort: OrderBy(ElectricityUnitCost).ThenByDescending(MaxGenElectricalEnergy)

  /** a is strictly ahead of b in merit order. */
  predicate Before(a: Plant, b: Plant)
  {
    a.unitCost < b.unitCost || (a.unitCost == b.unitCost && a.maxGen > b.maxGen)
  }

  /** a and b have the same sort key, so a stable sort keeps their order. */
  predicate SameKey(a: Plant, b: Plant)
  {
    a.unitCost == b.unitCost && a.maxGen == b.maxGen
  }

  predicate Sorted(s: seq<Plant>)
  {
    forall i, j :: 0 <= i < j < |s| ==> !Before(s[j], s[i])
  }

  /** Inserts x in front of the first element that is not strictly ahead of it. */
  function Insert(x: Plant, t: seq<Plant>): seq<Plant>
  {
    if t == [] then [x]
    else if Before(t[0], x) then [t[0]] + Insert(x, t[1..])
    else [x] + t
  }

  /** The merit order of the plants, as the stable LINQ sort yields it. */
  function MeritOrder(s: seq<Plant>): seq<Plant>
  {
    if s == [] then [] else Insert(s[0], MeritOrder(s[1..]))
  }

  /** The plants of s that share k's sort key, in the order of s. */
  function Tier(s: seq<Plant>, k: Plant): seq<Plant>
  {
    if s == [] then []
    else (if SameKey(s[0], k) then [s[0]] else []) + Tier(s[1..], k)
  }

  lemma {:induction false} InsertPermutation(x: Plant, t: seq<Plant>)
    ensures multiset(Insert(x, t)) == multiset(t) + multiset{x}
  {
    if t != [] && Before(t[0], x) {
      InsertPermutation(x, t[1..]);
      assert t == [t[0]] + t[1..];
    }
  }

  /** A plant that no element of a sorted list is ahead of can lead it. */
  lemma SortedCons(a: Plant, r: seq<Plant>)
    requires Sorted(r)
    requires forall j :: 0 <= j < |r| ==> !Before(r[j], a)
    ensures Sorted([a] + r)
  {
    var u := [a] + r;
    forall i, j | 0 <= i < j < |u| ensures !Before(u[j], u[i]) {
      assert u[j] == r[j - 1];
      if i > 0 {
        assert u[i] == r[i - 1];
      }
    }
  }

  lemma {:induction false} InsertSortedPermutation(x: Plant, t: seq<Plant>)
    requires Sorted(t)
    ensures Sorted(Insert(x, t))
    ensures multiset(Insert(x, t)) == multiset(t) + multiset{x}
  {
    InsertPermutation(x, t);
    if t == [] {
    } else if Before(t[0], x) {
      InsertSortedPermutation(x, t[1..]);
      var r := Insert(x, t[1..]);
      forall j | 0 <= j < |r| ensures !Before(r[j], t[0]) {
        assert r[j] in multiset(r);
        if r[j] != x {
          assert r[j] in multiset(t[1..]);
          var k :| 0 <= k < |t[1..]| && t[1..][k] == r[j];
          assert t[k + 1] == r[j];
        }
      }
      SortedCons(t[0], r);
    } else {
      forall j | 0 <= j < |t| ensures !Before(t[j], x) {
        assert j == 0 || !Before(t[j], t[0]);
      }
      SortedCons(x, t);
    }
  }

  lemma {:induction false} InsertTier(x: Plant, t: seq<Plant>, k: Plant)
    ensures Tier(Insert(x, t), k) == Tier([x] + t, k)
  {
    if t != [] {
      if Before(t[0], x) {
        InsertTier(x, t[1..], k);
        assert ([t[0]] + Insert(x, t[1..]))[1..] == Insert(x, t[1..]);
        assert ([x] + t[1..])[1..] == t[1..];
        assert ([x] + t)[1..] == t;
        assert ([t[0]] + ([x] + t[1..]))[1..] == [x] + t[1..];
        assert Tier([t[0]] + ([x] + t[1..]), k) == Tier([x] + t, k) by {
          assert !(SameKey(x, k) && SameKey(t[0], k));
        }
      }
    }
  }

  /** Merit order: unit cost ascending, and between equal costs the larger
      maximum first; it holds the same plants as its input. */
  lemma {:induction false} MeritOrderSorted(s: seq<Plant>)
    ensures multiset(MeritOrder(s)) == multiset(s)
    ensures |MeritOrder(s)| == |s|
    ensures forall i, j :: 0 <= i < j < |s| ==>
      && MeritOrder(s)[i].unitCost <= MeritOrder(s)[j].unitCost
      && (MeritOrder(s)[i].unitCost == MeritOrder(s)[j].unitCost ==> MeritOrder(s)[i].maxGen >= MeritOrder(s)[j].maxGen)
  {
    MeritOrderSortedPermutation(s);
    assert |multiset(MeritOrder(s))| == |multiset(s)|;
  }

  lemma {:induction false} MeritOrderSortedPermutation(s: seq<Plant>)
    ensures Sorted(MeritOrder(s))
    ensures multiset(MeritOrder(s)) == multiset(s)
  {
    if s != [] {
      MeritOrderSortedPermutation(s[1..]);
      InsertSortedPermutation(s[0], MeritOrder(s[1..]));
      assert s == [s[0]] + s[1..];
    }
  }

  /** Stability: plants with equal cost and equal maximum keep their input
      order, tier by tier. */
  lemma {:induction false} MeritOrderStable(s: seq<Plant>, k: Plant)
    ensures Tier(MeritOrder(s), k) == Tier(s, k)
  {
    if s != [] {
      MeritOrderStable(s[1..], k);
      InsertTier(s[0], MeritOrder(s[1..]), k);
      assert ([s[0]] + MeritOrder(s[1..]))[1..] == MeritOrder(s[1..]);
    }
  }

  // ---------------------------------------------------------------------
  // The group tagging: group by Type over the whole ranked set, number each
  // group's plants 0, 1, ... in merit order and flag the last one.

  /** Positions of the plants of the given kind in s, ascending. */
  function Occurrences(s: seq<Plant>, kind: string): seq<nat>
  {
    if s == [] then []
    else Occurrences(s[..|s| - 1], kind) + (if s[|s| - 1].kind == kind then [|s| - 1] else [])
  }

  /** The kinds present in s, in order of first appearance: the keys of the
      LINQ grouping, in the order it yields its groups. */
  function Kinds(s: seq<Plant>): seq<string>
  {
    if s == [] then []
    else
      var ks := Kinds(s[..|s| - 1]);
      if s[|s| - 1].kind in ks then ks else ks + [s[|s| - 1].kind]
  }

  /** The number of plants of the same kind ahead of position i. */
  function Rank(s: seq<Plant>, i: nat): nat
    requires i < |s|
  {
    |Occurrences(s[..i], s[i].kind)|
  }

  /** The plant at position i with its group index and last-in-group flag. */
  function Tagged(s: seq<Plant>, i: nat): Plant
    requires i < |s|
  {
    s[i].(index := Rank(s, i), isLastInGroup := Rank(s, i) + 1 == |Occurrences(s, s[i].kind)|)
  }

  function TagAll(s: seq<Plant>): seq<Plant>
  {
    seq(|s|, i requires 0 <= i < |s| => Tagged(s, i))
  }

  /** Assigns Index and IsLastInGroup with the two nested loops of the source:
      one per group, one over the group's plants. */
  method TagGroups(a: array<Plant>)
    modifies a
    ensures a[..] == TagAll(old(a[..]))
  {
    var s := a[..];
    var kinds := Kinds(s);
    KindsComplete(s);
    var g := 0;
    while g < |kinds|
      invariant 0 <= g <= |kinds|
      invariant forall i :: 0 <= i < a.Length ==> a[i] == if s[i].kind in kinds[..g] then Tagged(s, i) else s[i]
    {
      var kind := kinds[g];
      var members := Occurrences(s, kind);
      var index := 0;
      while index < |members|
        invariant 0 <= index <= |members|
        invariant forall i :: 0 <= i < a.Length ==>
          a[i] == if s[i].kind in kinds[..g] || (s[i].kind == kind && Rank(s, i) < index) then Tagged(s, i) else s[i]
      {
        var pos := members[index];
        RankOfOccurrence(s, kind, index);
        assert kind !in kinds[..g];
        forall i | 0 <= i < a.Length && s[i].kind == kind && Rank(s, i) == index ensures i == pos {
          OccurrencesComplete(s, i);
        }
        a[pos] := a[pos].(index := index, isLastInGroup := index + 1 == |members|);
        index := index + 1;
      }
      forall i | 0 <= i < a.Length && s[i].kind == kind ensures Rank(s, i) < |members| {
        OccurrencesComplete(s, i);
      }
      assert kinds[..g + 1] == kinds[..g] + [kind];
      g := g + 1;
    }
  }

  // ---------------------------------------------------------------------
  // Properties of the tagging.

  lemma {:induction false} OccurrencesAscending(s: seq<Plant>, kind: string)
    ensures forall j :: 0 <= j < |Occurrences(s, kind)| ==>
      Occurrences(s, kind)[j] < |s| && s[Occurrences(s, kind)[j]].kind == kind
    ensures forall j1, j2 :: 0 <= j1 < j2 < |Occurrences(s, kind)| ==> Occurrences(s, kind)[j1] < Occurrences(s, kind)[j2]
  {
    if s != [] {
      var n := |s|;
      OccurrencesAscending(s[..n - 1], kind);
    }
  }

  /** The occurrences in a prefix of s are a prefix of the occurrences in s. */
  lemma {:induction false} OccurrencesPrefix(s: seq<Plant>, i: nat, kind: string)
    requires i <= |s|
    ensures |Occurrences(s[..i], kind)| <= |Occurrences(s, kind)|
    ensures Occurrences(s, kind)[..|Occurrences(s[..i], kind)|] == Occurrences(s[..i], kind)
    decreases |s| - i
  {
    if i < |s| {
      var n := |s|;
      assert s[..n - 1][..i] == s[..i];
      OccurrencesPrefix(s[..n - 1], i, kind);
    } else {
      assert s[..i] == s;
    }
  }

  /** Every plant is found among the occurrences of its kind, at its rank. */
  lemma OccurrencesComplete(s: seq<Plant>, i: nat)
    requires i < |s|
    ensures Rank(s, i) < |Occurrences(s, s[i].kind)|
    ensures Occurrences(s, s[i].kind)[Rank(s, i)] == i
  {
    var k := s[i].kind;
    assert s[..i + 1][..i] == s[..i];
    assert Occurrences(s[..i + 1], k) == Occurrences(s[..i], k) + [i];
    OccurrencesPrefix(s, i + 1, k);
  }

  /** The plant at the j-th occurrence of a kind has rank j. */
  lemma RankOfOccurrence(s: seq<Plant>, kind: string, j: nat)
    requires j < |Occurrences(s, kind)|
    ensures Occurrences(s, kind)[j] < |s|
    ensures s[Occurrences(s, kind)[j]].kind == kind
    ensures Rank(s, Occurrences(s, kind)[j]) == j
  {
    OccurrencesAscending(s, kind);
    var pos := Occurrences(s, kind)[j];
    OccurrencesComplete(s, pos);
  }

  lemma {:induction false} KindsComplete(s: seq<Plant>)
    ensures forall i :: 0 <= i < |s| ==> s[i].kind in Kinds(s)
    ensures forall g1, g2 :: 0 <= g1 < g2 < |Kinds(s)| ==> Kinds(s)[g1] != Kinds(s)[g2]
  {
    if s != [] {
      KindsComplete(s[..|s| - 1]);
      forall i | 0 <= i < |s| - 1 ensures s[i].kind in Kinds(s) {
        assert s[..|s| - 1][i] == s[i];
      }
    }
  }

  /** Within each type the index runs 0, 1, ..., n - 1 in merit order: the
      j-th plant of a kind gets index j, and the flag marks exactly the
      plant with the highest index. */
  lemma IndexRunsInMeritOrder(s: seq<Plant>, kind: string, j: nat)
    requires j < |Occurrences(s, kind)|
    ensures Occurrences(s, kind)[j] < |s|
    ensures TagAll(s)[Occurrences(s, kind)[j]].kind == kind
    ensures TagAll(s)[Occurrences(s, kind)[j]].index == j
    ensures TagAll(s)[Occurrences(s, kind)[j]].isLastInGroup <==> j == |Occurrences(s, kind)| - 1
  {
    RankOfOccurrence(s, kind, j);
  }

  /** IsLastInGroup holds exactly for the plant no later plant of the same
      type follows, wherever the plants of the type stand in merit order. */
  lemma LastInGroupIff(s: seq<Plant>, i: nat)
    requires i < |s|
    ensures TagAll(s)[i].isLastInGroup <==> forall j :: i < j < |s| ==> s[j].kind != s[i].kind
  {
    var k := s[i].kind;
    var occ := Occurrences(s, k);
    assert TagAll(s)[i] == Tagged(s, i);
    OccurrencesComplete(s, i);
    OccurrencesAscending(s, k);
    if exists j :: i < j < |s| && s[j].kind == k {
      var j :| i < j < |s| && s[j].kind == k;
      OccurrencesComplete(s, j);
      assert Rank(s, j) > Rank(s, i);
    } else {
      assert forall j :: 0 <= j < |occ| ==> occ[j] <= i;
      assert occ[|occ| - 1] <= occ[Rank(s, i)];
    }
  }

  /** Tagging changes only the two tag fields. */
  lemma TagAllKeeps(s: seq<Plant>, i: nat)
    requires i < |s|
    ensures |TagAll(s)| == |s|
    ensures TagAll(s)[i] == s[i].(index := TagAll(s)[i].index, isLastInGroup := TagAll(s)[i].isLastInGroup)
    ensures 0 <= TagAll(s)[i].index
  {
  }
}
