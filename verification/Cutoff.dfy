/** The safe cutoff of Tier 2. The groups are walked in the order of a Go map,
    which is any order at all; `Descend` is that walk for one given order. */
module Cutoff {
  import opened Text
  import opened Messages

  /** Group intervals: the first index of a group to its last. */
  type Ends = map<nat, nat>

  ghost predicate Splits(ends: Ends, o: nat, c: int) {
    o in ends && o < c <= ends[o]
  }

  /** Cutting in front of index `c` splits no group. */
  ghost predicate Safe(ends: Ends, c: int) {
    forall o :: o in ends ==> !Splits(ends, o, c)
  }

  ghost predicate IsOrder(ends: Ends, order: seq<nat>) {
    multiset(order) == multiset(ends.Keys)
  }

  function Descend(ends: Ends, order: seq<nat>, c: int): int
    requires forall o :: o in order ==> o in ends
  {
    if order == [] then c
    else
      var o := order[0];
      Descend(ends, order[1..], if o < c <= ends[o] then o else c)
  }

  lemma OrderMembers(ends: Ends, order: seq<nat>)
    requires IsOrder(ends, order)
    ensures forall o :: o in order <==> o in ends
  {
    forall o ensures o in order <==> o in ends {
      assert o in order <==> o in multiset(order);
      assert o in ends <==> o in multiset(ends.Keys);
    }
  }

  /** `m` is the first group that the target cuts through. */
  ghost predicate FirstSplit(ends: Ends, target: int, m: nat) {
    Splits(ends, m, target) && forall o :: Splits(ends, o, target) ==> m <= o
  }

  ghost predicate GreatestSafe(ends: Ends, target: int, c: int) {
    c <= target && Safe(ends, c) && forall d :: c < d <= target ==> !Safe(ends, d)
  }

  lemma {:induction false} DescendUntouched(ends: Ends, order: seq<nat>, c: int)
    requires forall o :: o in order ==> o in ends && !Splits(ends, o, c)
    ensures Descend(ends, order, c) == c
  {
    if order != [] {
      DescendUntouched(ends, order[1..], c);
    }
  }

  /** With the first split group itself safe, the walk stays at or above it and
      ends there once it has been visited. */
  lemma {:induction false} DescendToFirst(ends: Ends, order: seq<nat>, target: int, c: int, m: nat)
    requires forall o :: o in order ==> o in ends
    requires Splits(ends, m, target) && Safe(ends, m) && m <= c <= target
    ensures m <= Descend(ends, order, c) <= c
    ensures m in order || c == m ==> Descend(ends, order, c) == m
  {
    if order != [] {
      var o := order[0];
      assert !Splits(ends, o, m);
      var next: int := if o < c <= ends[o] then o else c;
      assert m <= next;
      DescendToFirst(ends, order[1..], target, next, m);
    }
  }

  lemma {:induction false} DescendConcat(ends: Ends, a: seq<nat>, b: seq<nat>, c: int)
    requires forall o :: o in a || o in b ==> o in ends
    requires forall o :: o in a + b ==> o in ends
    ensures Descend(ends, a + b, c) == Descend(ends, b, Descend(ends, a, c))
  {
    if a == [] {
      assert a + b == b;
    } else {
      assert (a + b)[1..] == a[1..] + b;
      assert forall o :: o in a[1..] + b ==> o in a + b;
      assert forall o :: o in a[1..] ==> o in a;
      DescendConcat(ends, a[1..], b, if a[0] < c <= ends[a[0]] then a[0] else c);
    }
  }

  ghost function Listed(s: set<nat>): (l: seq<nat>)
    ensures multiset(l) == multiset(s)
  {
    if s == {} then []
    else
      var x :| x in s;
      assert multiset(s) == multiset{x} + multiset(s - {x});
      [x] + Listed(s - {x})
  }

  lemma ListedMembers(s: set<nat>)
    ensures forall o :: o in Listed(s) <==> o in s
  {
    forall o ensures o in Listed(s) <==> o in s {
      assert o in Listed(s) <==> o in multiset(Listed(s));
    }
  }

  /** The unlucky order: everything before the first split group, then it, then the
      rest. It always lands on the first split group, safe or not. */
  lemma OrderToFirst(ends: Ends, target: int, m: nat) returns (order: seq<nat>)
    requires FirstSplit(ends, target, m)
    ensures IsOrder(ends, order) && (forall o :: o in order ==> o in ends)
    ensures Descend(ends, order, target) == m
  {
    hide Descend, Listed;
    var below, above := set o | o in ends.Keys && o < m, set o | o in ends.Keys && o > m;
    var a, b := Listed(below), Listed(above);
    order := a + ([m] + b);
    ListedMembers(below);
    ListedMembers(above);
    assert ends.Keys == below + {m} + above;
    ListedInThree(ends.Keys, below, m, above);
    OrderMembers(ends, order);
    LandsOnFirst(ends, target, m, a, b);
  }

  lemma LandsOnFirst(ends: Ends, target: int, m: nat, a: seq<nat>, b: seq<nat>)
    requires FirstSplit(ends, target, m)
    requires forall o :: o in a ==> o in ends && o < m
    requires forall o :: o in b ==> o in ends && o > m
    requires forall o :: o in a + ([m] + b) ==> o in ends
    ensures Descend(ends, a + ([m] + b), target) == m
  {
    assert forall o :: o in [m] + b ==> o == m || o in b;
    DescendConcat(ends, a, [m] + b, target);
    DescendUntouched(ends, a, target);
    assert ([m] + b)[1..] == b;
    DescendUntouched(ends, b, m);
  }

  lemma ListedInThree(s: set<nat>, below: set<nat>, m: nat, above: set<nat>)
    requires s == below + {m} + above && m !in below && m !in above && below !! above
    ensures multiset(Listed(below) + ([m] + Listed(above))) == multiset(s)
  {
    assert multiset(s) == multiset(below) + multiset{m} + multiset(above);
  }

  /** For one visiting order after another: the result splits no group whatever the
      order exactly when the target splits none, or the first group it splits starts
      at a safe place. */
  lemma SafeForEveryOrderIff(ends: Ends, target: int)
    ensures (forall order :: IsOrder(ends, order) && (forall o :: o in order ==> o in ends)
                             ==> Safe(ends, Descend(ends, order, target)))
            <==> (Safe(ends, target) || exists m: nat :: FirstSplit(ends, target, m) && Safe(ends, m))
  {
    if Safe(ends, target) {
      forall order | IsOrder(ends, order) && (forall o :: o in order ==> o in ends)
        ensures Safe(ends, Descend(ends, order, target))
      {
        DescendUntouched(ends, order, target);
      }
    } else {
      var m := FirstSplitExists(ends, target);
      if Safe(ends, m) {
        forall order | IsOrder(ends, order) && (forall o :: o in order ==> o in ends)
          ensures Safe(ends, Descend(ends, order, target))
        {
          OrderMembers(ends, order);
          DescendToFirst(ends, order, target, target, m);
        }
      } else {
        var order := OrderToFirst(ends, target, m);
        assert !Safe(ends, Descend(ends, order, target));
        assert forall k: nat :: FirstSplit(ends, target, k) ==> k == m;
      }
    }
  }

  lemma FirstSplitExists(ends: Ends, target: int) returns (m: nat)
    requires !Safe(ends, target)
    ensures FirstSplit(ends, target, m)
  {
    m :| Splits(ends, m, target);
    while exists o: nat :: Splits(ends, o, target) && o < m
      invariant Splits(ends, m, target)
      decreases m
    {
      var o: nat :| Splits(ends, o, target) && o < m;
      m := o;
    }
  }

  /** When the order does not matter, the result is the best possible cutoff. */
  lemma CutoffIsGreatest(ends: Ends, target: int, order: seq<nat>)
    requires IsOrder(ends, order) && forall o :: o in order ==> o in ends
    requires Safe(ends, target) || exists m: nat :: FirstSplit(ends, target, m) && Safe(ends, m)
    ensures GreatestSafe(ends, target, Descend(ends, order, target))
  {
    if Safe(ends, target) {
      DescendUntouched(ends, order, target);
    } else {
      var m: nat :| FirstSplit(ends, target, m) && Safe(ends, m);
      OrderMembers(ends, order);
      DescendToFirst(ends, order, target, target, m);
      forall d | m < d <= target ensures !Safe(ends, d) {
        assert Splits(ends, m, d);
      }
    }
  }

  ghost predicate Disjoint(ends: Ends) {
    forall o, p :: o in ends && p in ends && o < p ==> ends[o] < p
  }

  /** Groups that do not interleave always meet that condition. */
  lemma DisjointIsEnough(ends: Ends, target: int)
    requires Disjoint(ends)
    ensures Safe(ends, target) || exists m: nat :: FirstSplit(ends, target, m) && Safe(ends, m)
  {
    if !Safe(ends, target) {
      var m := FirstSplitExists(ends, target);
      forall o | o in ends ensures !Splits(ends, o, m) {
      }
    }
  }

  // ----- The intervals of a message list --------------------------------------------------

  /** The last index below `n` in the group of caller `o`. */
  function EndBelow(ms: seq<Message>, n: nat, o: nat): (e: nat)
    requires o < n <= |ms| && IsCaller(ms[o])
    ensures o <= e < n && GroupOf(ms, e) == Some(o)
    ensures forall i :: e < i < n ==> GroupOf(ms, i) != Some(o)
  {
    if GroupOf(ms, n - 1) == Some(o) then n - 1 else EndBelow(ms, n - 1, o)
  }

  function EndsBelow(ms: seq<Message>, n: nat): Ends
    requires n <= |ms|
  {
    map o: nat | 0 <= o < n && IsCaller(ms[o]) :: EndBelow(ms, n, o)
  }

  /** Cutting at a place that is safe for the intervals separates no two members of
      a group. */
  lemma SafeSeparatesNoGroup(ms: seq<Message>, c: int, i: nat, j: nat)
    requires Safe(EndsBelow(ms, |ms|), c)
    requires i < |ms| && j < |ms| && GroupOf(ms, i).Some? && GroupOf(ms, i) == GroupOf(ms, j)
    ensures i < c <==> j < c
  {
    var o := GroupOf(ms, i).value;
    var ends := EndsBelow(ms, |ms|);
    assert o in ends;
    assert !Splits(ends, o, c);
  }

  lemma EndsPush(ms: seq<Message>, n: nat)
    requires n < |ms|
    ensures EndsBelow(ms, n + 1) ==
      match GroupOf(ms, n)
      case None => EndsBelow(ms, n)
      case Some(o) => EndsBelow(ms, n)[o := n]
  {
  }

  /** Two calls issued before either result arrives, and one message after the results. */
  const INTERLEAVED := [Calling("a"), Calling("b"), Answering("a"), Answering("b"), Plain(User)]

  /** Messages 0 and 1 call a and b; messages 2 and 3 are the results, in this order. */
  ghost predicate TwoPairs(ms: seq<Message>) {
    && |ms| == 5
    && (forall i :: 0 <= i < 5 ==> !ms[i].isDigest && (IsCaller(ms[i]) <==> i < 2) && (IsResult(ms[i]) <==> 2 <= i < 4))
    && (forall i, id :: 0 <= i < 5 ==> (Calls(ms[i], id) <==> (i == 0 && id == "a") || (i == 1 && id == "b")))
    && ms[2].toolCallId == "a" && ms[3].toolCallId == "b"
  }

  lemma InterleavedIsTwoPairs()
    ensures TwoPairs(INTERLEAVED)
  {
    forall id ensures (Calls(Calling("a"), id) <==> id == "a") && (Calls(Calling("b"), id) <==> id == "b") {
      CallingCalls("a", id);
      CallingCalls("b", id);
    }
  }

  lemma TwoPairsInterleave(ms: seq<Message>)
    requires TwoPairs(ms)
    ensures WellFormed(ms) && EndsBelow(ms, 5) == map[0 := 2, 1 := 3]
  {
    hide IsCaller, IsResult, Calls;
    assert OwnerBefore(ms, 2, "a") == Some(0);
    assert OwnerBefore(ms, 3, "b") == Some(1);
    assert HasResult(ms, "a") by { assert IsResult(ms[2]); }
    assert HasResult(ms, "b") by { assert IsResult(ms[3]); }
    assert HasCall(ms, "a") by { assert Calls(ms[0], "a"); }
    assert HasCall(ms, "b") by { assert Calls(ms[1], "b"); }
    assert EndBelow(ms, 4, 1) == 3 && EndBelow(ms, 5, 1) == 3;
    assert EndBelow(ms, 3, 0) == 2 && EndBelow(ms, 4, 0) == 2 && EndBelow(ms, 5, 0) == 2;
    assert EndsBelow(ms, 5).Keys == {0, 1};
  }

  /** Interleaved groups are where the map order shows: for this well-formed history, with
      the target two messages from the end, one walk splits a group and the other does not. */
  lemma OrderMattersExample() returns (ms: seq<Message>)
    ensures WellFormed(ms) && |ms| == 5 && EndsBelow(ms, |ms|) == map[0 := 2, 1 := 3]
    ensures var ends: Ends := map[0 := 2, 1 := 3];
      && IsOrder(ends, [0, 1]) && IsOrder(ends, [1, 0])
      && Descend(ends, [1, 0], |ms| - 2) == 0 && Safe(ends, 0)
      && Descend(ends, [0, 1], |ms| - 2) == 1 && !Safe(ends, 1)
  {
    ms := INTERLEAVED;
    hide TwoPairs, EndsBelow, WellFormed;
    InterleavedIsTwoPairs();
    TwoPairsInterleave(ms);
    assert |ms| == 5;
    WalksDiffer(map[0 := 2, 1 := 3]);
  }

  lemma WalksDiffer(ends: Ends)
    requires ends == map[0 := 2, 1 := 3]
    ensures IsOrder(ends, [0, 1]) && IsOrder(ends, [1, 0])
    ensures Descend(ends, [1, 0], 3) == 0 && Safe(ends, 0)
    ensures Descend(ends, [0, 1], 3) == 1 && !Safe(ends, 1)
  {
    assert ends.Keys == {0, 1} && ends[0] == 2 && ends[1] == 3;
    assert multiset(ends.Keys) == multiset{0, 1};
    assert multiset([0, 1]) == multiset{0, 1} == multiset([1, 0]);
    assert [0, 1][1..] == [1] && [1, 0][1..] == [0];
    assert [0][1..] == [] && [1][1..] == [];
    assert Descend(ends, [], 0) == 0 && Descend(ends, [], 1) == 1;
    assert Descend(ends, [1], 3) == 1;
    assert Descend(ends, [0], 1) == Descend(ends, [0][1..], 0);
    assert Splits(ends, 0, 1);
  }

  /** The id table of the first loop: the latest caller of every id so far. */
  ghost predicate OwnersBelow(ms: seq<Message>, n: nat, owners: map<string, nat>)
    requires n <= |ms|
  {
    forall id :: (id in owners <==> OwnerBefore(ms, n, id).Some?)
                 && (id in owners ==> OwnerBefore(ms, n, id) == Some(owners[id]))
  }

  ghost predicate CalledBelow(m: Message, k: nat, id: string) {
    exists j :: 0 <= j < k && j < |m.toolCalls| && m.toolCalls[j].id == id
  }

  /** `noted` is `table` with the first `k` call ids of `m` set to `v`. */
  ghost predicate Noted(m: Message, k: nat, v: nat, table: map<string, nat>, noted: map<string, nat>) {
    forall id :: (id in noted <==> id in table || CalledBelow(m, k, id))
                 && (id in noted ==> noted[id] == if CalledBelow(m, k, id) then v else table[id])
  }

  /** Enter `v` for every id that `m` calls, replacing older entries. */
  method NoteCalls(m: Message, v: nat, table: map<string, nat>) returns (noted: map<string, nat>)
    requires IsCaller(m)
    ensures forall id :: (id in noted <==> id in table || Calls(m, id))
                         && (id in noted ==> noted[id] == if Calls(m, id) then v else table[id])
  {
    noted := table;
    for k := 0 to |m.toolCalls|
      invariant Noted(m, k, v, table, noted)
    {
      noted := noted[m.toolCalls[k].id := v];
    }
    assert forall id :: CalledBelow(m, |m.toolCalls|, id) <==> Calls(m, id);
  }

  lemma OwnersPush(ms: seq<Message>, n: nat, owners: map<string, nat>, noted: map<string, nat>)
    requires n < |ms| && OwnersBelow(ms, n, owners)
    requires IsCaller(ms[n]) ==> forall id :: (id in noted <==> id in owners || Calls(ms[n], id))
                                  && (id in noted ==> noted[id] == if Calls(ms[n], id) then n else owners[id])
    requires !IsCaller(ms[n]) ==> noted == owners
    ensures OwnersBelow(ms, n + 1, noted)
  {
    forall id
      ensures (id in noted <==> OwnerBefore(ms, n + 1, id).Some?)
              && (id in noted ==> OwnerBefore(ms, n + 1, id) == Some(noted[id]))
    {
      assert Calls(ms[n], id) ==> IsCaller(ms[n]);
    }
  }

  /** The first loop of findSafeCutoff: owners and group ends in one pass. */
  method CollectEnds(ms: seq<Message>) returns (groupEnd: map<nat, nat>)
    ensures groupEnd == EndsBelow(ms, |ms|)
  {
    hide EndBelow, OwnerBefore;
    var owners: map<string, nat> := map[];
    groupEnd := map[];
    NoOwners(ms);
    for i := 0 to |ms|
      invariant OwnersBelow(ms, i, owners)
      invariant groupEnd == EndsBelow(ms, i)
    {
      EndsPush(ms, i);
      ghost var before := owners;
      if IsCaller(ms[i]) {
        owners := NoteCalls(ms[i], i, owners);
        groupEnd := groupEnd[i := i];
      } else if IsResult(ms[i]) {
        if ms[i].toolCallId in owners {
          var o := owners[ms[i].toolCallId];
          if i > groupEnd[o] {
            groupEnd := groupEnd[o := i];
          }
        }
      }
      OwnersPush(ms, i, before, owners);
    }
  }

  lemma NoOwners(ms: seq<Message>)
    ensures OwnersBelow(ms, 0, map[]) && EndsBelow(ms, 0) == map[]
  {
  }

  /** findSafeCutoff. The map is walked in whatever order `:|` picks. */
  method FindSafeCutoff(ms: seq<Message>, target: int) returns (cutoff: int, ghost order: seq<nat>)
    ensures target <= 0 ==> cutoff == 0
    ensures target >= |ms| && target > 0 ==> cutoff == |ms|
    ensures 0 < target < |ms| ==>
      var ends := EndsBelow(ms, |ms|);
      && IsOrder(ends, order) && (forall o :: o in order ==> o in ends)
      && cutoff == Descend(ends, order, target) && 0 <= cutoff <= target
    ensures 0 < target < |ms| && Disjoint(EndsBelow(ms, |ms|)) ==> GreatestSafe(EndsBelow(ms, |ms|), target, cutoff)
  {
    order := [];
    if target <= 0 { return 0, order; }
    if target >= |ms| { return |ms|, order; }
    var groupEnd := CollectEnds(ms);
    cutoff, order := WalkGroups(groupEnd, target);
    if Disjoint(groupEnd) {
      DisjointIsEnough(groupEnd, target);
      CutoffIsGreatest(groupEnd, target, order);
    }
  }

  method WalkGroups(ends: Ends, target: int) returns (cutoff: int, ghost order: seq<nat>)
    requires 0 < target
    ensures IsOrder(ends, order) && (forall o :: o in order ==> o in ends)
    ensures cutoff == Descend(ends, order, target) && 0 <= cutoff <= target
  {
    cutoff, order := target, [];
    var todo := ends.Keys;
    while todo != {}
      invariant todo <= ends.Keys && multiset(order) == multiset(ends.Keys - todo)
      invariant forall o :: o in order ==> o in ends
      invariant cutoff == Descend(ends, order, target) && 0 <= cutoff <= target
      decreases |todo|
    {
      var o :| o in todo;
      DescendConcat(ends, order, [o], target);
      if cutoff > o && cutoff <= ends[o] {
        cutoff := o;
      }
      assert ends.Keys - (todo - {o}) == (ends.Keys - todo) + {o};
      assert multiset((ends.Keys - todo) + {o}) == multiset(ends.Keys - todo) + multiset{o};
      order, todo := order + [o], todo - {o};
    }
    assert ends.Keys - {} == ends.Keys;
  }
}
