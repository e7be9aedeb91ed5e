/** The loops behind tool-group handling: the validity check, and the group numbering
    and splitting of Tier 2, each proved against the definitions on values. */
module ToolGroups {
  import opened Text
  import opened Messages
  import opened TierTwo
  import opened Cutoff

  ghost predicate CallsBelow(ms: seq<Message>, n: nat, calls: set<string>) {
    forall id :: id in calls <==> exists i :: 0 <= i < n && i < |ms| && Calls(ms[i], id)
  }

  ghost predicate ResultsBelow(ms: seq<Message>, n: nat, results: set<string>) {
    forall id :: id in results <==> exists i :: 0 <= i < n && i < |ms| && IsResult(ms[i]) && ms[i].toolCallId == id
  }

  method CallIds(m: Message) returns (ids: set<string>)
    requires m.role == Assistant
    ensures forall id :: id in ids <==> Calls(m, id)
  {
    ids := {};
    for k := 0 to |m.toolCalls|
      invariant forall id :: id in ids <==> CalledBelow(m, k, id)
    {
      ids := ids + {m.toolCalls[k].id};
    }
    assert forall id :: CalledBelow(m, |m.toolCalls|, id) <==> Calls(m, id);
  }

  method CollectIds(ms: seq<Message>) returns (calls: set<string>, results: set<string>)
    ensures CallsBelow(ms, |ms|, calls) && ResultsBelow(ms, |ms|, results)
  {
    calls, results := {}, {};
    for i := 0 to |ms|
      invariant CallsBelow(ms, i, calls) && ResultsBelow(ms, i, results)
    {
      if ms[i].role == Assistant {
        var ids := CallIds(ms[i]);
        calls := calls + ids;
      } else if IsResult(ms[i]) {
        results := results + {ms[i].toolCallId};
      }
    }
  }

  /** ValidateAtomicToolGroups. */
  method ValidateAtomicToolGroups(ms: seq<Message>) returns (ok: bool)
    ensures ok <==> WholeGroups(ms)
  {
    var calls, results := CollectIds(ms);
    if !(results <= calls) {
      OrphanSplits(ms, calls, results);
      return false;
    }
    var last := LastCaller(ms);
    for i := 0 to |ms|
      invariant forall k, id :: 0 <= k < i && Calls(ms[k], id) && id !in results ==> PendingAtEnd(ms, k)
    {
      if ms[i].role == Assistant {
        for t := 0 to |ms[i].toolCalls|
          invariant forall id :: CalledBelow(ms[i], t, id) && id !in results ==> PendingAtEnd(ms, i)
        {
          if ms[i].toolCalls[t].id !in results {
            var pending := i == last && SilentAfter(ms, i + 1);
            PendingIff(ms, i, last);
            if !pending {
              assert Calls(ms[i], ms[i].toolCalls[t].id);
              assert !HasResult(ms, ms[i].toolCalls[t].id);
              return false;
            }
          }
        }
        assert forall id :: CalledBelow(ms[i], |ms[i].toolCalls|, id) <==> Calls(ms[i], id);
      }
    }
    NothingSplit(ms, calls, results);
    return true;
  }

  lemma OrphanSplits(ms: seq<Message>, calls: set<string>, results: set<string>)
    requires CallsBelow(ms, |ms|, calls) && ResultsBelow(ms, |ms|, results) && !(results <= calls)
    ensures !WholeGroups(ms)
  {
    var id :| id in results && id !in calls;
    var i :| 0 <= i < |ms| && IsResult(ms[i]) && ms[i].toolCallId == id;
    assert !HasCall(ms, id);
  }

  lemma NothingSplit(ms: seq<Message>, calls: set<string>, results: set<string>)
    requires CallsBelow(ms, |ms|, calls) && ResultsBelow(ms, |ms|, results) && results <= calls
    requires forall k, id :: 0 <= k < |ms| && Calls(ms[k], id) && id !in results ==> PendingAtEnd(ms, k)
    ensures WholeGroups(ms)
  {
    forall i | 0 <= i < |ms| && IsResult(ms[i]) ensures HasCall(ms, ms[i].toolCallId) {
      assert ms[i].toolCallId in results;
    }
    forall i, id | 0 <= i < |ms| && Calls(ms[i], id) && !HasResult(ms, id) ensures PendingAtEnd(ms, i) {
      assert id !in results;
    }
  }

  /** The index of the last caller, or -1. */
  method LastCaller(ms: seq<Message>) returns (last: int)
    ensures -1 <= last < |ms| && (last >= 0 ==> IsCaller(ms[last]))
    ensures forall k :: last < k < |ms| ==> !IsCaller(ms[k])
  {
    last := |ms| - 1;
    while last >= 0 && !IsCaller(ms[last])
      invariant -1 <= last < |ms|
      invariant forall k :: last < k < |ms| ==> !IsCaller(ms[k])
    {
      last := last - 1;
    }
  }

  predicate SilentAfter(ms: seq<Message>, j: nat) {
    forall k :: j <= k < |ms| ==> !Speaks(ms[k])
  }

  lemma PendingIff(ms: seq<Message>, i: nat, last: int)
    requires i < |ms| && IsCaller(ms[i])
    requires -1 <= last < |ms| && (last >= 0 ==> IsCaller(ms[last])) && forall k :: last < k < |ms| ==> !IsCaller(ms[k])
    ensures PendingAtEnd(ms, i) <==> i == last && SilentAfter(ms, i + 1)
  {
    if i < last {
      assert Speaks(ms[last]);
    }
  }

  // ----- Group numbers ------------------------------------------------------------------

  /** Groups are numbered in the order of their callers. */
  function Rank(ms: seq<Message>, n: nat): nat
    requires n <= |ms|
  {
    if n == 0 then 0 else Rank(ms, n - 1) + if IsCaller(ms[n - 1]) then 1 else 0
  }

  lemma {:induction false} RankMonotone(ms: seq<Message>, a: nat, b: nat)
    requires a <= b <= |ms|
    ensures Rank(ms, a) <= Rank(ms, b)
    ensures a < b && IsCaller(ms[a]) ==> Rank(ms, a) < Rank(ms, b)
    decreases b
  {
    if a < b {
      RankMonotone(ms, a, b - 1);
    }
  }

  function GroupNumber(ms: seq<Message>, i: nat): int
    requires i < |ms|
  {
    if GroupOf(ms, i).Some? then Rank(ms, GroupOf(ms, i).value) else -1
  }

  /** Equal numbers mean the same group. */
  lemma NumbersIdentifyGroups(ms: seq<Message>, o: nat, p: nat)
    requires o < |ms| && p < |ms| && IsCaller(ms[o]) && IsCaller(ms[p])
    ensures Rank(ms, o) == Rank(ms, p) <==> o == p
  {
    if o < p { RankMonotone(ms, o, p); }
    if p < o { RankMonotone(ms, p, o); }
  }

  ghost predicate NumbersBelow(ms: seq<Message>, n: nat, table: map<string, nat>)
    requires n <= |ms|
  {
    forall id :: (id in table <==> OwnerBefore(ms, n, id).Some?)
                 && (id in table ==> table[id] == Rank(ms, OwnerBefore(ms, n, id).value))
  }

  lemma NumbersPush(ms: seq<Message>, n: nat, table: map<string, nat>, noted: map<string, nat>)
    requires n < |ms| && NumbersBelow(ms, n, table)
    requires IsCaller(ms[n]) ==> forall id :: (id in noted <==> id in table || Calls(ms[n], id))
                                  && (id in noted ==> noted[id] == if Calls(ms[n], id) then Rank(ms, n) else table[id])
    requires !IsCaller(ms[n]) ==> noted == table
    ensures NumbersBelow(ms, n + 1, noted)
  {
    forall id
      ensures (id in noted <==> OwnerBefore(ms, n + 1, id).Some?)
              && (id in noted ==> noted[id] == Rank(ms, OwnerBefore(ms, n + 1, id).value))
    {
      assert Calls(ms[n], id) ==> IsCaller(ms[n]);
    }
  }

  /** The protected groups among the first `n` messages, by number. */
  ghost predicate ShieldedBelow(ms: seq<Message>, n: nat, groups: set<int>)
    requires n <= |ms|
  {
    forall g ::
      g in groups <==> exists j :: 0 <= j < n && GroupOf(ms, j).Some? && GroupNumber(ms, j) == g && ms[j].isProtected
  }

  /** The numbering loop: each message's group, and the groups with a protected member. */
  method NumberGroups(ms: seq<Message>) returns (numbers: seq<int>, shielded: set<int>)
    ensures |numbers| == |ms| && forall i :: 0 <= i < |ms| ==> numbers[i] == GroupNumber(ms, i)
    ensures ShieldedBelow(ms, |ms|, shielded)
  {
    hide OwnerBefore, GroupOf, GroupNumber, Rank, NumbersBelow, ShieldedBelow;
    var table: map<string, nat> := map[];
    numbers, shielded := [], {};
    var next := 0;
    NumbersStart(ms);
    for i := 0 to |ms|
      invariant NumbersBelow(ms, i, table) && next == Rank(ms, i)
      invariant |numbers| == i && forall k :: 0 <= k < i ==> numbers[k] == GroupNumber(ms, k)
      invariant ShieldedBelow(ms, i, shielded)
    {
      ghost var before, groups := table, shielded;
      var number: int := -1;
      NumberOfNext(ms, i, table);
      if IsCaller(ms[i]) {
        number := next;
        next := next + 1;
        table := NoteCalls(ms[i], number, table);
      } else if IsResult(ms[i]) {
        if ms[i].toolCallId in table {
          number := table[ms[i].toolCallId];
        }
      }
      if number >= 0 && ms[i].isProtected {
        shielded := shielded + {number};
      }
      numbers := numbers + [number];
      NumbersPush(ms, i, before, table);
      ShieldedPush(ms, i, groups);
    }
  }

  /** The table and the counter give the group number of the next message. */
  lemma NumberOfNext(ms: seq<Message>, i: nat, table: map<string, nat>)
    requires i < |ms| && NumbersBelow(ms, i, table)
    ensures Rank(ms, i + 1) == Rank(ms, i) + if IsCaller(ms[i]) then 1 else 0
    ensures GroupNumber(ms, i) ==
      if IsCaller(ms[i]) then Rank(ms, i)
      else if IsResult(ms[i]) && ms[i].toolCallId in table then table[ms[i].toolCallId]
      else -1
  {
  }

  lemma ShieldedPush(ms: seq<Message>, i: nat, groups: set<int>)
    requires i < |ms| && ShieldedBelow(ms, i, groups)
    ensures ShieldedBelow(ms, i + 1,
      if GroupNumber(ms, i) >= 0 && ms[i].isProtected then groups + {GroupNumber(ms, i)} else groups)
  {
  }

  lemma NumbersStart(ms: seq<Message>)
    ensures NumbersBelow(ms, 0, map[]) && ShieldedBelow(ms, 0, {}) && Rank(ms, 0) == 0
  {
  }

  lemma ShieldedGroup(ms: seq<Message>, i: nat, groups: set<int>)
    requires i < |ms| && ShieldedBelow(ms, |ms|, groups)
    ensures GroupOf(ms, i).Some? ==> (GroupNumber(ms, i) in groups <==> GroupShielded(ms, GroupOf(ms, i).value))
    ensures GroupNumber(ms, i) >= 0 <==> GroupOf(ms, i).Some?
  {
    if GroupOf(ms, i).Some? {
      var o := GroupOf(ms, i).value;
      if GroupNumber(ms, i) in groups {
        var j :| 0 <= j < |ms| && GroupOf(ms, j).Some? && GroupNumber(ms, j) == GroupNumber(ms, i) && ms[j].isProtected;
        NumbersIdentifyGroups(ms, o, GroupOf(ms, j).value);
        assert InGroup(ms, j, o);
      }
      if GroupShielded(ms, o) {
        var j :| InGroup(ms, j, o) && ms[j].isProtected;
        assert GroupNumber(ms, j) == GroupNumber(ms, i);
      }
    }
  }

  /** Propagate protection: a copy of the messages with whole groups protected. */
  method SpreadProtection(ms: seq<Message>, numbers: seq<int>, shielded: set<int>) returns (out: seq<Message>)
    requires |numbers| == |ms| && forall i :: 0 <= i < |ms| ==> numbers[i] == GroupNumber(ms, i)
    requires ShieldedBelow(ms, |ms|, shielded)
    ensures |out| == |ms| && forall i :: 0 <= i < |ms| ==> out[i] == Marked(ms, i)
    ensures forall i :: 0 <= i < |ms| ==> (out[i].isProtected <==> Shielded(ms, i))
  {
    hide GroupOf, GroupNumber, ShieldedBelow;
    out := [];
    for i := 0 to |ms|
      invariant |out| == i
      invariant forall k :: 0 <= k < i ==> out[k] == Marked(ms, k) && (out[k].isProtected <==> Shielded(ms, k))
    {
      ShieldedGroup(ms, i, shielded);
      out := out + [if numbers[i] >= 0 && numbers[i] in shielded then ms[i].(isProtected := true) else ms[i]];
    }
  }

  /** The groups that must stay because one member does, by number. */
  ghost predicate StayingBelow(ms: seq<Message>, cutoff: int, n: nat, groups: set<int>)
    requires n <= |ms|
  {
    forall g :: g in groups <==>
      exists j ::
        0 <= j < n && GroupOf(ms, j).Some? && GroupNumber(ms, j) == g && !ms[j].isDigest && StaysAlone(ms, cutoff, j)
  }

  method StayingGroups(ms: seq<Message>, marked: seq<Message>, numbers: seq<int>, cutoff: int)
    returns (groups: set<int>)
    requires |numbers| == |ms| && forall i :: 0 <= i < |ms| ==> numbers[i] == GroupNumber(ms, i)
    requires |marked| == |ms| && forall i :: 0 <= i < |ms| ==> marked[i] == Marked(ms, i)
    requires forall i :: 0 <= i < |ms| ==> (marked[i].isProtected <==> Shielded(ms, i))
    ensures StayingBelow(ms, cutoff, |ms|, groups)
  {
    hide GroupOf, Shielded, Marked;
    groups := {};
    for i := 0 to |ms|
      invariant StayingBelow(ms, cutoff, i, groups)
    {
      if !marked[i].isDigest {
        if numbers[i] >= 0 && (i >= cutoff || marked[i].isProtected) {
          groups := groups + {numbers[i]};
        }
      }
    }
  }

  lemma StaysByNumber(ms: seq<Message>, cutoff: int, i: nat, groups: set<int>)
    requires i < |ms| && StayingBelow(ms, cutoff, |ms|, groups)
    ensures Stays(ms, cutoff, i) <==>
      !ms[i].isDigest && ((GroupNumber(ms, i) >= 0 && GroupNumber(ms, i) in groups) || i >= cutoff || Shielded(ms, i))
  {
    if GroupOf(ms, i).Some? {
      var o := GroupOf(ms, i).value;
      if GroupNumber(ms, i) in groups {
        var j :| 0 <= j < |ms| && GroupOf(ms, j).Some? && GroupNumber(ms, j) == GroupNumber(ms, i)
          && !ms[j].isDigest && StaysAlone(ms, cutoff, j);
        NumbersIdentifyGroups(ms, o, GroupOf(ms, j).value);
        assert InGroup(ms, j, o);
      }
      if GroupStays(ms, cutoff, o) {
        var j :| InGroup(ms, j, o) && !ms[j].isDigest && StaysAlone(ms, cutoff, j);
        assert GroupNumber(ms, j) == GroupNumber(ms, i);
      }
    }
  }

  /** The splitting loop: what goes to the summariser and what remains. */
  method Split(ms: seq<Message>, marked: seq<Message>, numbers: seq<int>, groups: set<int>, cutoff: int)
    returns (toSummarize: seq<Message>, remaining: seq<Message>)
    requires |numbers| == |ms| && forall i :: 0 <= i < |ms| ==> numbers[i] == GroupNumber(ms, i)
    requires |marked| == |ms| && forall i :: 0 <= i < |ms| ==> marked[i] == Marked(ms, i)
    requires forall i :: 0 <= i < |ms| ==> (marked[i].isProtected <==> Shielded(ms, i))
    requires StayingBelow(ms, cutoff, |ms|, groups)
    ensures toSummarize == ToSummarize(ms, cutoff) && remaining == Remaining(ms, cutoff)
  {
    hide GroupOf, GroupNumber, Shielded, Marked, StayingBelow, Stays, StayAt, GoAt, MarkedAt;
    toSummarize, remaining := [], [];
    NobodyYet(ms, cutoff);
    for i := 0 to |ms|
      invariant remaining == MarkedAt(ms, StayAt(ms, cutoff, i))
      invariant toSummarize == MarkedAt(ms, GoAt(ms, cutoff, i))
    {
      StaysByNumber(ms, cutoff, i, groups);
      PartitionPush(ms, cutoff, i);
      if marked[i].isDigest { continue; }
      if numbers[i] >= 0 && numbers[i] in groups {
        remaining := remaining + [marked[i]];
        continue;
      }
      if i < cutoff {
        if !marked[i].isProtected {
          toSummarize := toSummarize + [marked[i]];
        } else {
          remaining := remaining + [marked[i]];
        }
      } else {
        remaining := remaining + [marked[i]];
      }
    }
    AllDecided(ms, cutoff);
  }

  lemma AllDecided(ms: seq<Message>, cutoff: int)
    ensures MarkedAt(ms, StayAt(ms, cutoff, |ms|)) == Remaining(ms, cutoff)
    ensures MarkedAt(ms, GoAt(ms, cutoff, |ms|)) == ToSummarize(ms, cutoff)
  {
  }
}
