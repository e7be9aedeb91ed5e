/** Tier 2 of context compaction on values: which messages stay, which are handed
    to the summariser, and why whole tool groups move together. */
module TierTwo {
  import opened Text
  import opened Messages

  // ----- Protection spreads over a group ---------------------------------------------

  ghost predicate GroupShielded(ms: seq<Message>, o: nat) {
    exists j :: InGroup(ms, j, o) && ms[j].isProtected
  }

  ghost predicate Shielded(ms: seq<Message>, i: nat)
    requires i < |ms|
  {
    ms[i].isProtected || (GroupOf(ms, i).Some? && GroupShielded(ms, GroupOf(ms, i).value))
  }

  ghost function Marked(ms: seq<Message>, i: nat): (m: Message)
    requires i < |ms|
    ensures m == ms[i] || m == ms[i].(isProtected := true)
    ensures ms[i].isProtected ==> m == ms[i]
  {
    if Shielded(ms, i) then ms[i].(isProtected := true) else ms[i]
  }

  // ----- Who stays ---------------------------------------------------------------------

  ghost predicate StaysAlone(ms: seq<Message>, cutoff: int, i: nat)
    requires i < |ms|
  {
    i >= cutoff || Shielded(ms, i)
  }

  ghost predicate GroupStays(ms: seq<Message>, cutoff: int, o: nat) {
    exists j :: InGroup(ms, j, o) && !ms[j].isDigest && StaysAlone(ms, cutoff, j)
  }

  ghost predicate Stays(ms: seq<Message>, cutoff: int, i: nat)
    requires i < |ms|
  {
    !ms[i].isDigest &&
    (StaysAlone(ms, cutoff, i) || (GroupOf(ms, i).Some? && GroupStays(ms, cutoff, GroupOf(ms, i).value)))
  }

  ghost predicate Goes(ms: seq<Message>, cutoff: int, i: nat)
    requires i < |ms|
  {
    !ms[i].isDigest && !Stays(ms, cutoff, i)
  }

  /** Indices below `n` of the messages that stay, in order. */
  ghost function StayAt(ms: seq<Message>, cutoff: int, n: nat): (f: seq<nat>)
    requires n <= |ms|
    ensures forall k :: 0 <= k < |f| ==> f[k] < n && Stays(ms, cutoff, f[k])
    ensures forall j, k :: 0 <= j < k < |f| ==> f[j] < f[k]
    ensures forall i :: 0 <= i < n && Stays(ms, cutoff, i) ==> i in f
  {
    if n == 0 then []
    else if Stays(ms, cutoff, n - 1) then StayAt(ms, cutoff, n - 1) + [n - 1]
    else StayAt(ms, cutoff, n - 1)
  }

  /** Indices below `n` of the messages handed to the summariser, in order. */
  ghost function GoAt(ms: seq<Message>, cutoff: int, n: nat): (f: seq<nat>)
    requires n <= |ms|
    ensures forall k :: 0 <= k < |f| ==> f[k] < n && Goes(ms, cutoff, f[k])
    ensures forall j, k :: 0 <= j < k < |f| ==> f[j] < f[k]
    ensures forall i :: 0 <= i < n && Goes(ms, cutoff, i) ==> i in f
  {
    if n == 0 then []
    else if Goes(ms, cutoff, n - 1) then GoAt(ms, cutoff, n - 1) + [n - 1]
    else GoAt(ms, cutoff, n - 1)
  }

  ghost function Remaining(ms: seq<Message>, cutoff: int): seq<Message> {
    var f := StayAt(ms, cutoff, |ms|);
    seq(|f|, k requires 0 <= k < |f| => Marked(ms, f[k]))
  }

  ghost function ToSummarize(ms: seq<Message>, cutoff: int): seq<Message> {
    var f := GoAt(ms, cutoff, |ms|);
    seq(|f|, k requires 0 <= k < |f| => Marked(ms, f[k]))
  }

  function DigestCount(ms: seq<Message>): nat {
    if ms == [] then 0 else DigestCount(ms[..|ms| - 1]) + if ms[|ms| - 1].isDigest then 1 else 0
  }

  /** A partition: every message stays, goes to the summariser or was a digest, each
      in exactly one of the three, and both lists keep the original order. */
  lemma TierTwoPartitions(ms: seq<Message>, cutoff: int)
    ensures var stay, go := StayAt(ms, cutoff, |ms|), GoAt(ms, cutoff, |ms|);
      && (forall i :: 0 <= i < |ms| ==> (i in stay || i in go || ms[i].isDigest))
      && (forall i :: 0 <= i < |ms| && i in stay ==> i !in go && !ms[i].isDigest)
      && (forall i :: 0 <= i < |ms| && i in go ==> !ms[i].isDigest)
      && |Remaining(ms, cutoff)| + |ToSummarize(ms, cutoff)| + DigestCount(ms) == |ms|
  {
    CountsAddUp(ms, cutoff, |ms|);
    assert ms[..|ms|] == ms;
  }

  lemma {:induction false} CountsAddUp(ms: seq<Message>, cutoff: int, n: nat)
    requires n <= |ms|
    ensures |StayAt(ms, cutoff, n)| + |GoAt(ms, cutoff, n)| + DigestCount(ms[..n]) == n
  {
    if n > 0 {
      CountsAddUp(ms, cutoff, n - 1);
      assert ms[..n][..n - 1] == ms[..n - 1];
    }
  }

  /** No group is split: two members of one group that are not digests stay together
      or go together. */
  lemma GroupsMoveTogether(ms: seq<Message>, cutoff: int, i: nat, j: nat)
    requires i < |ms| && j < |ms| && GroupOf(ms, i).Some? && GroupOf(ms, i) == GroupOf(ms, j)
    requires !ms[i].isDigest && !ms[j].isDigest
    ensures Stays(ms, cutoff, i) <==> Stays(ms, cutoff, j)
  {
    var o := GroupOf(ms, i).value;
    assert InGroup(ms, i, o) && InGroup(ms, j, o);
  }

  ghost function MarkedAt(ms: seq<Message>, f: seq<nat>): seq<Message>
    requires forall k :: 0 <= k < |f| ==> f[k] < |ms|
  {
    seq(|f|, k requires 0 <= k < |f| => Marked(ms, f[k]))
  }

  lemma ProtectedStays(ms: seq<Message>, cutoff: int, i: nat)
    requires i < |ms| && !ms[i].isDigest && (ms[i].isProtected || i >= cutoff)
    ensures Stays(ms, cutoff, i)
  {
  }

  /** Protected messages survive unchanged and in order. */
  lemma ProtectedSurvive(ms: seq<Message>, cutoff: int)
    ensures Subsequence(ProtectedOf(ms), ProtectedOf(Remaining(ms, cutoff)))
  {
    hide Stays, Marked, Subsequence, ProtectedOf;
    ProtectedSurviveUpTo(ms, cutoff, |ms|);
    assert ms[..|ms|] == ms;
    assert Remaining(ms, cutoff) == MarkedAt(ms, StayAt(ms, cutoff, |ms|));
  }

  /** Everything at or past the cutoff survives, at most with protection added. */
  lemma RecentSurvive(ms: seq<Message>, cutoff: int, i: nat)
    requires i < |ms| && i >= cutoff && !ms[i].isDigest
    ensures Marked(ms, i) in Remaining(ms, cutoff)
  {
    ProtectedStays(ms, cutoff, i);
    var f := StayAt(ms, cutoff, |ms|);
    var k :| 0 <= k < |f| && f[k] == i;
    assert Remaining(ms, cutoff)[k] == Marked(ms, i);
  }

  /** One more message: it joins the stayers, the leavers, or neither. */
  lemma PartitionPush(ms: seq<Message>, cutoff: int, n: nat)
    requires n < |ms|
    ensures MarkedAt(ms, StayAt(ms, cutoff, n + 1))
            == MarkedAt(ms, StayAt(ms, cutoff, n)) + if Stays(ms, cutoff, n) then [Marked(ms, n)] else []
    ensures MarkedAt(ms, GoAt(ms, cutoff, n + 1))
            == MarkedAt(ms, GoAt(ms, cutoff, n)) + if Goes(ms, cutoff, n) then [Marked(ms, n)] else []
  {
    hide Stays, Marked;
  }

  lemma {:induction false} ProtectedSurviveUpTo(ms: seq<Message>, cutoff: int, n: nat)
    requires n <= |ms|
    ensures Subsequence(ProtectedOf(ms[..n]), ProtectedOf(MarkedAt(ms, StayAt(ms, cutoff, n))))
  {
    hide Stays, Marked, Subsequence, ProtectedOf, StayAt, MarkedAt;
    if n == 0 {
      assert ms[..0] == [] && MarkedAt(ms, StayAt(ms, cutoff, 0)) == [] by { NobodyYet(ms, cutoff); }
      SubsequenceReflexive(ProtectedOf([]));
    } else {
      var i := n - 1;
      ProtectedSurviveUpTo(ms, cutoff, i);
      assert ms[..n] == ms[..i] + [ms[i]];
      ProtectedOfPush(ms[..i], ms[i]);
      var kept := MarkedAt(ms, StayAt(ms, cutoff, i));
      PartitionPush(ms, cutoff, i);
      if Stays(ms, cutoff, i) {
        ProtectedOfPush(kept, Marked(ms, i));
        SubsequencePush(ProtectedOf(ms[..i]), ProtectedOf(kept), Marked(ms, i));
        NoDigestStays(ms, cutoff, i);
      } else {
        assert kept + [] == kept;
        if !ms[i].isDigest && ms[i].isProtected {
          ProtectedStays(ms, cutoff, i);
        }
      }
    }
  }

  lemma NobodyYet(ms: seq<Message>, cutoff: int)
    ensures MarkedAt(ms, StayAt(ms, cutoff, 0)) == [] && MarkedAt(ms, GoAt(ms, cutoff, 0)) == []
  {
  }

  lemma ProtectedOfPush(a: seq<Message>, m: Message)
    ensures ProtectedOf(a + [m]) == if m.isProtected && !m.isDigest then ProtectedOf(a) + [m] else ProtectedOf(a)
  {
    assert (a + [m])[..|a|] == a;
  }

  // ----- Whole groups in, whole groups out ---------------------------------------------

  /** The stayer at position `k` of the remaining list. */
  ghost predicate StayerAt(ms: seq<Message>, cutoff: int, k: nat, i: nat) {
    var f := StayAt(ms, cutoff, |ms|);
    k < |f| && f[k] == i
  }

  lemma RemainingAt(ms: seq<Message>, cutoff: int, k: nat) returns (i: nat)
    requires k < |Remaining(ms, cutoff)|
    ensures i < |ms| && Stays(ms, cutoff, i) && StayerAt(ms, cutoff, k, i)
    ensures var m := Remaining(ms, cutoff)[k]; m == ms[i] || m == ms[i].(isProtected := true)
  {
    i := StayAt(ms, cutoff, |ms|)[k];
  }

  lemma StayerPosition(ms: seq<Message>, cutoff: int, i: nat) returns (k: nat)
    requires i < |ms| && Stays(ms, cutoff, i)
    ensures k < |Remaining(ms, cutoff)| && StayerAt(ms, cutoff, k, i)
    ensures var m := Remaining(ms, cutoff)[k]; m == ms[i] || m == ms[i].(isProtected := true)
  {
    var f := StayAt(ms, cutoff, |ms|);
    k :| 0 <= k < |f| && f[k] == i;
  }

  lemma StayersKeepOrder(ms: seq<Message>, cutoff: int, j: nat, k: nat, x: nat, y: nat)
    requires StayerAt(ms, cutoff, j, x) && StayerAt(ms, cutoff, k, y)
    ensures j < k <==> x < y
  {
  }

  lemma CallerOfResultStays(ms: seq<Message>, cutoff: int, i: nat)
    requires WellFormed(ms) && i < |ms| && IsResult(ms[i]) && Stays(ms, cutoff, i)
    ensures GroupOf(ms, i).Some? && Stays(ms, cutoff, GroupOf(ms, i).value)
    ensures Calls(ms[GroupOf(ms, i).value], ms[i].toolCallId)
  {
    var o := GroupOf(ms, i).value;
    assert !ms[o].isDigest;
    GroupsMoveTogether(ms, cutoff, i, o);
  }

  lemma OneCaller(ms: seq<Message>, i: nat, j: nat, id: string)
    requires WellFormed(ms) && i < |ms| && j < |ms| && Calls(ms[i], id) && Calls(ms[j], id)
    ensures i == j
  {
  }

  lemma ResultOfCallerStays(ms: seq<Message>, cutoff: int, i: nat, j: nat, id: string)
    requires WellFormed(ms) && i < |ms| && j < |ms|
    requires Calls(ms[i], id) && Stays(ms, cutoff, i) && IsResult(ms[j]) && ms[j].toolCallId == id
    ensures Stays(ms, cutoff, j)
  {
    var o := OwnerBefore(ms, j, id).value;
    OneCaller(ms, i, o, id);
    assert GroupOf(ms, j) == Some(i) && GroupOf(ms, i) == Some(i);
    GroupsMoveTogether(ms, cutoff, i, j);
  }

  /** What stays still holds whole groups only. */
  lemma RemainingWhole(ms: seq<Message>, cutoff: int)
    requires WellFormed(ms)
    ensures WholeGroups(Remaining(ms, cutoff))
  {
    hide Stays, StayerAt, Marked, GroupOf, OwnerBefore, Remaining;
    var rs := Remaining(ms, cutoff);
    forall k | 0 <= k < |rs| && IsResult(rs[k]) ensures HasCall(rs, rs[k].toolCallId) {
      var i := RemainingAt(ms, cutoff, k);
      CallerOfResultStays(ms, cutoff, i);
      var q := StayerPosition(ms, cutoff, GroupOf(ms, i).value);
      assert Calls(rs[q], rs[k].toolCallId);
    }
    forall k, id | 0 <= k < |rs| && Calls(rs[k], id) && !HasResult(rs, id) ensures PendingAtEnd(rs, k) {
      var i := RemainingAt(ms, cutoff, k);
      NoResultBefore(ms, cutoff, i, id);
      forall q | k < q < |rs| ensures !Speaks(rs[q]) {
        var j := RemainingAt(ms, cutoff, q);
        StayersKeepOrder(ms, cutoff, k, q, i, j);
      }
    }
  }

  lemma NoResultBefore(ms: seq<Message>, cutoff: int, i: nat, id: string)
    requires WellFormed(ms) && i < |ms| && Stays(ms, cutoff, i) && Calls(ms[i], id)
    requires !HasResult(Remaining(ms, cutoff), id)
    ensures !HasResult(ms, id)
  {
    hide Stays, StayerAt, Marked, GroupOf, OwnerBefore, Remaining, WellFormed;
    forall j | 0 <= j < |ms| && IsResult(ms[j]) ensures ms[j].toolCallId != id {
      if ms[j].toolCallId == id {
        ResultOfCallerStays(ms, cutoff, i, j, id);
        var q := StayerPosition(ms, cutoff, j);
        assert false;
      }
    }
  }

  // ----- The compacted list ---------------------------------------------------------------

  ghost function Compacted(ms: seq<Message>, cutoff: int, digest: Message): seq<Message> {
    [digest] + Remaining(ms, cutoff)
  }

  lemma CompactedAt(ms: seq<Message>, cutoff: int, d: Message, k: nat) returns (i: nat)
    requires 0 < k < |Compacted(ms, cutoff, d)|
    ensures i < |ms| && Stays(ms, cutoff, i) && StayerAt(ms, cutoff, k - 1, i)
    ensures var m := Compacted(ms, cutoff, d)[k]; m == ms[i] || m == ms[i].(isProtected := true)
  {
    i := RemainingAt(ms, cutoff, k - 1);
    assert Compacted(ms, cutoff, d)[k] == Remaining(ms, cutoff)[k - 1];
  }

  /** Putting a digest in front keeps groups whole. */
  lemma DigestFirstWhole(d: Message, rs: seq<Message>)
    requires WholeGroups(rs) && d.role == User
    ensures WholeGroups([d] + rs)
  {
    var cs := [d] + rs;
    assert forall k :: 0 <= k < |rs| ==> cs[k + 1] == rs[k];
    forall k | 0 <= k < |cs| && IsResult(cs[k]) ensures HasCall(cs, cs[k].toolCallId) {
      assert IsResult(rs[k - 1]);
      var q :| 0 <= q < |rs| && Calls(rs[q], rs[k - 1].toolCallId);
      assert Calls(cs[q + 1], cs[k].toolCallId);
    }
    forall k, id | 0 <= k < |cs| && Calls(cs[k], id) && !HasResult(cs, id) ensures PendingAtEnd(cs, k) {
      assert Calls(rs[k - 1], id);
      forall q | 0 <= q < |rs| && IsResult(rs[q]) ensures rs[q].toolCallId != id {
        assert IsResult(cs[q + 1]);
      }
      assert !HasResult(rs, id);
      assert PendingAtEnd(rs, k - 1);
    }
  }

  /** Compaction maps well-formed histories to well-formed histories, with exactly one
      digest, standing first. The validity checks that could abort it never fire. */
  lemma CompactedWellFormed(ms: seq<Message>, cutoff: int, d: Message)
    requires WellFormed(ms) && d.role == User && d.isDigest
    ensures WholeGroups(Remaining(ms, cutoff))
    ensures WellFormed(Compacted(ms, cutoff, d))
    ensures KeepsResults(ms, Compacted(ms, cutoff, d))
    ensures Compacted(ms, cutoff, d)[0] == d && DigestCount(Compacted(ms, cutoff, d)) == 1
  {
    hide Stays, StayerAt, Marked, GroupOf, OwnerBefore, Remaining, Compacted, WholeGroups;
    var cs := Compacted(ms, cutoff, d);
    assert cs == [d] + Remaining(ms, cutoff) by { CompactedIs(ms, cutoff, d); }
    RemainingWhole(ms, cutoff);
    DigestFirstWhole(d, Remaining(ms, cutoff));
    CompactedUniqueCalls(ms, cutoff, d);
    CompactedResultsFollow(ms, cutoff, d);
    forall k | 0 <= k < |cs| && cs[k].isDigest ensures k == 0 {
      if k > 0 {
        var i := CompactedAt(ms, cutoff, d, k);
        NoDigestStays(ms, cutoff, i);
      }
    }
    OneDigest(cs);
    CompactedKeepsResults(ms, cutoff, d);
  }

  lemma CompactedIs(ms: seq<Message>, cutoff: int, d: Message)
    ensures Compacted(ms, cutoff, d) == [d] + Remaining(ms, cutoff)
  {
  }

  lemma NoDigestStays(ms: seq<Message>, cutoff: int, i: nat)
    requires i < |ms| && Stays(ms, cutoff, i)
    ensures !ms[i].isDigest
  {
  }

  lemma {:induction false} OneDigest(cs: seq<Message>)
    requires cs != [] && cs[0].isDigest && forall k :: 0 < k < |cs| ==> !cs[k].isDigest
    ensures DigestCount(cs) == 1
    decreases |cs|
  {
    if |cs| > 1 {
      OneDigest(cs[..|cs| - 1]);
    }
  }

  lemma CompactedUniqueCalls(ms: seq<Message>, cutoff: int, d: Message)
    requires WellFormed(ms) && d.role == User
    ensures var cs := Compacted(ms, cutoff, d);
      forall j, k, id :: 0 <= j < k < |cs| ==> !(Calls(cs[j], id) && Calls(cs[k], id))
  {
    hide Stays, StayerAt, Marked, GroupOf, OwnerBefore, Remaining;
    var cs := Compacted(ms, cutoff, d);
    forall j, k, id | 0 <= j < k < |cs| && Calls(cs[j], id) ensures !Calls(cs[k], id) {
      var x := CompactedAt(ms, cutoff, d, j);
      var y := CompactedAt(ms, cutoff, d, k);
      StayersKeepOrder(ms, cutoff, j - 1, k - 1, x, y);
    }
  }

  lemma CompactedResultsFollow(ms: seq<Message>, cutoff: int, d: Message)
    requires WellFormed(ms) && d.role == User
    ensures var cs := Compacted(ms, cutoff, d);
      forall k :: 0 <= k < |cs| && IsResult(cs[k]) ==> OwnerBefore(cs, k, cs[k].toolCallId).Some?
  {
    hide Stays, StayerAt, Marked, Remaining, WholeGroups;
    var cs := Compacted(ms, cutoff, d);
    forall k | 0 <= k < |cs| && IsResult(cs[k]) ensures OwnerBefore(cs, k, cs[k].toolCallId).Some? {
      var i := CompactedAt(ms, cutoff, d, k);
      CallerOfResultStays(ms, cutoff, i);
      var o := GroupOf(ms, i).value;
      var q := StayerPosition(ms, cutoff, o);
      StayersKeepOrder(ms, cutoff, q, k - 1, o, i);
      assert cs[q + 1] == Remaining(ms, cutoff)[q];
      assert Calls(cs[q + 1], cs[k].toolCallId);
    }
  }

  /** Every retained call that had a result still has it. */
  ghost predicate KeepsResults(ms: seq<Message>, cs: seq<Message>) {
    forall id :: HasCall(cs, id) && HasResult(ms, id) ==> HasResult(cs, id)
  }

  lemma CompactedKeepsResults(ms: seq<Message>, cutoff: int, d: Message)
    requires WellFormed(ms) && d.role == User
    ensures KeepsResults(ms, Compacted(ms, cutoff, d))
  {
    hide Stays, StayerAt, Marked, GroupOf, OwnerBefore, Remaining, WellFormed;
    var cs := Compacted(ms, cutoff, d);
    forall id | HasCall(cs, id) && HasResult(ms, id) ensures HasResult(cs, id) {
      var k :| 0 <= k < |cs| && Calls(cs[k], id);
      var i := CompactedAt(ms, cutoff, d, k);
      var j :| 0 <= j < |ms| && IsResult(ms[j]) && ms[j].toolCallId == id;
      ResultOfCallerStays(ms, cutoff, i, j, id);
      var q := StayerPosition(ms, cutoff, j);
      assert cs[q + 1] == Remaining(ms, cutoff)[q];
    }
  }

  // ----- Calls still waiting for their results ----------------------------------------------

  /** Some member of the group of caller `o` holds the group in place. */
  ghost predicate Anchored(ms: seq<Message>, cutoff: int, o: nat) {
    exists j :: InGroup(ms, j, o) && (j >= cutoff || ms[j].isProtected)
  }

  /** A group with a member at or past the cutoff, or protected, stays whole. */
  lemma AnchoredStays(ms: seq<Message>, cutoff: int, o: nat)
    requires WellFormed(ms) && Anchored(ms, cutoff, o)
    ensures forall i :: InGroup(ms, i, o) ==> Stays(ms, cutoff, i)
  {
    var j :| InGroup(ms, j, o) && (j >= cutoff || ms[j].isProtected);
    MembersAreNoDigests(ms, j);
    forall i | InGroup(ms, i, o) ensures Stays(ms, cutoff, i) {
      MembersAreNoDigests(ms, i);
    }
  }

  lemma MembersAreNoDigests(ms: seq<Message>, i: nat)
    requires WellFormed(ms) && i < |ms| && GroupOf(ms, i).Some?
    ensures !ms[i].isDigest
  {
  }

  /** A pending call whose group runs contiguously to the end is never summarised away: the
      cutoff lies at least two messages before the end, so its last member stays. */
  lemma PendingStays(ms: seq<Message>, cutoff: int, o: nat)
    requires WellFormed(ms) && o < |ms| && cutoff <= |ms| - 2
    requires forall i :: o <= i < |ms| ==> InGroup(ms, i, o)
    ensures forall i :: o <= i < |ms| ==> Stays(ms, cutoff, i) && Marked(ms, i) in Remaining(ms, cutoff)
  {
    hide Stays, Marked, Remaining, WellFormed, InGroup;
    assert InGroup(ms, |ms| - 1, o);
    AnchoredStays(ms, cutoff, o);
    forall i | o <= i < |ms| ensures Stays(ms, cutoff, i) && Marked(ms, i) in Remaining(ms, cutoff) {
      assert InGroup(ms, i, o);
      StayersAreKept(ms, cutoff, i);
    }
  }

  lemma StayersAreKept(ms: seq<Message>, cutoff: int, i: nat)
    requires i < |ms| && Stays(ms, cutoff, i)
    ensures Marked(ms, i) in Remaining(ms, cutoff)
  {
    var f := StayAt(ms, cutoff, |ms|);
    var k :| 0 <= k < |f| && f[k] == i;
    assert Remaining(ms, cutoff)[k] == Marked(ms, i);
  }

  /** A call survives compaction exactly when its group has a member at or past the cutoff,
      or a protected one. */
  lemma CallSurvivesIff(ms: seq<Message>, cutoff: int, d: Message, o: nat, id: string)
    requires WellFormed(ms) && d.role == User && o < |ms| && Calls(ms[o], id)
    ensures HasCall(Compacted(ms, cutoff, d), id) <==> Anchored(ms, cutoff, o)
  {
    var cs := Compacted(ms, cutoff, d);
    if HasCall(cs, id) {
      var k :| 0 <= k < |cs| && Calls(cs[k], id);
      var i := CompactedAt(ms, cutoff, d, k);
      OneCaller(ms, i, o, id);
      StayersAreAnchored(ms, cutoff, o);
    }
    if Anchored(ms, cutoff, o) {
      assert InGroup(ms, o, o);
      AnchoredStays(ms, cutoff, o);
      var q := StayerPosition(ms, cutoff, o);
      assert cs[q + 1] == Remaining(ms, cutoff)[q];
    }
  }

  lemma StayersAreAnchored(ms: seq<Message>, cutoff: int, o: nat)
    requires o < |ms| && IsCaller(ms[o]) && Stays(ms, cutoff, o)
    ensures Anchored(ms, cutoff, o)
  {
    assert InGroup(ms, o, o);
    if !StaysAlone(ms, cutoff, o) {
      var j :| InGroup(ms, j, o) && !ms[j].isDigest && StaysAlone(ms, cutoff, j);
    }
  }
}
