/** Sessions over many turns. The transcript is everything that was ever said; what the
    model sees is a list that admission prunes and compacts from time to time. New messages
    are judged against the transcript, never against what compaction happened to leave. */
module Sessions {
  import opened Text
  import opened Messages
  import opened TierTwo
  import opened Cutoff
  import opened Artifacts
  import opened Pruning
  import opened Admission

  // ----- Appending to a compacted list -------------------------------------------------------

  /** Every caller of `x` issued the calls of some caller of `h`. */
  ghost predicate CallersFrom(h: seq<Message>, x: seq<Message>) {
    forall i ::
      0 <= i < |x| && IsCaller(x[i]) ==> exists j :: 0 <= j < |h| && IsCaller(h[j]) && h[j].toolCalls == x[i].toolCalls
  }

  /** Results that answer a call of `h` find it in `x`. */
  ghost predicate Answered(h: seq<Message>, x: seq<Message>, news: seq<Message>) {
    forall k :: 0 <= k < |news| && IsResult(news[k]) && HasCall(h, news[k].toolCallId) ==>
      HasCall(x, news[k].toolCallId)
  }

  lemma CallFrom(h: seq<Message>, x: seq<Message>, i: nat, id: string) returns (j: nat)
    requires CallersFrom(h, x) && i < |x| && Calls(x[i], id)
    ensures j < |h| && Calls(h[j], id) && h[j].toolCalls == x[i].toolCalls
  {
    j :| 0 <= j < |h| && IsCaller(h[j]) && h[j].toolCalls == x[i].toolCalls;
  }

  /** In a well-formed continuation no call is issued on both sides. */
  lemma OneSide(h: seq<Message>, news: seq<Message>, i: nat, k: nat, id: string)
    requires WellFormed(h + news) && i < |h| && k < |news|
    ensures !(Calls(h[i], id) && Calls(news[k], id))
  {
    assert (h + news)[i] == h[i] && (h + news)[|h| + k] == news[k];
  }

  /** `x` is what is left of `h`. Messages that continue `h` also continue `x` if and only if
      no result among them answers a call that `x` has lost. */
  lemma ContinuesIff(h: seq<Message>, x: seq<Message>, news: seq<Message>)
    requires WellFormed(h + news) && WellFormed(x) && CallersFrom(h, x) && KeepsResults(h, x)
    ensures WellFormed(x + news) <==> Answered(h, x, news)
  {
    hide WellFormed, CallersFrom, KeepsResults, Answered;
    if WellFormed(x + news) {
      NoneLost(h, x, news);
    }
    if Answered(h, x, news) {
      ContinuationUnique(h, x, news);
      ContinuationOwned(h, x, news);
      ContinuationWhole(h, x, news);
      ContinuationIsWellFormed(h, x, news);
    }
  }

  lemma NoneLost(h: seq<Message>, x: seq<Message>, news: seq<Message>)
    requires WellFormed(h + news) && WellFormed(x + news)
    ensures Answered(h, x, news)
  {
    hide IsResult, Calls, OwnerBefore;
    forall k | 0 <= k < |news| && IsResult(news[k]) && HasCall(h, news[k].toolCallId)
      ensures HasCall(x, news[k].toolCallId)
    {
      var id := news[k].toolCallId;
      assert (x + news)[|x| + k] == news[k];
      var p :| 0 <= p < |x + news| && Calls((x + news)[p], id);
      var o :| 0 <= o < |h| && Calls(h[o], id);
      if p >= |x| {
        OneSide(h, news, o, p - |x|, id);
      } else {
        assert Calls(x[p], id);
      }
    }
  }

  ghost predicate UniqueCalls(ms: seq<Message>) {
    forall i, j, id :: 0 <= i < j < |ms| ==> !(Calls(ms[i], id) && Calls(ms[j], id))
  }

  ghost predicate ResultsOwned(ms: seq<Message>) {
    forall i :: 0 <= i < |ms| && IsResult(ms[i]) ==> exists o :: 0 <= o < i && Calls(ms[o], ms[i].toolCallId)
  }

  lemma ContinuationUnique(h: seq<Message>, x: seq<Message>, news: seq<Message>)
    requires WellFormed(h + news) && WellFormed(x) && CallersFrom(h, x)
    ensures UniqueCalls(x + news)
  {
    hide IsResult, Calls, OwnerBefore, WholeGroups, CallersFrom;
    var y := x + news;
    forall i, j, id | 0 <= i < j < |y| && Calls(y[i], id) ensures !Calls(y[j], id) {
      if j < |x| {
        assert y[i] == x[i] && y[j] == x[j];
      } else if i < |x| {
        var p := CallFrom(h, x, i, id);
        OneSide(h, news, p, j - |x|, id);
      } else {
        assert (h + news)[|h| + i - |x|] == y[i] && (h + news)[|h| + j - |x|] == y[j];
      }
    }
  }

  lemma OwnedBefore(ms: seq<Message>, i: nat) returns (o: nat)
    requires WellFormed(ms) && i < |ms| && IsResult(ms[i])
    ensures o < i && Calls(ms[o], ms[i].toolCallId)
  {
    o := OwnerBefore(ms, i, ms[i].toolCallId).value;
  }

  lemma ContinuationOwned(h: seq<Message>, x: seq<Message>, news: seq<Message>)
    requires WellFormed(h + news) && WellFormed(x) && Answered(h, x, news)
    ensures ResultsOwned(x + news)
  {
    hide IsResult, Calls, WellFormed;
    var y := x + news;
    forall i | 0 <= i < |y| && IsResult(y[i]) ensures exists o :: 0 <= o < i && Calls(y[o], y[i].toolCallId) {
      if i < |x| {
        var o := OwnedBefore(x, i);
        assert Calls(y[o], y[i].toolCallId);
      } else {
        var k, id := i - |x|, y[i].toolCallId;
        assert (h + news)[|h| + k] == news[k] == y[i];
        var o := OwnedBefore(h + news, |h| + k);
        if o >= |h| {
          assert y[|x| + o - |h|] == (h + news)[o];
        } else {
          assert Calls(h[o], id);
          var p :| 0 <= p < |x| && Calls(x[p], id);
          assert Calls(y[p], id);
        }
      }
    }
  }

  /** A call without a result in the continued list has none in the transcript either. */
  lemma NoResultInTranscript(h: seq<Message>, x: seq<Message>, news: seq<Message>, i: nat, id: string)
    requires WellFormed(h + news) && CallersFrom(h, x) && KeepsResults(h, x)
    requires i < |x + news| && Calls((x + news)[i], id) && !HasResult(x + news, id)
    ensures !HasResult(h + news, id)
  {
    hide IsResult, Calls, WellFormed, CallersFrom;
    var y, t := x + news, h + news;
    forall j | 0 <= j < |t| && IsResult(t[j]) ensures t[j].toolCallId != id {
      if j >= |h| {
        assert t[j] == y[|x| + j - |h|];
      } else if i < |x| {
        assert HasCall(x, id) by { assert Calls(x[i], id); }
        NoResultLeft(h, x, news, id);
        assert t[j] == h[j];
      } else if t[j].toolCallId == id {
        var o := OwnedBefore(t, j);
        assert t[o] == h[o] && news[i - |x|] == y[i];
        OneSide(h, news, o, i - |x|, id);
      }
    }
  }

  lemma NoResultLeft(h: seq<Message>, x: seq<Message>, news: seq<Message>, id: string)
    requires KeepsResults(h, x) && HasCall(x, id) && !HasResult(x + news, id)
    ensures !HasResult(h, id)
  {
    hide IsResult;
    forall q | 0 <= q < |x| && IsResult(x[q]) ensures x[q].toolCallId != id {
      assert (x + news)[q] == x[q];
    }
    assert !HasResult(x, id);
  }

  lemma ContinuationWhole(h: seq<Message>, x: seq<Message>, news: seq<Message>)
    requires WellFormed(h + news) && WellFormed(x) && CallersFrom(h, x) && KeepsResults(h, x)
    ensures forall i, id :: 0 <= i < |x + news| && Calls((x + news)[i], id) && !HasResult(x + news, id) ==>
      PendingAtEnd(x + news, i)
  {
    hide IsResult, Calls, WellFormed, CallersFrom, KeepsResults, HasResult, Speaks;
    var y, t := x + news, h + news;
    forall i, id | 0 <= i < |y| && Calls(y[i], id) && !HasResult(y, id) ensures PendingAtEnd(y, i) {
      NoResultInTranscript(h, x, news, i, id);
      if i < |x| {
        var o := CallFrom(h, x, i, id);
        assert t[o] == h[o];
        PendingThere(t, o, id);
        PendingHere(x, news, i, id);
        forall j | i < j < |y| ensures !Speaks(y[j]) {
          if j < |x| {
            assert y[j] == x[j];
          } else {
            assert y[j] == t[|h| + j - |x|];
          }
        }
      } else {
        assert t[|h| + i - |x|] == y[i];
        PendingThere(t, |h| + i - |x|, id);
        assert forall j :: i < j < |y| ==> y[j] == t[|h| + j - |x|];
      }
    }
  }

  lemma PendingThere(ms: seq<Message>, i: nat, id: string)
    requires WellFormed(ms) && i < |ms| && Calls(ms[i], id) && !HasResult(ms, id)
    ensures PendingAtEnd(ms, i)
  {
  }

  lemma PendingHere(x: seq<Message>, news: seq<Message>, i: nat, id: string)
    requires WellFormed(x) && i < |x| && Calls((x + news)[i], id) && !HasResult(x + news, id)
    ensures PendingAtEnd(x, i)
  {
    hide IsResult, Calls, WellFormed, Speaks;
    forall q | 0 <= q < |x| && IsResult(x[q]) ensures x[q].toolCallId != id {
      assert (x + news)[q] == x[q];
    }
    PendingThere(x, i, id);
  }

  lemma ContinuationIsWellFormed(h: seq<Message>, x: seq<Message>, news: seq<Message>)
    requires WellFormed(h + news) && WellFormed(x) && UniqueCalls(x + news) && ResultsOwned(x + news)
    requires forall i, id :: 0 <= i < |x + news| && Calls((x + news)[i], id) && !HasResult(x + news, id) ==>
      PendingAtEnd(x + news, i)
    ensures WellFormed(x + news)
  {
    hide IsResult, Calls, HasResult, PendingAtEnd;
    var y := x + news;
    forall i | 0 <= i < |y| && IsResult(y[i])
      ensures HasCall(y, y[i].toolCallId) && OwnerBefore(y, i, y[i].toolCallId).Some?
    {
      var o :| 0 <= o < i && Calls(y[o], y[i].toolCallId);
    }
    forall i | 0 <= i < |y| && y[i].isDigest ensures y[i].role == User {
      if i >= |x| {
        assert (h + news)[|h| + i - |x|] == y[i];
      } else {
        assert y[i] == x[i];
      }
    }
  }

  /** One compaction: messages that continue the list continue the compacted list if and only
      if every result among them answers a call whose group was anchored. */
  lemma LateResultsIff(ms: seq<Message>, cutoff: int, d: Message, news: seq<Message>)
    requires WellFormed(ms) && WellFormed(ms + news) && d.role == User && d.isDigest
    ensures WellFormed(Compacted(ms, cutoff, d) + news) <==>
      forall k, o: nat :: 0 <= k < |news| && IsResult(news[k]) && o < |ms| && Calls(ms[o], news[k].toolCallId) ==>
        Anchored(ms, cutoff, o)
  {
    hide WellFormed, Compacted, Anchored, CallersFrom, KeepsResults, IsResult, Calls, DigestCount;
    var cs := Compacted(ms, cutoff, d);
    CompactedWellFormed(ms, cutoff, d);
    CompactedCallers(ms, ms, cutoff, d);
    ContinuesIff(ms, cs, news);
    forall k, o: nat | 0 <= k < |news| && IsResult(news[k]) && o < |ms| && Calls(ms[o], news[k].toolCallId)
      ensures HasCall(cs, news[k].toolCallId) <==> Anchored(ms, cutoff, o)
    {
      CallSurvivesIff(ms, cutoff, d, o, news[k].toolCallId);
    }
  }

  lemma CompactedCallers(h: seq<Message>, ms: seq<Message>, cutoff: int, d: Message)
    requires CallersFrom(h, ms) || h == ms
    requires d.role == User
    ensures CallersFrom(h, Compacted(ms, cutoff, d))
  {
    hide Stays, StayerAt, Marked, Compacted, Remaining;
    var cs := Compacted(ms, cutoff, d);
    CompactedIs(ms, cutoff, d);
    forall k | 0 <= k < |cs| && IsCaller(cs[k])
      ensures exists j :: 0 <= j < |h| && IsCaller(h[j]) && h[j].toolCalls == cs[k].toolCalls
    {
      var i := CompactedAt(ms, cutoff, d, k);
      assert IsCaller(ms[i]) && ms[i].toolCalls == cs[k].toolCalls;
    }
  }

  const LOSING := [Plain(User), Calling("c"), Plain(System), Plain(System)]

  /** A pending call, two messages after which nobody speaks, and compaction. */
  ghost predicate LonelyCall(ms: seq<Message>) {
    && |ms| == 4
    && (forall i ::
      0 <= i < 4 ==> !ms[i].isDigest && !ms[i].isProtected && !IsResult(ms[i]) && (IsCaller(ms[i]) <==> i == 1))
    && (forall i, id :: 0 <= i < 4 ==> (Calls(ms[i], id) <==> i == 1 && id == "c"))
    && !Speaks(ms[2]) && !Speaks(ms[3])
  }

  /** A pending call can be summarised away. Its result then arrives for a call the list no
      longer has, although the list was well formed before and with the result. */
  lemma PendingCallLost() returns (ms: seq<Message>, r: Message)
    ensures |ms| == 4 && WellFormed(ms) && WellFormed(ms + [r])
    ensures EndsBelow(ms, 4) == map[1 := 1]
    ensures forall order: seq<nat> :: IsOrder(map[1 := 1], order) && (forall o :: o in order ==> o in map[1 := 1]) ==>
      Descend(map[1 := 1], order, |ms| - 2) == 2
    ensures forall d: Message :: d.role == User ==> !WholeGroups(Compacted(ms, 2, d) + [r])
  {
    ms, r := LOSING, Answering("c");
    assert LonelyCall(ms) by {
      forall id ensures Calls(Calling("c"), id) <==> id == "c" {
        CallingCalls("c", id);
      }
    }
    LonelyIsWellFormed(ms, r);
    LonelyEnds(ms);
    forall order: seq<nat> | IsOrder(map[1 := 1], order) && (forall o :: o in order ==> o in map[1 := 1])
      ensures Descend(map[1 := 1], order, 2) == 2
    {
      DescendUntouched(map[1 := 1], order, 2);
    }
    forall d: Message | d.role == User ensures !WholeGroups(Compacted(ms, 2, d) + [r]) {
      LonelyLosesItsCall(ms, r, d);
    }
  }

  lemma LonelyIsWellFormed(ms: seq<Message>, r: Message)
    requires LonelyCall(ms) && r == Answering("c")
    ensures WellFormed(ms) && WellFormed(ms + [r])
  {
    LonelyAlone(ms);
    assert forall id :: !Calls(r, id);
    hide IsCaller, Calls, HasCall, Speaks;
    var t := ms + [r];
    assert forall i :: 0 <= i < 4 ==> t[i] == ms[i];
    assert Calls(t[1], "c") && IsResult(t[4]) && t[4].toolCallId == "c";
    assert HasResult(t, "c");
    assert HasCall(t, "c") by { CallIsThere(t, 1, "c"); }
    assert OwnerBefore(t, 4, "c") == Some(1);
  }

  lemma CallIsThere(ms: seq<Message>, i: nat, id: string)
    requires i < |ms| && Calls(ms[i], id)
    ensures HasCall(ms, id)
  {
  }

  lemma LonelyAlone(ms: seq<Message>)
    requires LonelyCall(ms)
    ensures WellFormed(ms)
  {
    hide IsCaller, Calls;
  }

  lemma LonelyEnds(ms: seq<Message>)
    requires LonelyCall(ms)
    ensures EndsBelow(ms, 4) == map[1 := 1]
  {
    hide IsCaller, IsResult, Calls;
    assert GroupOf(ms, 1) == Some(1) && GroupOf(ms, 2) == None && GroupOf(ms, 3) == None;
    assert EndBelow(ms, 3, 1) == 1 && EndBelow(ms, 4, 1) == 1;
    assert EndsBelow(ms, 4).Keys == {1};
  }

  lemma LonelyLosesItsCall(ms: seq<Message>, r: Message, d: Message)
    requires LonelyCall(ms) && r == Answering("c") && d.role == User && WellFormed(ms)
    ensures !WholeGroups(Compacted(ms, 2, d) + [r])
  {
    hide WellFormed, Compacted;
    var cs := Compacted(ms, 2, d);
    forall j | InGroup(ms, j, 1) ensures j == 1 {
    }
    assert !Anchored(ms, 2, 1);
    CallSurvivesIff(ms, 2, d, 1, "c");
    var t := cs + [r];
    assert IsResult(t[|cs|]);
    forall q | 0 <= q < |t| ensures !Calls(t[q], "c") {
      if q < |cs| {
        assert t[q] == cs[q];
      }
    }
    assert !HasCall(t, "c");
  }

  // ----- What a list mirrors of the transcript -----------------------------------------------------

  ghost predicate SameTurn(m: Message, n: Message) {
    m.role == n.role && m.toolCalls == n.toolCalls && m.toolCallId == n.toolCallId && !m.isDigest && !n.isDigest
  }

  /** The last two messages are the same, up to pruned contents and added protection. */
  ghost predicate SameTail(h: seq<Message>, x: seq<Message>) {
    (|h| >= 1 ==> SameAt(h, x, 1)) && (|h| >= 2 ==> SameAt(h, x, 2))
  }

  ghost predicate SameAt(h: seq<Message>, x: seq<Message>, t: nat)
    requires 1 <= t <= |h|
  {
    t <= |x| && SameTurn(h[|h| - t], x[|x| - t])
  }

  ghost predicate Mirrors(h: seq<Message>, x: seq<Message>) {
    WellFormed(x) && CallersFrom(h, x) && KeepsResults(h, x) && SameTail(h, x)
  }

  /** A call whose group reaches the last two messages: what no cutoff can take away. */
  ghost predicate TailCall(h: seq<Message>, id: string) {
    exists o: nat, j: nat :: o < |h| && Calls(h[o], id) && InGroup(h, j, o) && j >= |h| - 2
  }

  lemma TailCallKept(h: seq<Message>, x: seq<Message>, id: string)
    requires WellFormed(h) && Mirrors(h, x) && TailCall(h, id)
    ensures HasCall(x, id)
  {
    hide WholeGroups, KeepsResults, CallersFrom, OwnerBefore;
    var o: nat, j: nat :| o < |h| && Calls(h[o], id) && InGroup(h, j, o) && j >= |h| - 2;
    var t := |h| - j;
    var y := |x| - t;
    assert SameAt(h, x, t);
    if j == o {
      assert Calls(x[y], id);
    } else {
      var other := h[j].toolCallId;
      assert IsResult(x[y]) && x[y].toolCallId == other && Calls(h[o], other);
      var p := OwnedBefore(x, y);
      var q := CallFrom(h, x, p, other);
      OneCaller(h, q, o, other);
      assert Calls(x[p], id);
    }
  }

  /** Tier 1 keeps the mirror: it changes contents only. */
  lemma PruningMirrors(h: seq<Message>, x: seq<Message>, project: string, sha256: Option<Bytes -> string>,
                       mid: seq<Message>)
    requires Mirrors(h, x) && PrunedBy(x, project, sha256, mid)
    ensures Mirrors(h, mid)
  {
    hide WellFormed, PruneStep, SameTail, KeepsResults, CallersFrom;
    forall i | 0 <= i < |x| ensures SameShape(x[i], mid[i]) {
      PruneStepShape(x[i], i, |x|, project, sha256, mid[i]);
    }
    ShapeWellFormed(x, mid);
    ShapeMirrors(h, x, mid);
  }

  lemma ShapeMirrors(h: seq<Message>, x: seq<Message>, mid: seq<Message>)
    requires CallersFrom(h, x) && KeepsResults(h, x) && SameTail(h, x)
    requires |mid| == |x| && forall i :: 0 <= i < |x| ==> SameShape(x[i], mid[i])
    ensures CallersFrom(h, mid) && KeepsResults(h, mid) && SameTail(h, mid)
  {
    forall i | 0 <= i < |mid| && IsCaller(mid[i])
      ensures exists j :: 0 <= j < |h| && IsCaller(h[j]) && h[j].toolCalls == mid[i].toolCalls
    {
      assert IsCaller(x[i]);
    }
    forall id | HasCall(mid, id) && HasResult(h, id) ensures HasResult(mid, id) {
      var k :| 0 <= k < |mid| && Calls(mid[k], id);
      assert Calls(x[k], id);
      var q :| 0 <= q < |x| && IsResult(x[q]) && x[q].toolCallId == id;
      assert IsResult(mid[q]);
    }
  }

  /** Tier 2 keeps the mirror: the cutoff lies before the last two messages. */
  lemma CompactionMirrors(h: seq<Message>, mid: seq<Message>, cutoff: int, d: Message)
    requires Mirrors(h, mid) && d.role == User && d.isDigest && cutoff <= |mid| - 2
    ensures Mirrors(h, Compacted(mid, cutoff, d))
  {
    hide WellFormed, SameTail, KeepsResults, CallersFrom, Compacted, DigestCount;
    var cs := Compacted(mid, cutoff, d);
    CompactedWellFormed(mid, cutoff, d);
    CompactedCallers(h, mid, cutoff, d);
    CompactedCallers(mid, mid, cutoff, d);
    KeepsStill(h, mid, cs);
    CompactionKeepsTail(h, mid, cutoff, d);
  }

  lemma KeepsStill(h: seq<Message>, mid: seq<Message>, cs: seq<Message>)
    requires KeepsResults(h, mid) && KeepsResults(mid, cs) && CallersFrom(mid, cs)
    ensures KeepsResults(h, cs)
  {
    forall id | HasCall(cs, id) && HasResult(h, id) ensures HasResult(cs, id) {
      var k :| 0 <= k < |cs| && Calls(cs[k], id);
      var j := CallFrom(mid, cs, k, id);
      assert HasCall(mid, id);
    }
  }

  lemma CompactionKeepsTail(h: seq<Message>, mid: seq<Message>, cutoff: int, d: Message)
    requires SameTail(h, mid) && cutoff <= |mid| - 2
    ensures SameTail(h, Compacted(mid, cutoff, d))
  {
    hide Marked, StaysAlone;
    var n := |mid|;
    var cs := Compacted(mid, cutoff, d);
    CompactedIs(mid, cutoff, d);
    if |h| >= 1 {
      assert SameAt(h, mid, 1);
      ProtectedStays(mid, cutoff, n - 1);
      assert StayAt(mid, cutoff, n) == StayAt(mid, cutoff, n - 1) + [n - 1];
      assert cs[|cs| - 1] == Marked(mid, n - 1);
    }
    if |h| >= 2 {
      assert SameAt(h, mid, 2);
      ProtectedStays(mid, cutoff, n - 2);
      assert StayAt(mid, cutoff, n - 1) == StayAt(mid, cutoff, n - 2) + [n - 2];
      assert cs[|cs| - 2] == Marked(mid, n - 2);
    }
  }

  ghost predicate NoDigests(news: seq<Message>) {
    forall k :: 0 <= k < |news| ==> !news[k].isDigest
  }

  /** New messages join the transcript and its mirror alike. */
  lemma NewsMirror(h: seq<Message>, x: seq<Message>, news: seq<Message>)
    requires Mirrors(h, x) && WellFormed(h + news) && Answered(h, x, news) && NoDigests(news)
    ensures Mirrors(h + news, x + news)
  {
    hide WellFormed, Answered, KeepsResults, CallersFrom, SameTail;
    ContinuesIff(h, x, news);
    NewsCallers(h, x, news);
    NewsResults(h, x, news);
    NewsTail(h, x, news);
  }

  lemma NewsCallers(h: seq<Message>, x: seq<Message>, news: seq<Message>)
    requires CallersFrom(h, x)
    ensures CallersFrom(h + news, x + news)
  {
    var t, y := h + news, x + news;
    forall i | 0 <= i < |y| && IsCaller(y[i])
      ensures exists j :: 0 <= j < |t| && IsCaller(t[j]) && t[j].toolCalls == y[i].toolCalls
    {
      if i < |x| {
        assert IsCaller(x[i]);
        var j :| 0 <= j < |h| && IsCaller(h[j]) && h[j].toolCalls == x[i].toolCalls;
        assert t[j] == h[j];
      } else {
        assert t[|h| + i - |x|] == y[i];
      }
    }
  }

  lemma NewsResults(h: seq<Message>, x: seq<Message>, news: seq<Message>)
    requires WellFormed(h + news) && CallersFrom(h, x) && KeepsResults(h, x)
    ensures KeepsResults(h + news, x + news)
  {
    hide WellFormed, CallersFrom, IsResult, Calls, HasResult;
    var t, y := h + news, x + news;
    forall id | HasCall(y, id) && HasResult(t, id) ensures HasResult(y, id) {
      var i :| 0 <= i < |y| && Calls(y[i], id);
      if !HasResult(y, id) {
        NoResultInTranscript(h, x, news, i, id);
        assert false;
      }
    }
  }

  lemma NewsTail(h: seq<Message>, x: seq<Message>, news: seq<Message>)
    requires SameTail(h, x) && NoDigests(news)
    ensures SameTail(h + news, x + news)
  {
    var t, y := h + news, x + news;
    if |t| >= 1 {
      assert SameAt(t, y, 1) by {
        if |news| == 0 {
          assert SameAt(h, x, 1);
        }
      }
    }
    if |t| >= 2 {
      assert SameAt(t, y, 2) by {
        if |news| == 0 {
          assert SameAt(h, x, 2);
        } else if |news| == 1 {
          assert SameAt(h, x, 1);
        }
      }
    }
  }

  // ----- Runs -----------------------------------------------------------------------------------------

  /** Everything said before turn `n`. */
  function Transcript(start: seq<Message>, arrivals: seq<seq<Message>>, n: nat): seq<Message>
    requires n <= |arrivals|
  {
    if n == 0 then start else Transcript(start, arrivals, n - 1) + arrivals[n - 1]
  }

  /** The results that arrive answer calls whose group reaches the end of the transcript. */
  ghost predicate AnswersTail(h: seq<Message>, news: seq<Message>) {
    forall k :: 0 <= k < |news| && IsResult(news[k]) && HasCall(h, news[k].toolCallId) ==>
      TailCall(h, news[k].toolCallId)
  }

  /** A session over many turns. The messages of each turn continue the transcript, which no
      admission ever touches; from the second turn on, results answer calls at its end. */
  ghost predicate SessionRun(lists: seq<seq<Message>>, arrivals: seq<seq<Message>>) {
    && |lists| == |arrivals| + 1
    && WellFormed(lists[0]) && SameTail(lists[0], lists[0])
    && (forall k :: 0 <= k < |arrivals| ==> AdmissionStep(lists[k] + arrivals[k], lists[k + 1]))
    && (forall k :: 0 <= k <= |arrivals| ==> WellFormed(Transcript(lists[0], arrivals, k)))
    && (forall k :: 0 <= k < |arrivals| ==> NoDigests(arrivals[k]))
    && (forall k :: 0 < k < |arrivals| ==> AnswersTail(Transcript(lists[0], arrivals, k), arrivals[k]))
  }

  lemma AdmissionMirrors(h: seq<Message>, x: seq<Message>, x': seq<Message>)
    requires Mirrors(h, x) && AdmissionStep(x, x')
    ensures Mirrors(h, x')
  {
    hide Mirrors, PrunedBy, Compacted, WalkedTo;
    var mid :| TierOneStep(x, mid) && TierTwoStep(mid, x');
    if mid != x {
      var project, sha256 :| PrunedBy(x, project, sha256, mid);
      PruningMirrors(h, x, project, sha256, mid);
    }
    if x' != mid {
      var cutoff, d :| CompactedWith(mid, cutoff, d, x');
      CompactionMirrors(h, mid, cutoff, d);
    }
  }

  lemma MirrorsItself(h: seq<Message>)
    requires WellFormed(h) && SameTail(h, h)
    ensures Mirrors(h, h)
  {
    hide WellFormed, SameTail;
  }

  /** Before and after every admission of a run, the list mirrors the transcript: it is well
      formed, so no result ever arrives for a call that was summarised away. */
  lemma {:induction false} RunMirrors(lists: seq<seq<Message>>, arrivals: seq<seq<Message>>, n: nat)
    requires SessionRun(lists, arrivals) && n < |lists|
    ensures Mirrors(Transcript(lists[0], arrivals, n), lists[n])
    ensures n < |arrivals| ==> Mirrors(Transcript(lists[0], arrivals, n + 1), lists[n] + arrivals[n])
  {
    hide Mirrors, WellFormed, AdmissionStep, SameTail, NoDigests, AnswersTail, Answered;
    if n == 0 {
      MirrorsItself(lists[0]);
    } else {
      RunMirrors(lists, arrivals, n - 1);
      AdmissionMirrors(Transcript(lists[0], arrivals, n), lists[n - 1] + arrivals[n - 1], lists[n]);
    }
    if n < |arrivals| {
      var h := Transcript(lists[0], arrivals, n);
      assert WellFormed(h) && WellFormed(Transcript(lists[0], arrivals, n + 1));
      ArrivalsAreAnswered(h, lists[n], arrivals[n], n == 0);
      NewsMirror(h, lists[n], arrivals[n]);
    }
  }

  lemma ArrivalsAreAnswered(h: seq<Message>, x: seq<Message>, news: seq<Message>, first: bool)
    requires WellFormed(h) && Mirrors(h, x) && (if first then x == h else AnswersTail(h, news))
    ensures Answered(h, x, news)
  {
    hide WellFormed, Mirrors, TailCall;
    if !first {
      forall k | 0 <= k < |news| && IsResult(news[k]) && HasCall(h, news[k].toolCallId)
        ensures HasCall(x, news[k].toolCallId)
      {
        TailCallKept(h, x, news[k].toolCallId);
      }
    }
  }

  /** Over any run, protected messages that are not digests stay an ordered subsequence
      of what is protected later, unchanged, and groups are never split. */
  lemma {:induction false} ProtectedForever(lists: seq<seq<Message>>, arrivals: seq<seq<Message>>, m: nat, n: nat)
    requires SessionRun(lists, arrivals) && m <= n < |lists|
    ensures WellFormed(lists[n]) && (n < |arrivals| ==> WellFormed(lists[n] + arrivals[n]))
    ensures Subsequence(ProtectedOf(lists[m]), ProtectedOf(lists[n]))
    decreases n
  {
    hide WellFormed, AdmissionStep, Subsequence, ProtectedOf, SameTail, NoDigests, AnswersTail;
    RunMirrors(lists, arrivals, n);
    if m == n {
      SubsequenceReflexive(ProtectedOf(lists[m]));
    } else {
      ProtectedForever(lists, arrivals, m, n - 1);
      TurnKeeps(lists[n - 1] + arrivals[n - 1], lists[n]);
      ProtectedOfConcat(lists[n - 1], arrivals[n - 1]);
      SubsequencePrefix(ProtectedOf(lists[n - 1]), ProtectedOf(arrivals[n - 1]));
      SubsequenceTransitive(ProtectedOf(lists[m]), ProtectedOf(lists[n - 1]),
                            ProtectedOf(lists[n - 1] + arrivals[n - 1]));
      SubsequenceTransitive(ProtectedOf(lists[m]), ProtectedOf(lists[n - 1] + arrivals[n - 1]), ProtectedOf(lists[n]));
    }
  }

  lemma SubsequencePrefix(a: seq<Message>, b: seq<Message>)
    ensures Subsequence(a, a + b)
  {
    assert Places(a, a + b, seq(|a|, k requires 0 <= k < |a| => k as nat));
  }
}
