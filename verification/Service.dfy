/** The control-plane service: transactions over a store, one working projection per
    transaction, and the loops that `Commands` describes as functions. Any storage call
    may fail; a failed transaction leaves the store as it was. */
module Service {
  import opened Text
  import opened Journal
  import opened Commands
  import opened Batches

  class Store {
    var state: StoreState

    constructor ()
      ensures state == StoreState([], map[], map[])
    {
      state := StoreState([], map[], map[]);
    }
  }

  /** A read-write transaction: its own view of the store, installed by a commit. */
  class Transaction {
    var state: StoreState

    constructor (state: StoreState)
      ensures this.state == state
    {
      this.state := state;
    }
  }

  class WorkingProjection {
    var value: Projection

    constructor (value: Projection)
      ensures this.value == value
    {
      this.value := value;
    }
  }

  function At(seen: map<string, int>, s: string): int {
    if s in seen then seen[s] else 0
  }

  method CountStrings(a: seq<string>) returns (seen: map<string, int>)
    ensures forall s :: At(seen, s) == multiset(a)[s]
  {
    seen := map[];
    for i := 0 to |a|
      invariant forall s :: At(seen, s) == multiset(a[..i])[s]
    {
      assert a[..i + 1] == a[..i] + [a[i]];
      seen := seen[a[i] := At(seen, a[i]) + 1];
    }
    assert a[..|a|] == a;
  }

  /** sameStrings: equal as multisets. Its comment says "as sets", but lists that repeat
      different members are told apart, and so are lists of different lengths. */
  method SameStrings(a: seq<string>, b: seq<string>) returns (same: bool)
    ensures same <==> multiset(a) == multiset(b)
  {
    if |a| != |b| {
      assert |multiset(a)| == |a| && |multiset(b)| == |b|;
      return false;
    }
    var seen := CountStrings(a);
    for i := 0 to |b|
      invariant forall s :: At(seen, s) == multiset(a)[s] as int - multiset(b[..i])[s] as int
      invariant forall s :: At(seen, s) >= 0
    {
      assert b[..i + 1] == b[..i] + [b[i]];
      var left := At(seen, b[i]) - 1;
      if left < 0 {
        PrefixCounts(b, i + 1, b[i]);
        return false;
      }
      seen := seen[b[i] := left];
    }
    assert b[..|b|] == b;
    forall s ensures multiset(b)[s] <= multiset(a)[s] {
      assert At(seen, s) >= 0;
    }
    BagsOfOneSize(multiset(a), multiset(b));
    return true;
  }

  lemma PrefixCounts(b: seq<string>, n: nat, s: string)
    requires n <= |b|
    ensures multiset(b[..n])[s] <= multiset(b)[s]
  {
    assert b == b[..n] + b[n..];
  }

  lemma BagsOfOneSize(a: multiset<string>, b: multiset<string>)
    requires |a| == |b| && forall s :: b[s] <= a[s]
    ensures a == b
  {
    assert b <= a;
    assert |a - b| == 0;
    assert a == b + (a - b);
  }

  function ValuesOf(a: seq<string>): set<string> {
    set s | s in a
  }

  /** As sets the two lists are the same; as the code compares them they are not. */
  lemma SetsHideRepeats()
    ensures
      var a, b := ["a", "a", "b"], ["a", "b", "b"];
      |a| == |b| && ValuesOf(a) == ValuesOf(b) && multiset(a) != multiset(b)
  {
    var a, b := ["a", "a", "b"], ["a", "b", "b"];
    assert multiset(a)["a"] == 2 && multiset(b)["a"] == 1;
    assert "a" in a && "b" in a && "a" in b && "b" in b;
    assert ValuesOf(a) == {"a", "b"} == ValuesOf(b);
  }

  predicate Repeats(a: seq<string>, i: int, j: int) {
    0 <= i < j < |a| && a[i] == a[j]
  }

  predicate NoRepeats(a: seq<string>) {
    forall i, j :: 0 <= i < j < |a| ==> !Repeats(a, i, j)
  }

  predicate OneValue(a: seq<string>) {
    forall i :: 0 <= i < |a| ==> a[i] == a[0]
  }

  /** Comparing with `a` means the same under both readings, whatever list of its length
      it is compared with. */
  ghost predicate ReadsAsSet(a: seq<string>) {
    forall b: seq<string> | |b| == |a| :: ValuesOf(b) == ValuesOf(a) <==> multiset(b) == multiset(a)
  }

  lemma SameBagSameSet(a: seq<string>, b: seq<string>)
    requires multiset(a) == multiset(b)
    ensures ValuesOf(a) == ValuesOf(b)
  {
    forall s ensures s in a <==> s in b {
      assert s in multiset(a) <==> s in multiset(b);
    }
  }

  lemma {:induction false} NoRepeatsCounts(a: seq<string>)
    ensures NoRepeats(a) <==> |ValuesOf(a)| == |a|
    ensures |ValuesOf(a)| <= |a|
    ensures NoRepeats(a) ==> forall s :: multiset(a)[s] <= 1
  {
    if a != [] {
      var rest, last := a[..|a| - 1], a[|a| - 1];
      NoRepeatsCounts(rest);
      assert a == rest + [last];
      assert ValuesOf(a) == ValuesOf(rest) + {last};
      if last in rest {
        assert ValuesOf(a) == ValuesOf(rest);
        var i :| 0 <= i < |rest| && rest[i] == last;
        assert Repeats(a, i, |a| - 1);
      } else {
        assert |ValuesOf(a)| == |ValuesOf(rest)| + 1;
        RepeatsOfRest(rest, last);
      }
    }
  }

  lemma RepeatsOfRest(rest: seq<string>, last: string)
    requires last !in rest
    ensures NoRepeats(rest + [last]) <==> NoRepeats(rest)
  {
    var a := rest + [last];
    forall i, j | 0 <= i < j < |a| ensures Repeats(a, i, j) <==> Repeats(rest, i, j) {
      assert j == |rest| ==> a[i] in rest;
    }
    if NoRepeats(a) {
      forall i, j | 0 <= i < j < |rest| ensures !Repeats(rest, i, j) {
        assert !Repeats(a, i, j);
      }
    }
  }

  /** Two lists with one set of members, as long as that set is large, are one bag. */
  lemma NoRepeatsReadsAsSet(a: seq<string>, b: seq<string>)
    requires NoRepeats(a) && |b| == |a| && ValuesOf(b) == ValuesOf(a)
    ensures multiset(b) == multiset(a)
  {
    NoRepeatsCounts(a);
    NoRepeatsCounts(b);
    forall s ensures multiset(b)[s] == multiset(a)[s] {
      assert s in b <==> s in ValuesOf(b);
      assert s in a <==> s in ValuesOf(a);
      assert s in b <==> s in multiset(b);
      assert s in a <==> s in multiset(a);
    }
  }

  lemma OneValueReadsAsSet(a: seq<string>, b: seq<string>)
    requires OneValue(a) && |b| == |a| && ValuesOf(b) == ValuesOf(a)
    ensures b == a
  {
    forall i | 0 <= i < |b| ensures b[i] == a[i] {
      assert b[i] in ValuesOf(b);
    }
  }

  /** A repeated value and another one: replacing the repetition keeps the set. */
  lemma ReplacedRepeat(a: seq<string>, i: nat, j: nat, k: nat)
    requires Repeats(a, i, j) && k < |a| && a[k] != a[i]
    ensures |a[j := a[k]]| == |a| && ValuesOf(a[j := a[k]]) == ValuesOf(a) && multiset(a[j := a[k]]) != multiset(a)
  {
    var b := a[j := a[k]];
    assert b[i] == a[i];
    forall s ensures s in b <==> s in a {
      if s in a {
        var n :| 0 <= n < |a| && a[n] == s;
        assert n != j ==> b[n] == s;
      }
    }
    assert multiset(b) == multiset(a)[a[j] := multiset(a)[a[j]] - 1][a[k] := multiset(a)[a[k]] + 1];
  }

  /** The two readings of the comparison agree on a list, whatever it is compared with,
      exactly when it repeats nothing or holds a single value. */
  lemma ReadsAsSetIff(a: seq<string>)
    ensures ReadsAsSet(a) <==> NoRepeats(a) || OneValue(a)
  {
    hide Repeats;
    forall b: seq<string> | |b| == |a|
      ensures multiset(b) == multiset(a) ==> ValuesOf(b) == ValuesOf(a)
      ensures ValuesOf(b) == ValuesOf(a) && (NoRepeats(a) || OneValue(a)) ==> multiset(b) == multiset(a)
    {
      if multiset(b) == multiset(a) {
        SameBagSameSet(b, a);
      } else if ValuesOf(b) == ValuesOf(a) {
        if NoRepeats(a) {
          NoRepeatsReadsAsSet(a, b);
        } else if OneValue(a) {
          OneValueReadsAsSet(a, b);
        }
      }
    }
    if !NoRepeats(a) && !OneValue(a) {
      var b := SplitRepeat(a);
      assert |b| == |a|;
    }
  }

  lemma SplitRepeat(a: seq<string>) returns (b: seq<string>)
    requires !NoRepeats(a) && !OneValue(a)
    ensures |b| == |a| && ValuesOf(b) == ValuesOf(a) && multiset(b) != multiset(a)
  {
    var i, j :| 0 <= i < j < |a| && Repeats(a, i, j);
    var n :| 0 <= n < |a| && a[n] != a[0];
    var k := if a[n] != a[i] then n else 0;
    ReplacedRepeat(a, i, j, k);
    b := a[j := a[k]];
  }

  /** A repetition alone makes the difference, even of a single value: the lengths differ. */
  lemma SetsHideLengths(x: string)
    ensures ValuesOf([x]) == ValuesOf([x, x]) && multiset([x]) != multiset([x, x])
  {
    assert multiset([x])[x] == 1 && multiset([x, x])[x] == 2;
    assert x in [x] && x in [x, x];
  }

  function WithoutRepeats(a: seq<string>): seq<string> {
    if a == [] then []
    else
      var rest := WithoutRepeats(a[..|a| - 1]);
      if a[|a| - 1] in rest then rest else rest + [a[|a| - 1]]
  }

  lemma {:induction false} WithoutRepeatsIs(a: seq<string>)
    ensures NoRepeats(WithoutRepeats(a)) && ValuesOf(WithoutRepeats(a)) == ValuesOf(a)
  {
    if a != [] {
      var rest, last := a[..|a| - 1], a[|a| - 1];
      WithoutRepeatsIs(rest);
      assert a == rest + [last];
      assert ValuesOf(a) == ValuesOf(rest) + {last};
      assert last in WithoutRepeats(rest) <==> last in ValuesOf(WithoutRepeats(rest));
      if last !in WithoutRepeats(rest) {
        RepeatsOfRest(WithoutRepeats(rest), last);
        assert ValuesOf(WithoutRepeats(rest) + [last]) == ValuesOf(WithoutRepeats(rest)) + {last};
      }
    }
  }

  /** The two readings agree on a list and every list without repeats, of whatever length,
      exactly when the list has no repeats itself. */
  lemma PlainListsReadAsSetsIff(a: seq<string>)
    ensures (forall b: seq<string> | NoRepeats(b) :: ValuesOf(b) == ValuesOf(a) <==> multiset(b) == multiset(a)) <==>
      NoRepeats(a)
  {
    hide Repeats, NoRepeats;
    forall b: seq<string> | NoRepeats(b)
      ensures multiset(b) == multiset(a) ==> ValuesOf(b) == ValuesOf(a)
      ensures NoRepeats(a) && ValuesOf(b) == ValuesOf(a) ==> multiset(b) == multiset(a)
    {
      if multiset(b) == multiset(a) {
        SameBagSameSet(b, a);
      } else if NoRepeats(a) && ValuesOf(b) == ValuesOf(a) {
        NoRepeatsCounts(a);
        NoRepeatsCounts(b);
        NoRepeatsReadsAsSet(a, b);
      }
    }
    if !NoRepeats(a) {
      var b := WithoutRepeats(a);
      WithoutRepeatsIs(a);
      NoRepeatsCounts(a);
      NoRepeatsCounts(b);
      assert |b| < |a|;
      assert |multiset(b)| == |b| && |multiset(a)| == |a|;
      assert NoRepeats(b) && ValuesOf(b) == ValuesOf(a) && multiset(b) != multiset(a);
    }
  }

  /** Against lists of every kind and length they agree for the empty list only. */
  lemma EveryListReadsAsSetIff(a: seq<string>)
    ensures (forall b: seq<string> :: ValuesOf(b) == ValuesOf(a) <==> multiset(b) == multiset(a)) <==> a == []
  {
    if a == [] {
      forall b: seq<string> ensures ValuesOf(b) == ValuesOf(a) <==> multiset(b) == multiset(a) {
        if b != [] {
          assert b[0] in ValuesOf(b) && b[0] in multiset(b);
        }
      }
    } else {
      var b := a + [a[0]];
      assert ValuesOf(b) == ValuesOf(a);
      assert multiset(b)[a[0]] == multiset(a)[a[0]] + 1;
    }
  }

  /** canonicalCorrelation: the loop over the ten columns. */
  method MergeCorrelation(p: Payload, supplied: Correlation) returns (r: Result<Correlation>)
    ensures r == CanonicalCorrelation(p, supplied)
  {
    var derived := Derived(p);
    var out: seq<string> := derived;
    for k := 0 to 10
      invariant |out| == 10
      invariant forall j :: 0 <= j < k ==>
        out[j] == Filled(derived, supplied)[j] && (supplied[j] == "" || derived[j] == "" || derived[j] == supplied[j])
      invariant forall j :: k <= j < 10 ==> out[j] == derived[j]
    {
      if supplied[k] == "" {
      } else if out[k] == "" {
        out := out[k := supplied[k]];
      } else if out[k] != supplied[k] {
        return Err(InvalidArgument);
      }
    }
    assert out == Filled(derived, supplied);
    return Ok(out);
  }

  class ControlPlane {
    const rules: Rules
    const store: Store

    /** How many storage calls have failed so far. */
    ghost var failures: nat

    constructor (rules: Rules, store: Store)
      ensures this.rules == rules && this.store == store && failures == 0
    {
      this.rules, this.store, failures := rules, store, 0;
    }

    /** The storage is to blame: a call failed since `before`. */
    ghost predicate Blames(e: Error, before: nat)
      reads this
    {
      e == StorageFailed && failures > before
    }

    /** One reading of the clock and the id source. */
    method NextReading() returns (r: Reading) {
      r :| true;
    }

    method StorageFails() returns (fails: bool)
      modifies this`failures
      ensures failures == old(failures) + if fails then 1 else 0
    {
      fails := *;
      if fails {
        failures := failures + 1;
      }
    }

    /** loadProjection: read the project's events and fold them. */
    method Load(tx: Transaction, project: string) returns (r: Result<Projection>)
      modifies this`failures
      ensures failures >= old(failures)
      ensures match r
              case Ok(p) => failures == old(failures) && LoadProjection(rules, tx.state, project) == Some(p)
              case Err(e) => Blames(e, old(failures))
                             || (e == Integrity && LoadProjection(rules, tx.state, project) == None)
    {
      var fails := StorageFails();
      if fails { return Err(StorageFailed); }
      var p := FRESH;
      ghost var es := EventsOf(tx.state.journal, project);
      var journal := tx.state.journal;
      var broken := false;
      for k := 0 to |journal|
        invariant failures == old(failures)
        invariant Reduce(rules, EventsOf(journal[..k], project)) == if broken then None else Some(p)
      {
        assert journal[..k + 1] == journal[..k] + [journal[k]];
        EventsOfPush(journal[..k], journal[k], project);
        if journal[k].project == project {
          ReducePush(rules, EventsOf(journal[..k], project), journal[k]);
          if !broken {
            match ApplyEvent(rules, p, journal[k]) {
              case None => broken := true;
              case Some(q) => p := q;
            }
          }
        } else {
          assert EventsOf(journal[..k], project) + [] == EventsOf(journal[..k], project);
        }
      }
      assert journal[..|journal|] == journal;
      return if broken then Err(Integrity) else Ok(p);
    }

    /** The record loop of applyMember. */
    method PutRecords(tx: Transaction, project: string, rs: seq<RecordToStore>) returns (r: Result<map<string, string>>)
      modifies tx, this`failures
      ensures failures >= old(failures)
      ensures match r
              case Ok(digests) =>
                failures == old(failures)
                && PutAll(rules, old(tx.state.records), project, rs).Ok?
                && tx.state == old(tx.state).(records := PutAll(rules, old(tx.state.records), project, rs).value)
                && digests == Digests(rules, rs)
              case Err(e) => Blames(e, old(failures)) || PutAll(rules, old(tx.state.records), project, rs) == Err(e)
    {
      var digests: map<string, string> := map[];
      for k := 0 to |rs|
        invariant failures == old(failures)
        invariant PutAll(rules, old(tx.state.records), project, rs[..k]).Ok?
        invariant tx.state == old(tx.state).(records := PutAll(rules, old(tx.state.records), project, rs[..k]).value)
        invariant digests == Digests(rules, rs[..k])
      {
        var fails := StorageFails();
        assert rs[..k + 1][..k] == rs[..k];
        if fails { return Err(StorageFailed); }
        var refused := CheckAuthority(tx.state.records, project, rs[k].record);
        if refused.Some? {
          PutAllStops(rules, old(tx.state.records), project, rs, k);
          return Err(refused.value);
        }
        var put := PutRecord(rules, tx.state.records, project, rs[k]);
        if put.Err? {
          PutAllStops(rules, old(tx.state.records), project, rs, k);
          return Err(put.error);
        }
        tx.state := tx.state.(records := put.value);
        digests := digests[rs[k].record.id := rules.digestOf(rs[k].record)];
      }
      assert rs[..|rs|] == rs;
      return Ok(digests);
    }

    /** applyMember. On success the transaction and the working projection have taken
        the member's step; on failure the transaction is going to be rolled back. */
    method ApplyMember(tx: Transaction, projection: WorkingProjection, cmd: Command, savePerEvent: bool)
      returns (r: Result<Applied>, ghost reading: Reading)
      modifies tx, projection, this`failures
      ensures failures >= old(failures)
      ensures match r
              case Ok(applied) =>
                var step := Member(rules, old(tx.state), old(projection.value), cmd, reading);
                && failures == old(failures) && step.Ok? && applied == step.value.applied
                && projection.value == step.value.projection
                && (if savePerEvent then Save(rules, step.value.state, step.value.projection) == Ok(tx.state)
                    else tx.state == step.value.state)
              case Err(e) =>
                || Blames(e, old(failures))
                || Member(rules, old(tx.state), old(projection.value), cmd, reading) == Err(e)
    {
      hide PutAll, CheckReferencedRecord, CanonicalCorrelation, ApplyEvent, Digests;
      reading := Reading("", "");
      if !projection.value.initialised && !cmd.payload.ProjectInitialized? { return Err(NotFound), reading; }
      var digests := PutRecords(tx, cmd.project, cmd.records);
      if digests.Err? { return Err(digests.error), reading; }
      var bad := CheckReferencedRecord(tx.state.records, cmd.project, cmd.payload);
      if bad.Some? { return Err(bad.value), reading; }
      var correlation := MergeCorrelation(cmd.payload, cmd.supplied);
      if correlation.Err? { return Err(correlation.error), reading; }
      var now := NextReading();
      reading := now;
      var event := EventOf(tx.state, cmd, correlation.value, now);
      var fails := StorageFails();
      if fails { return Err(StorageFailed), reading; }
      var appended := AppendEvent(rules, tx.state.journal, event);
      if appended.Err? { return Err(appended.error), reading; }
      tx.state := tx.state.(journal := appended.value);
      var next := ApplyEvent(rules, projection.value, event);
      if next.None? { return Err(InvalidTransition), reading; }
      projection.value := next.value;
      if savePerEvent {
        var saved := Save(rules, tx.state, projection.value);
        AppliedIsInitialised(rules, old(projection.value), event);
        if saved.Err? { return Err(saved.error), reading; }
        fails := StorageFails();
        if fails { return Err(StorageFailed), reading; }
        tx.state := saved.value;
      }
      var view := rules.render(projection.value);
      if view.None? { return Err(Integrity), reading; }
      return Ok(Applied(event, view.value, digests.value)), reading;
    }

    /** Service.Apply. */
    method ApplyOne(cmd: Command) returns (r: Result<Applied>, ghost reading: Reading)
      modifies store, this`failures
      ensures failures >= old(failures)
      ensures match r
              case Ok(applied) =>
                failures == old(failures) && Apply(rules, old(store.state), cmd, reading) == Ok((store.state, applied))
              case Err(e) => store.state == old(store.state)
                             && (Blames(e, old(failures)) || Apply(rules, old(store.state), cmd, reading) == Err(e))
    {
      hide Member;
      reading := Reading("", "");
      if cmd.project == "" || cmd.actor == "" { return Err(InvalidArgument), reading; }
      var tx := new Transaction(store.state);
      var loaded := Load(tx, cmd.project);
      if loaded.Err? { return Err(loaded.error), reading; }
      var projection := new WorkingProjection(loaded.value);
      r, reading := ApplyMember(tx, projection, cmd, true);
      if r.Err? { return; }
      var fails := StorageFails();
      if fails { return Err(StorageFailed), reading; }
      store.state := tx.state;
    }

    /** runGuards over a read-only view. */
    method RunGuards(projection: WorkingProjection, tx: Transaction, guards: seq<Guard>) returns (ok: bool)
      ensures ok <==> AllPass(guards, projection.value, tx.state.records)
    {
      for k := 0 to |guards|
        invariant forall j :: 0 <= j < k ==> guards[j](projection.value, tx.state.records)
      {
        if !guards[k](projection.value, tx.state.records) { return false; }
      }
      return true;
    }

    /** The member loop of ApplyBatch. */
    method RunMembers(tx: Transaction, projection: WorkingProjection, cmds: seq<Command>)
      returns (r: Result<seq<Applied>>, ghost readings: seq<Reading>)
      modifies tx, projection, this`failures
      ensures failures >= old(failures)
      ensures |readings| == |cmds|
      ensures match r
              case Ok(results) =>
                failures == old(failures)
                && Members(rules, old(tx.state), old(projection.value), cmds, readings)
                == Ok(Progress(tx.state, projection.value, results))
              case Err(e) => Blames(e, old(failures))
                             || Members(rules, old(tx.state), old(projection.value), cmds, readings) == Err(e)
    {
      hide Member;
      var results: seq<Applied> := [];
      readings := [];
      for k := 0 to |cmds|
        invariant |readings| == k && failures == old(failures)
        invariant Members(rules, old(tx.state), old(projection.value), cmds[..k], readings)
                  == Ok(Progress(tx.state, projection.value, results))
      {
        assert cmds[..k + 1][..k] == cmds[..k];
        ghost var before := readings;
        var applied, reading := ApplyMember(tx, projection, cmds[k], false);
        readings := readings + [reading];
        assert readings[..k] == before;
        if applied.Err? {
          readings := readings + seq(|cmds| - k - 1, _ => Reading("", ""));
          if !Blames(applied.error, old(failures)) {
            MembersStop(rules, old(tx.state), old(projection.value), cmds, readings, k + 1);
          }
          return Err(applied.error), readings;
        }
        results := results + [applied.value];
      }
      assert cmds[..|cmds|] == cmds;
      return Ok(results), readings;
    }

    /** The record checks of validateBatch for one command. */
    method ValidateRecords(rs: seq<RecordToStore>, start: set<(string, string, int)>, sizeOfRecord: Record -> nat)
      returns (ok: bool, seen: set<(string, string, int)>, size: nat)
      ensures ok <==> RecordsFit(start, rs)
      ensures ok ==> seen == start + RecordIdentities(rs) && size == RecordsSize(rs, sizeOfRecord)
    {
      seen, size := start, 0;
      for i := 0 to |rs|
        invariant seen == start + RecordIdentities(rs[..i])
        invariant RecordsFit(start, rs[..i])
        invariant size == RecordsSize(rs[..i], sizeOfRecord)
      {
        assert rs[..i + 1][..i] == rs[..i];
        var identity := (rs[i].record.kind, rs[i].record.id, rs[i].version);
        if rs[i].version < 1 || identity in seen {
          RecordsMisfit(start, rs, i + 1);
          return false, seen, size;
        }
        IdentitiesPush(rs, i);
        seen := seen + {identity};
        size := size + sizeOfRecord(rs[i].record);
      }
      assert rs[..|rs|] == rs;
      ok := true;
    }

    /** The structural checks of validateBatch that need no store. */
    method ValidateBatch(b: Batch, sizeOfPayload: Payload -> nat, sizeOfRecord: Record -> nat) returns (ok: bool)
      ensures ok <==> ValidBatch(b, sizeOfPayload, sizeOfRecord)
    {
      hide ParsesAsRevision, RecordsFit, RecordIdentities, RecordsSize;
      if b.project == "" || b.actor == "" || !ParsesAsRevision(b.expected) { return false; }
      if !(1 <= |b.commands| <= MAX_BATCH_COMMANDS) { return false; }
      if |b.preconditions| > MAX_BATCH_GUARDS || |b.postconditions| > MAX_BATCH_GUARDS { return false; }
      if b.workPackage.Some? {
        var g := b.workPackage.value;
        if g.taskId == "" || g.workPackageId == "" || g.version < 1 || g.digest == "" || g.baseCommit == "" {
          return false;
        }
      }
      var seen: set<(string, string, int)> := {};
      var total := 0;
      for k := 0 to |b.commands|
        invariant forall j :: 0 <= j < k ==> Belongs(b, b.commands[j])
        invariant seen == Identities(b.commands[..k]) && DistinctRecords(b.commands[..k])
        invariant total == TotalSize(b.commands[..k], sizeOfPayload, sizeOfRecord)
      {
        assert b.commands[..k + 1][..k] == b.commands[..k];
        if b.commands[k].project != b.project || b.commands[k].actor != b.actor { return false; }
        if b.commands[k].supplied != b.supplied { return false; }
        var fit, more, size := ValidateRecords(b.commands[k].records, seen, sizeOfRecord);
        if !fit {
          Misfit(b.commands, k);
          return false;
        }
        seen := more;
        total := total + sizeOfPayload(b.commands[k].payload) + size;
      }
      assert b.commands[..|b.commands|] == b.commands;
      return total <= MAX_BATCH_BYTES;
    }

    /** Service.ApplyBatch. */
    method CommitBatch(b: Batch, sizeOfPayload: Payload -> nat, sizeOfRecord: Record -> nat)
      returns (r: Result<seq<Applied>>, ghost readings: seq<Reading>)
      modifies store, this`failures
      ensures failures >= old(failures)
      ensures |readings| == |b.commands|
      ensures match r
              case Ok(results) =>
                && failures == old(failures) && ValidBatch(b, sizeOfPayload, sizeOfRecord) && Admissible(b)
                && ApplyBatch(rules, old(store.state), b, readings) == Ok((store.state, results))
              case Err(e) =>
                && store.state == old(store.state)
                && (Blames(e, old(failures))
                    || (e == InvalidArgument && !ValidBatch(b, sizeOfPayload, sizeOfRecord))
                    || ApplyBatch(rules, old(store.state), b, readings) == Err(e))
    {
      hide Members, CheckWorkPackageGuard, ValidBatch, Admissible, LoadProjection, StateRevision;
      readings := seq(|b.commands|, _ => Reading("", ""));
      var valid := ValidateBatch(b, sizeOfPayload, sizeOfRecord);
      if !valid { return Err(InvalidArgument), readings; }
      ValidIsAdmissible(b, sizeOfPayload, sizeOfRecord);
      var tx := new Transaction(store.state);
      var loaded := Load(tx, b.project);
      if loaded.Err? { return Err(loaded.error), readings; }
      var projection := new WorkingProjection(loaded.value);
      if StateRevision(projection.value.highWatermark) != b.expected { return Err(StaleProjectState), readings; }
      if b.workPackage.Some? {
        var stale := CheckWorkPackageGuard(tx.state, b.project, projection.value, b.workPackage.value);
        if stale.Some? { return Err(stale.value), readings; }
      }
      var pass := RunGuards(projection, tx, b.preconditions);
      if !pass { return Err(Refused), readings; }
      r, readings := RunMembers(tx, projection, b.commands);
      if r.Err? { return; }
      pass := RunGuards(projection, tx, b.postconditions);
      if !pass { return Err(Refused), readings; }
      var fails := StorageFails();
      if fails { return Err(StorageFailed), readings; }
      var saved := Save(rules, tx.state, projection.value);
      if saved.Err? { return Err(saved.error), readings; }
      store.state := saved.value;
    }

    /** Service.RebuildProjection. */
    method RebuildProjection(project: string) returns (r: Result<()>)
      modifies store, this`failures
      ensures failures >= old(failures)
      ensures r.Ok? ==> failures == old(failures) && Rebuild(rules, old(store.state), project) == Ok(store.state)
      ensures r.Err? ==> store.state == old(store.state)
                         && (Blames(r.error, old(failures))
                           || Rebuild(rules, old(store.state), project) == Err(r.error))
      ensures StoreInv(rules, old(store.state)) ==> store.state == old(store.state)
    {
      if StoreInv(rules, store.state) {
        RebuildIsIdentity(rules, store.state, project);
      }
      var tx := new Transaction(store.state);
      var loaded := Load(tx, project);
      if loaded.Err? { return Err(loaded.error); }
      if !loaded.value.initialised { return Err(NotFound); }
      var fails := StorageFails();
      if fails { return Err(StorageFailed); }
      tx.state := tx.state.(saved := tx.state.saved - {project});
      var saved := Save(rules, tx.state, loaded.value);
      if saved.Err? { return Err(saved.error); }
      store.state := saved.value;
      return Ok(());
    }
  }

  lemma ValidIsAdmissible(b: Batch, sizeOfPayload: Payload -> nat, sizeOfRecord: Record -> nat)
    requires ValidBatch(b, sizeOfPayload, sizeOfRecord)
    ensures Admissible(b)
  {
    hide ParsesAsRevision, CompleteTuple, DistinctRecords, TotalSize;
  }

  lemma AppliedIsInitialised(rules: Rules, p: Projection, e: Event)
    ensures ApplyEvent(rules, p, e).Some? ==> ApplyEvent(rules, p, e).value.initialised
  {
  }

  lemma {:induction false} PutAllStops(rules: Rules, records: Records, project: string, rs: seq<RecordToStore>, k: nat)
    requires k < |rs| && PutAll(rules, records, project, rs[..k + 1]).Err?
    ensures PutAll(rules, records, project, rs) == PutAll(rules, records, project, rs[..k + 1])
    decreases |rs|
  {
    if k + 1 == |rs| {
      assert rs[..k + 1] == rs;
    } else {
      assert rs[..|rs| - 1][..k + 1] == rs[..k + 1];
      PutAllStops(rules, records, project, rs[..|rs| - 1], k);
    }
  }

  lemma {:induction false} MembersStop(rules: Rules, st: StoreState, p: Projection, cmds: seq<Command>,
                                       rs: seq<Reading>, k: nat)
    requires |rs| == |cmds| && k <= |cmds| && Members(rules, st, p, cmds[..k], rs[..k]).Err?
    ensures Members(rules, st, p, cmds, rs) == Members(rules, st, p, cmds[..k], rs[..k])
    decreases |cmds|
  {
    if k == |cmds| {
      assert cmds[..k] == cmds && rs[..k] == rs;
    } else {
      assert cmds[..|cmds| - 1][..k] == cmds[..k] && rs[..|cmds| - 1][..k] == rs[..k];
      MembersStop(rules, st, p, cmds[..|cmds| - 1], rs[..|cmds| - 1], k);
    }
  }

  // ----- What a valid batch is -------------------------------------------------------------------------

  /** ParseStateRevision accepts exactly the canonical renderings of 64-bit watermarks. */
  predicate ParsesAsRevision(s: string) {
    && |s| >= 3 && s[..3] == "ps_" && AllDigits(s[3..])
    && DigitsValue(s[3..]) < 0x8000_0000_0000_0000 && s == StateRevision(DigitsValue(s[3..]))
  }

  lemma ParsesIff(s: string)
    ensures ParsesAsRevision(s) <==> exists n: nat :: n < 0x8000_0000_0000_0000 && s == StateRevision(n)
  {
    forall n: nat | n < 0x8000_0000_0000_0000 && s == StateRevision(n) ensures ParsesAsRevision(s) {
      PaddedRoundTrip(n, 9);
      assert s[3..] == Padded(n, 9);
    }
  }

  predicate CompleteTuple(g: WorkPackageGuard) {
    g.taskId != "" && g.workPackageId != "" && g.version >= 1 && g.digest != "" && g.baseCommit != ""
  }

  predicate Belongs(b: Batch, c: Command) {
    c.project == b.project && c.actor == b.actor && c.supplied == b.supplied
  }

  function RecordIdentities(rs: seq<RecordToStore>): set<(string, string, int)> {
    set k | 0 <= k < |rs| :: (rs[k].record.kind, rs[k].record.id, rs[k].version)
  }

  function Identities(cmds: seq<Command>): set<(string, string, int)> {
    if cmds == [] then {} else Identities(cmds[..|cmds| - 1]) + RecordIdentities(cmds[|cmds| - 1].records)
  }

  /** The records have versions from one and identities outside `taken`, each once. */
  predicate RecordsFit(taken: set<(string, string, int)>, rs: seq<RecordToStore>) {
    rs != [] ==>
      var r := rs[|rs| - 1];
      RecordsFit(taken, rs[..|rs| - 1]) && r.version >= 1
      && (r.record.kind, r.record.id, r.version) !in taken + RecordIdentities(rs[..|rs| - 1])
  }

  predicate DistinctRecords(cmds: seq<Command>) {
    cmds != [] ==>
      DistinctRecords(cmds[..|cmds| - 1]) && RecordsFit(Identities(cmds[..|cmds| - 1]), cmds[|cmds| - 1].records)
  }

  function RecordsSize(rs: seq<RecordToStore>, sizeOfRecord: Record -> nat): nat {
    if rs == [] then 0 else RecordsSize(rs[..|rs| - 1], sizeOfRecord) + sizeOfRecord(rs[|rs| - 1].record)
  }

  function TotalSize(cmds: seq<Command>, sizeOfPayload: Payload -> nat, sizeOfRecord: Record -> nat): nat {
    if cmds == [] then 0
    else TotalSize(cmds[..|cmds| - 1], sizeOfPayload, sizeOfRecord)
         + sizeOfPayload(cmds[|cmds| - 1].payload) + RecordsSize(cmds[|cmds| - 1].records, sizeOfRecord)
  }

  predicate ValidBatch(b: Batch, sizeOfPayload: Payload -> nat, sizeOfRecord: Record -> nat) {
    && b.project != "" && b.actor != "" && ParsesAsRevision(b.expected)
    && 1 <= |b.commands| <= MAX_BATCH_COMMANDS
    && |b.preconditions| <= MAX_BATCH_GUARDS && |b.postconditions| <= MAX_BATCH_GUARDS
    && (b.workPackage.Some? ==> CompleteTuple(b.workPackage.value))
    && (forall k :: 0 <= k < |b.commands| ==> Belongs(b, b.commands[k]))
    && DistinctRecords(b.commands)
    && TotalSize(b.commands, sizeOfPayload, sizeOfRecord) <= MAX_BATCH_BYTES
  }

  lemma IdentitiesPush(rs: seq<RecordToStore>, i: nat)
    requires i < |rs|
    ensures RecordIdentities(rs[..i + 1])
            == RecordIdentities(rs[..i]) + {(rs[i].record.kind, rs[i].record.id, rs[i].version)}
  {
    var a, b := rs[..i], rs[..i + 1];
    assert forall k :: 0 <= k < i ==> b[k] == a[k];
    assert b[i] == rs[i];
  }

  lemma {:induction false} RecordsMisfit(taken: set<(string, string, int)>, rs: seq<RecordToStore>, n: nat)
    requires n <= |rs| && !RecordsFit(taken, rs[..n])
    ensures !RecordsFit(taken, rs)
    decreases |rs|
  {
    if n == |rs| {
      assert rs[..n] == rs;
    } else {
      assert rs[..|rs| - 1][..n] == rs[..n];
      RecordsMisfit(taken, rs[..|rs| - 1], n);
    }
  }

  lemma {:induction false} Misfit(cmds: seq<Command>, k: nat)
    requires k < |cmds| && !RecordsFit(Identities(cmds[..k]), cmds[k].records)
    ensures !DistinctRecords(cmds)
    decreases |cmds|
  {
    if k < |cmds| - 1 {
      assert cmds[..|cmds| - 1][..k] == cmds[..k];
      Misfit(cmds[..|cmds| - 1], k);
    }
  }
}
