/** Execution-session messages, tool-call groups and what it means for a message
    list to hold whole groups only. */
module Messages {
  import opened Text

  datatype Role = System | User | Assistant | Tool | Other(name: string)

  datatype ToolCall = ToolCall(id: string, name: string, arguments: string)

  datatype Message = Message(
    role: Role,
    content: string,
    toolCalls: seq<ToolCall>,
    toolCallId: string,
    contentRef: string,
    isPruned: bool,
    isProtected: bool,
    groupId: string,
    authority: int,
    journalSeq: nat,
    isDigest: bool)

  predicate IsCaller(m: Message) {
    m.role == Assistant && m.toolCalls != []
  }

  predicate IsResult(m: Message) {
    m.role == Tool && m.toolCallId != ""
  }

  predicate Speaks(m: Message) {
    m.role == User || m.role == Assistant
  }

  predicate Calls(m: Message, id: string) {
    m.role == Assistant && exists k :: 0 <= k < |m.toolCalls| && m.toolCalls[k].id == id
  }

  // ----- Groups ------------------------------------------------------------------

  /** The latest caller before index `n` that issued the call `id`. */
  function OwnerBefore(ms: seq<Message>, n: nat, id: string): (o: Option<nat>)
    requires n <= |ms|
    ensures o.Some? ==> o.value < n && IsCaller(ms[o.value]) && Calls(ms[o.value], id)
    ensures o.Some? ==> forall k :: o.value < k < n ==> !Calls(ms[k], id)
    ensures o.None? ==> forall k :: 0 <= k < n ==> !Calls(ms[k], id)
  {
    if n == 0 then None
    else if Calls(ms[n - 1], id) then Some(n - 1)
    else OwnerBefore(ms, n - 1, id)
  }

  /** The caller whose group message `i` belongs to: itself for a caller, the
      latest earlier caller of its id for a tool result. */
  function GroupOf(ms: seq<Message>, i: nat): (o: Option<nat>)
    requires i < |ms|
    ensures o.Some? ==> o.value <= i && IsCaller(ms[o.value])
    ensures o.Some? && o.value < i ==> IsResult(ms[i]) && Calls(ms[o.value], ms[i].toolCallId)
  {
    if IsCaller(ms[i]) then Some(i)
    else if IsResult(ms[i]) then OwnerBefore(ms, i, ms[i].toolCallId)
    else None
  }

  /** Who is in a group: an assistant that calls something, and a tool result with an id that an
      assistant before it called. */
  lemma GroupMembers(ms: seq<Message>, i: nat)
    requires i < |ms|
    ensures GroupOf(ms, i).Some? <==>
      || (ms[i].role == Assistant && |ms[i].toolCalls| > 0)
      || (ms[i].role == Tool && ms[i].toolCallId != ""
          && exists j, k :: 0 <= j < i && ms[j].role == Assistant && 0 <= k < |ms[j].toolCalls|
               && ms[j].toolCalls[k].id == ms[i].toolCallId)
  {
    hide OwnerBefore;
    if IsResult(ms[i]) && OwnerBefore(ms, i, ms[i].toolCallId).None? {
      assert forall j :: 0 <= j < i ==> !Calls(ms[j], ms[i].toolCallId);
    }
  }

  ghost predicate InGroup(ms: seq<Message>, i: int, o: nat) {
    0 <= i < |ms| && GroupOf(ms, i) == Some(o)
  }

  // ----- Whole groups only -------------------------------------------------------

  ghost predicate HasCall(ms: seq<Message>, id: string) {
    exists i :: 0 <= i < |ms| && Calls(ms[i], id)
  }

  ghost predicate HasResult(ms: seq<Message>, id: string) {
    exists i :: 0 <= i < |ms| && IsResult(ms[i]) && ms[i].toolCallId == id
  }

  /** Nobody has spoken after message `i`; in particular it is the last caller. */
  ghost predicate PendingAtEnd(ms: seq<Message>, i: nat) {
    forall j :: i < j < |ms| ==> !Speaks(ms[j])
  }

  /** Every result has its call, and every call has its result unless it is still
      pending at the end. */
  ghost predicate WholeGroups(ms: seq<Message>) {
    && (forall i :: 0 <= i < |ms| && IsResult(ms[i]) ==> HasCall(ms, ms[i].toolCallId))
    && (forall i, id :: 0 <= i < |ms| && Calls(ms[i], id) && !HasResult(ms, id) ==> PendingAtEnd(ms, i))
  }

  /** Histories as the execution loop builds them: call ids name one message each,
      results come after their calls, digests take no part in tool calls. */
  ghost predicate WellFormed(ms: seq<Message>) {
    && WholeGroups(ms)
    && (forall i, j, id :: 0 <= i < j < |ms| ==> !(Calls(ms[i], id) && Calls(ms[j], id)))
    && (forall i :: 0 <= i < |ms| && IsResult(ms[i]) ==> OwnerBefore(ms, i, ms[i].toolCallId).Some?)
    && (forall i :: 0 <= i < |ms| && ms[i].isDigest ==> ms[i].role == User)
  }

  // ----- Messages for examples ---------------------------------------------------

  function Plain(role: Role): Message {
    Message(role, "", [], "", "", false, false, "", 0, 0, false)
  }

  function Calling(id: string): Message {
    Plain(Assistant).(toolCalls := [ToolCall(id, "", "")])
  }

  function Answering(id: string): Message {
    Plain(Tool).(toolCallId := id)
  }

  lemma CallingCalls(id: string, x: string)
    ensures Calls(Calling(id), x) <==> x == id
  {
    assert Calling(id).toolCalls[0].id == id;
  }

  // ----- Ordered subsequences ----------------------------------------------------

  /** `f` places the elements of `a` at increasing positions of `b`. */
  ghost predicate Places<T>(a: seq<T>, b: seq<T>, f: seq<nat>) {
    && |f| == |a|
    && (forall k :: 0 <= k < |f| ==> f[k] < |b| && b[f[k]] == a[k])
    && (forall j, k :: 0 <= j < k < |f| ==> f[j] < f[k])
  }

  ghost predicate Subsequence<T>(a: seq<T>, b: seq<T>) {
    exists f: seq<nat> :: Places(a, b, f)
  }

  lemma SubsequenceReflexive<T>(a: seq<T>)
    ensures Subsequence(a, a)
  {
    assert Places(a, a, seq(|a|, k requires 0 <= k < |a| => k as nat));
  }

  lemma SubsequenceTransitive<T>(a: seq<T>, b: seq<T>, c: seq<T>)
    requires Subsequence(a, b) && Subsequence(b, c)
    ensures Subsequence(a, c)
  {
    var f: seq<nat> :| Places(a, b, f);
    var g: seq<nat> :| Places(b, c, g);
    var h := seq(|a|, k requires 0 <= k < |a| => g[f[k]]);
    assert Places(a, c, h);
  }

  lemma SubsequencePush<T>(a: seq<T>, b: seq<T>, x: T)
    requires Subsequence(a, b)
    ensures Subsequence(a + [x], b + [x]) && Subsequence(a, b + [x])
  {
    var f: seq<nat> :| Places(a, b, f);
    assert Places(a, b + [x], f);
    assert Places(a + [x], b + [x], f + [|b|]);
  }

  /** The protected messages that are not digests, in order. */
  function ProtectedOf(ms: seq<Message>): seq<Message> {
    if ms == [] then []
    else
      var rest := ProtectedOf(ms[..|ms| - 1]);
      var m := ms[|ms| - 1];
      if m.isProtected && !m.isDigest then rest + [m] else rest
  }

  lemma {:induction false} ProtectedOfConcat(a: seq<Message>, b: seq<Message>)
    ensures ProtectedOf(a + b) == ProtectedOf(a) + ProtectedOf(b)
  {
    if b == [] {
      assert a + b == a;
    } else {
      var m := b[|b| - 1];
      assert (a + b)[..|a + b| - 1] == a + b[..|b| - 1];
      ProtectedOfConcat(a, b[..|b| - 1]);
    }
  }
}
