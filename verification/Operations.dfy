/** Core's operation registry: which operation ids are still known, over every history of calls. */
module Operations {
  import opened Bytes

  type OperationId = nat
  datatype CommandKind = Ping | Command(code: nat)
  datatype Admission = Execute | Duplicate
  datatype AdmissionError = Full

  // ---- the registry as a value ----

  datatype Registry = Registry(admitted: map<OperationId, CommandKind>, finished: seq<OperationId>, capacity: nat)

  predicate Knows(r: Registry, id: OperationId) { id in r.admitted || id in r.finished }

  function Admitted(r: Registry, id: OperationId, kind: CommandKind): (Result<Admission, AdmissionError>, Registry) {
    if Knows(r, id) then (Ok(Duplicate), r)
    else if |r.admitted| == r.capacity then (Err(Full), r)
    else (Ok(Execute), r.(admitted := r.admitted[id := kind]))
  }

  function Retired(r: Registry, id: OperationId): Registry {
    var kept := if |r.finished| == r.capacity && r.finished != [] then r.finished[1..] else r.finished;
    r.(admitted := r.admitted - {id}, finished := kept + [id])
  }

  class OperationRegistry {
    var admitted: map<OperationId, CommandKind>
    var finished: seq<OperationId>
    const capacity: nat

    ghost function State(): Registry
      reads this
    {
      Registry(admitted, finished, capacity)
    }

    constructor (capacity: nat)
      requires capacity >= 1
      ensures State() == Registry(map[], [], capacity)
    {
      admitted, finished, this.capacity := map[], [], capacity;
    }

    method Known(id: OperationId) returns (known: bool)
      ensures known <==> Knows(State(), id)
    {
      return id in admitted || id in finished;
    }

    method Admit(id: OperationId, kind: CommandKind) returns (r: Result<Admission, AdmissionError>)
      modifies this
      ensures (r, State()) == Admitted(old(State()), id, kind)
    {
      var known := Known(id);
      if known {
        return Ok(Duplicate);
      }
      if |admitted| == capacity {
        return Err(Full);
      }
      admitted := admitted[id := kind];
      return Ok(Execute);
    }

    method AdmitOperation(id: OperationId) returns (r: Result<Admission, AdmissionError>)
      modifies this
      ensures (r, State()) == Admitted(old(State()), id, Ping)
    {
      r := Admit(id, Ping);
    }

    method Retire(id: OperationId)
      requires capacity >= 1
      modifies this
      ensures State() == Retired(old(State()), id)
    {
      admitted := admitted - {id};
      if |finished| == capacity {
        finished := finished[1..];
      }
      finished := finished + [id];
    }
  }

  /** A registry without room for one operation is refused. */
  method NewOperationRegistry(capacity: nat) returns (r: Result<OperationRegistry, AdmissionError>)
    ensures if capacity == 0 then r == Err(Full) else r.Ok?
    ensures r.Ok? ==> fresh(r.value) && r.value.State() == Registry(map[], [], capacity)
  {
    if capacity == 0 {
      return Err(Full);
    }
    var registry := new OperationRegistry(capacity);
    return Ok(registry);
  }

  // ---- histories ----

  datatype Call = AdmitCall(id: OperationId, kind: CommandKind) | RetireCall(id: OperationId)
  datatype Happened = Executed(id: OperationId) | WasDuplicate(id: OperationId) | WasFull(id: OperationId) | Finished(id: OperationId)

  function Step(r: Registry, call: Call): (Happened, Registry) {
    match call
    case RetireCall(id) => (Finished(id), Retired(r, id))
    case AdmitCall(id, kind) =>
      var (result, r') := Admitted(r, id, kind);
      (match result
       case Ok(Execute) => Executed(id)
       case Ok(Duplicate) => WasDuplicate(id)
       case Err(Full) => WasFull(id), r')
  }

  /** What happened over the calls, in order, and the registry afterwards. */
  function History(capacity: nat, calls: seq<Call>): (seq<Happened>, Registry) {
    if calls == [] then ([], Registry(map[], [], capacity))
    else
      var (past, r) := History(capacity, calls[..|calls| - 1]);
      var (h, r') := Step(r, calls[|calls| - 1]);
      (past + [h], r')
  }

  // ---- the reference: what the history alone says is known ----

  /** Executed and not retired since. */
  predicate Open(past: seq<Happened>, id: OperationId) {
    past != []
    && var h := past[|past| - 1];
       if h == Executed(id) then true
       else if h == Finished(id) then false
       else Open(past[..|past| - 1], id)
  }

  function Retirements(past: seq<Happened>): seq<OperationId> {
    if past == [] then []
    else
      var h := past[|past| - 1];
      Retirements(past[..|past| - 1]) + (if h.Finished? then [h.id] else [])
  }

  function Newest(ids: seq<OperationId>, count: nat): seq<OperationId> {
    if |ids| <= count then ids else ids[|ids| - count..]
  }

  ghost predicate AdmittedAreOpen(past: seq<Happened>, r: Registry) {
    forall id :: id in r.admitted <==> Open(past, id)
  }

  /** The registry holds exactly the open operations and the newest `capacity` retirements. */
  ghost predicate Exact(past: seq<Happened>, r: Registry) {
    && AdmittedAreOpen(past, r)
    && r.finished == Newest(Retirements(past), r.capacity)
    && |r.admitted| <= r.capacity && |r.finished| <= r.capacity
  }

  lemma OpenAppend(past: seq<Happened>, h: Happened, id: OperationId)
    ensures Open(past + [h], id) <==> (h == Executed(id) || (h != Finished(id) && Open(past, id)))
    ensures Retirements(past + [h]) == Retirements(past) + (if h.Finished? then [h.id] else [])
  {
    assert (past + [h])[..|past|] == past;
  }

  lemma NewestAppend(ids: seq<OperationId>, id: OperationId, count: nat)
    requires count >= 1
    ensures Newest(ids + [id], count) ==
            (var now := Newest(ids, count); (if |now| == count then now[1..] else now) + [id])
  {
  }

  lemma OpenAfter(past: seq<Happened>, r: Registry, call: Call)
    requires Exact(past, r)
    ensures var (h, r') := Step(r, call);
            AdmittedAreOpen(past + [h], r')
  {
    hide Open, Retirements, Newest;
    var (h, r') := Step(r, call);
    forall id ensures id in r'.admitted <==> Open(past + [h], id) {
      OpenAppend(past, h, id);
    }
  }

  lemma StepIsExact(past: seq<Happened>, r: Registry, call: Call)
    requires r.capacity >= 1 && Exact(past, r)
    ensures var (h, r') := Step(r, call);
            Exact(past + [h], r')
  {
    hide Open, Retirements, Newest, AdmittedAreOpen;
    var (h, r') := Step(r, call);
    OpenAfter(past, r, call);
    OpenAppend(past, h, 0);
    if call.RetireCall? {
      NewestAppend(Retirements(past), call.id, r.capacity);
      KeysShrink(r'.admitted, r.admitted);
    } else {
      assert Retirements(past) + [] == Retirements(past);
    }
  }

  lemma KeysShrink(small: map<OperationId, CommandKind>, large: map<OperationId, CommandKind>)
    requires small.Keys <= large.Keys
    ensures |small| <= |large|
  {
    SubsetSize(small.Keys, large.Keys);
  }

  lemma {:induction false} SubsetSize(a: set<OperationId>, b: set<OperationId>)
    requires a <= b
    ensures |a| <= |b|
  {
    if a != {} {
      var x :| x in a;
      SubsetSize(a - {x}, b - {x});
    }
  }

  /** On every history of calls the registry's memory is exactly what the history says it should be. */
  lemma {:induction false} MemoryIsExact(capacity: nat, calls: seq<Call>)
    requires capacity >= 1
    ensures var (past, r) := History(capacity, calls);
            r.capacity == capacity && |past| == |calls| && Exact(past, r)
  {
    if calls != [] {
      MemoryIsExact(capacity, calls[..|calls| - 1]);
      var (past, r) := History(capacity, calls[..|calls| - 1]);
      StepIsExact(past, r, calls[|calls| - 1]);
    }
  }

  /** What happened at call `j` is its step on the registry of the calls before it. */
  lemma HistoryAt(capacity: nat, calls: seq<Call>, j: nat)
    requires j < |calls|
    ensures |History(capacity, calls).0| == |calls|
    ensures History(capacity, calls).0[..j] == History(capacity, calls[..j]).0
    ensures History(capacity, calls).0[j] == Step(History(capacity, calls[..j]).1, calls[j]).0
  {
    hide Step;
    HistoryPrefix(capacity, calls, j + 1);
    HistoryPrefix(capacity, calls, j);
    HistoryPrefix(capacity, calls[..j], j);
    assert calls[..j + 1][..j] == calls[..j];
    assert History(capacity, calls).0[j] == History(capacity, calls).0[..j + 1][j];
  }

  /** The operations executed and not retired since. */
  function OpenIds(past: seq<Happened>): set<OperationId> {
    if past == [] then {}
    else
      var before := OpenIds(past[..|past| - 1]);
      match past[|past| - 1]
      case Executed(id) => before + {id}
      case Finished(id) => before - {id}
      case _ => before
  }

  lemma {:induction false} OpenIdsAreOpen(past: seq<Happened>, id: OperationId)
    ensures id in OpenIds(past) <==> Open(past, id)
  {
    if past != [] {
      OpenIdsAreOpen(past[..|past| - 1], id);
    }
  }

  /** What the past alone says about an id. */
  ghost predicate KnownIn(past: seq<Happened>, capacity: nat, id: OperationId) {
    Open(past, id) || id in Newest(Retirements(past), capacity)
  }

  lemma RegistryIsThePast(past: seq<Happened>, r: Registry, id: OperationId)
    requires Exact(past, r)
    ensures Knows(r, id) <==> KnownIn(past, r.capacity, id)
    ensures |r.admitted| == |OpenIds(past)|
  {
    hide Open, Retirements, Newest, OpenIds;
    forall x ensures x in r.admitted <==> x in OpenIds(past) {
      OpenIdsAreOpen(past, x);
    }
    assert r.admitted.Keys == OpenIds(past);
  }

  /**
   On every history an admission executes exactly when its id is neither open nor among the newest retirements
   and fewer than `capacity` operations are open; it is a duplicate exactly when the id is one of those, and
   refused as full otherwise.
   */
  lemma AdmissionIsExact(capacity: nat, calls: seq<Call>, j: nat)
    requires capacity >= 1 && j < |calls| && calls[j].AdmitCall?
    ensures |History(capacity, calls).0| == |calls|
    ensures var past := History(capacity, calls).0;
            var id := calls[j].id;
            past[j] == if KnownIn(past[..j], capacity, id) then WasDuplicate(id)
                       else if |OpenIds(past[..j])| < capacity then Executed(id)
                       else WasFull(id)
  {
    hide KnownIn, OpenIds, Exact, Knows;
    hide History;
    HistoryAt(capacity, calls, j);
    MemoryIsExact(capacity, calls[..j]);
    var (past, r) := History(capacity, calls[..j]);
    RegistryIsThePast(past, r, calls[j].id);
    WithinCapacity(past, r);
  }

  lemma WithinCapacity(past: seq<Happened>, r: Registry)
    requires Exact(past, r)
    ensures |r.admitted| <= r.capacity
  {
  }

  /** A retired operation stays known while fewer than `capacity` retirements follow its last one. */
  lemma ForgottenAfterExactlyCapacity(capacity: nat, calls: seq<Call>, id: OperationId, last: nat)
    requires capacity >= 1
    requires var (past, _) := History(capacity, calls);
             && !Open(past, id)
             && last < |Retirements(past)| && Retirements(past)[last] == id && id !in Retirements(past)[last + 1..]
    ensures var (past, r) := History(capacity, calls);
            Knows(r, id) <==> |Retirements(past)| - (last + 1) < capacity
  {
    MemoryIsExact(capacity, calls);
    var (past, r) := History(capacity, calls);
    var ids := Retirements(past);
    var from := if |ids| <= capacity then 0 else |ids| - capacity;
    assert Newest(ids, capacity) == ids[from..];
    if last >= from {
      assert ids[from..][last - from] == id;
    } else {
      assert ids[from..] == ids[last + 1..][from - (last + 1)..];
    }
  }

  /** Prefixes of a history are histories. */
  lemma {:induction false} HistoryPrefix(capacity: nat, calls: seq<Call>, n: nat)
    requires n <= |calls|
    ensures |History(capacity, calls).0| == |calls|
    ensures History(capacity, calls[..n]).0 == History(capacity, calls).0[..n]
    decreases |calls|
  {
    if n < |calls| {
      var front := calls[..|calls| - 1];
      HistoryPrefix(capacity, front, n);
      assert front[..n] == calls[..n];
    } else {
      assert calls[..n] == calls;
      if calls != [] {
        HistoryPrefix(capacity, calls[..|calls| - 1], |calls| - 1);
      }
    }
  }

  lemma {:induction false} ClosedMeansRetired(past: seq<Happened>, i: nat, id: OperationId) returns (k: nat)
    requires i < |past| && past[i] == Executed(id) && !Open(past, id)
    ensures i < k < |past| && past[k] == Finished(id)
    ensures var n := |Retirements(past[..k])|;
            n < |Retirements(past)| && Retirements(past)[n] == id && id !in Retirements(past)[n + 1..]
    decreases |past|
  {
    var front := past[..|past| - 1];
    var h := past[|past| - 1];
    if h == Finished(id) {
      k := |past| - 1;
    } else {
      k := ClosedMeansRetired(front, i, id);
      assert front[..k] == past[..k];
      var n := |Retirements(front[..k])|;
      assert Retirements(past)[n + 1..] == Retirements(front)[n + 1..] + (if h.Finished? then [h.id] else []);
    }
  }

  /** An operation that is executed was not known the moment before. */
  lemma ExecutedWasUnknown(capacity: nat, calls: seq<Call>, j: nat, id: OperationId)
    requires j < |calls| && |History(capacity, calls).0| == |calls| && History(capacity, calls).0[j] == Executed(id)
    ensures !Knows(History(capacity, calls[..j]).1, id)
  {
    hide History;
    HistoryAt(capacity, calls, j);
  }

  /** An operation is executed again only after it was retired and `capacity` further retirements followed. */
  lemma ReexecutionNeedsForgetting(capacity: nat, calls: seq<Call>, i: nat, j: nat, id: OperationId) returns (k: nat)
    requires capacity >= 1 && i < j < |calls|
    requires |History(capacity, calls).0| == |calls|
    requires var past := History(capacity, calls).0; past[i] == Executed(id) && past[j] == Executed(id)
    ensures i < k < j
    ensures var past := History(capacity, calls).0;
            past[k] == Finished(id) && |Retirements(past[..j])| - (|Retirements(past[..k])| + 1) >= capacity
  {
    hide Open, Retirements, Newest, History;
    ExecutedWasUnknown(capacity, calls, j, id);
    HistoryPrefix(capacity, calls, j);
    MemoryIsExact(capacity, calls[..j]);
    var past := History(capacity, calls).0;
    var before := History(capacity, calls[..j]).0;
    assert !Open(before, id);
    k := ClosedMeansRetired(before, i, id);
    assert before[..k] == past[..k];
    ForgottenAfterExactlyCapacity(capacity, calls[..j], id, |Retirements(before[..k])|);
  }
}

/** Desktop's ledger of issued commands. */
module CommandLedgers {
  import opened Bytes
  import Operations

  type OperationId = Operations.OperationId
  datatype RecordOutcome = Recorded | AlreadyIssued
  datatype LedgerError = SessionOrder

  datatype Ledger = Ledger(recorded: map<OperationId, nat>, capacity: nat)

  function Record(l: Ledger, id: OperationId, kind: nat): (Result<RecordOutcome, LedgerError>, Ledger) {
    if id in l.recorded then (Ok(AlreadyIssued), l)
    else if |l.recorded| == l.capacity then (Err(SessionOrder), l)
    else (Ok(Recorded), l.(recorded := l.recorded[id := kind]))
  }

  class CommandLedger {
    var recorded: map<OperationId, nat>
    const capacity: nat

    ghost function State(): Ledger
      reads this
    {
      Ledger(recorded, capacity)
    }

    constructor (capacity: nat)
      requires capacity >= 1
      ensures State() == Ledger(map[], capacity)
    {
      recorded, this.capacity := map[], capacity;
    }

    method RecordCommand(id: OperationId, kind: nat) returns (r: Result<RecordOutcome, LedgerError>)
      modifies this
      ensures (r, State()) == Record(old(State()), id, kind)
    {
      if id in recorded {
        return Ok(AlreadyIssued);
      }
      if |recorded| == capacity {
        return Err(SessionOrder);
      }
      recorded := recorded[id := kind];
      return Ok(Recorded);
    }

    method Clear()
      modifies this
      ensures State() == Ledger(map[], capacity)
    {
      recorded := map[];
    }
  }

  /** A ledger without room for one command is refused. */
  method NewCommandLedger(capacity: nat) returns (r: Result<CommandLedger, LedgerError>)
    ensures if capacity == 0 then r == Err(SessionOrder) else r.Ok?
    ensures r.Ok? ==> fresh(r.value) && r.value.State() == Ledger(map[], capacity)
  {
    if capacity == 0 {
      return Err(SessionOrder);
    }
    var ledger := new CommandLedger(capacity);
    return Ok(ledger);
  }

  datatype Call = Issue(id: OperationId, kind: nat) | ClearAll

  function Next(l: Ledger, call: Call): Ledger {
    match call
    case ClearAll => l.(recorded := map[])
    case Issue(id, kind) => Record(l, id, kind).1
  }

  function LedgerAfter(l: Ledger, calls: seq<Call>): Ledger {
    if calls == [] then l else Next(LedgerAfter(l, calls[..|calls| - 1]), calls[|calls| - 1])
  }

  /** Whether the call newly records its operation. */
  predicate Records(l: Ledger, call: Call) {
    call.Issue? && Record(l, call.id, call.kind).0 == Ok(Recorded)
  }

  /** Which calls newly recorded their operation. */
  function Issued(l: Ledger, calls: seq<Call>): (verdicts: seq<bool>)
    ensures |verdicts| == |calls|
  {
    if calls == [] then []
    else
      var front := calls[..|calls| - 1];
      Issued(l, front) + [Records(LedgerAfter(l, front), calls[|calls| - 1])]
  }

  // ---- the reference: what the verdicts alone say is recorded ----

  predicate IssuedUncleared(calls: seq<Call>, verdicts: seq<bool>, i: nat, j: nat, id: OperationId)
    requires i < j <= |calls| == |verdicts|
  {
    verdicts[i] && calls[i].Issue? && calls[i].id == id && ClearAll !in calls[i..j]
  }

  /** Before call `j` the id was issued, or there from the start, and not cleared since. */
  ghost predicate Known(l: Ledger, calls: seq<Call>, verdicts: seq<bool>, j: nat, id: OperationId)
    requires j <= |calls| == |verdicts|
  {
    (id in l.recorded && ClearAll !in calls[..j]) || exists i | 0 <= i < j :: IssuedUncleared(calls, verdicts, i, j, id)
  }

  /** How many were issued since the last clear before call `j`. */
  function Load(l: Ledger, calls: seq<Call>, verdicts: seq<bool>, j: nat): nat
    requires j <= |calls| == |verdicts|
  {
    if j == 0 then |l.recorded|
    else if calls[j - 1].ClearAll? then 0
    else Load(l, calls, verdicts, j - 1) + if verdicts[j - 1] then 1 else 0
  }

  lemma {:induction false} VerdictAt(l: Ledger, calls: seq<Call>, j: nat)
    requires j < |calls|
    ensures Issued(l, calls)[j] == Records(LedgerAfter(l, calls[..j]), calls[j])
    decreases |calls|
  {
    if j < |calls| - 1 {
      var front := calls[..|calls| - 1];
      VerdictAt(l, front, j);
      assert front[..j] == calls[..j];
    }
  }

  lemma ClearGrows(calls: seq<Call>, i: nat, j: nat)
    requires i <= j < |calls|
    ensures ClearAll in calls[i..j + 1] <==> ClearAll in calls[i..j] || calls[j] == ClearAll
  {
    assert calls[i..j + 1] == calls[i..j] + [calls[j]];
  }

  lemma KnownStep(l: Ledger, calls: seq<Call>, verdicts: seq<bool>, j: nat, id: OperationId)
    requires j < |calls| == |verdicts|
    ensures Known(l, calls, verdicts, j + 1, id) <==>
              calls[j] != ClearAll && (Known(l, calls, verdicts, j, id) || (verdicts[j] && calls[j].id == id))
  {
    assert calls[..j] == calls[0..j] && calls[..j + 1] == calls[0..j + 1];
    ClearGrows(calls, 0, j);
    ClearGrows(calls, j, j);
    assert IssuedUncleared(calls, verdicts, j, j + 1, id) <==> calls[j] != ClearAll && verdicts[j] && calls[j].id == id;
    if i :| 0 <= i < j && IssuedUncleared(calls, verdicts, i, j, id) {
      ClearGrows(calls, i, j);
      assert calls[j] != ClearAll ==> IssuedUncleared(calls, verdicts, i, j + 1, id);
    }
    var next := j + 1;
    if i :| 0 <= i < next && IssuedUncleared(calls, verdicts, i, next, id) {
      ClearGrows(calls, i, j);
      assert i < j ==> IssuedUncleared(calls, verdicts, i, j, id);
    }
  }

  lemma NextRecorded(l: Ledger, call: Call, id: OperationId)
    ensures Next(l, call).capacity == l.capacity
    ensures |Next(l, call).recorded| == if call.ClearAll? then 0 else |l.recorded| + if Records(l, call) then 1 else 0
    ensures id in Next(l, call).recorded <==>
              call != ClearAll && (id in l.recorded || (Records(l, call) && call.id == id))
  {
  }

  /** The ledger `s` before call `j` is what the verdicts say. */
  ghost predicate Agrees(s: Ledger, l: Ledger, calls: seq<Call>, verdicts: seq<bool>, j: nat)
    requires j <= |calls| == |verdicts|
  {
    && s.capacity == l.capacity
    && |s.recorded| == Load(l, calls, verdicts, j)
    && forall id :: id in s.recorded <==> Known(l, calls, verdicts, j, id)
  }

  lemma AgreesOn(s: Ledger, l: Ledger, calls: seq<Call>, verdicts: seq<bool>, j: nat)
    requires j < |calls| == |verdicts| && verdicts[j] == Records(s, calls[j]) && Agrees(s, l, calls, verdicts, j)
    ensures Agrees(Next(s, calls[j]), l, calls, verdicts, j + 1)
  {
    hide Known, Next, Records;
    NextRecorded(s, calls[j], 0);
    forall id ensures id in Next(s, calls[j]).recorded <==> Known(l, calls, verdicts, j + 1, id) {
      NextRecorded(s, calls[j], id);
      KnownStep(l, calls, verdicts, j, id);
    }
  }

  lemma {:induction false} LedgerIsKnown(l: Ledger, calls: seq<Call>, j: nat)
    requires j <= |calls|
    ensures Agrees(LedgerAfter(l, calls[..j]), l, calls, Issued(l, calls), j)
    decreases j
  {
    if j > 0 {
      hide Agrees, Issued, Records;
      LedgerIsKnown(l, calls, j - 1);
      VerdictAt(l, calls, j - 1);
      AgreesOn(LedgerAfter(l, calls[..j - 1]), l, calls, Issued(l, calls), j - 1);
      assert calls[..j][..j - 1] == calls[..j - 1];
    }
  }

  /** A command is issued exactly when it was not issued since the last clear and the ledger is not full. */
  lemma IssuedIffNew(l: Ledger, calls: seq<Call>, j: nat)
    requires j < |calls| && calls[j].Issue?
    ensures var verdicts := Issued(l, calls);
            verdicts[j] <==> !Known(l, calls, verdicts, j, calls[j].id) && Load(l, calls, verdicts, j) != l.capacity
  {
    hide Known, Load, Issued, LedgerAfter;
    VerdictAt(l, calls, j);
    LedgerIsKnown(l, calls, j);
  }

  /** Between two clears each operation id is issued at most once. */
  lemma IssuedAtMostOnce(l: Ledger, calls: seq<Call>, i: nat, j: nat)
    requires i < j < |calls| && ClearAll !in calls[i..j]
    requires calls[i].Issue? && calls[j].Issue? && calls[i].id == calls[j].id
    ensures !(Issued(l, calls)[i] && Issued(l, calls)[j])
  {
    hide Issued, Load;
    IssuedIffNew(l, calls, j);
    if Issued(l, calls)[i] {
      assert IssuedUncleared(calls, Issued(l, calls), i, j, calls[j].id);
    }
  }
}
