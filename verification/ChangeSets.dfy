/** Change sets: a list of additions and deletions of record sets, applied call by call.
    Applying one can stop after any call; the theorems below hold at every such point. */
module ChangeSets {
  import opened Strings
  import opened DynRecords
  import opened DynStore

  datatype Change = Addition(rrs: RecordSet) | Deletion(rrs: RecordSet) | Upsertion(rrs: RecordSet)

  /** One write to the store. */
  datatype Op = Put(r: Record) | Del(r: Record)

  function Puts(list: seq<Record>): (ops: seq<Op>)
    ensures |ops| == |list|
  {
    seq(|list|, i requires 0 <= i < |list| => Put(list[i]))
  }

  function Dels(list: seq<Record>): (ops: seq<Op>)
    ensures |ops| == |list|
  {
    seq(|list|, i requires 0 <= i < |list| => Del(list[i]))
  }

  /** Create the records, or delete them. */
  function RecordOps(create: bool, records: seq<Record>): (ops: seq<Op>)
    ensures |ops| == |records|
  {
    if create then Puts(records) else Dels(records)
  }

  function OpsOf(zone: string, c: Change): seq<Op> {
    match c
    case Addition(rrs) => Puts(RecordsOf(zone, rrs))
    case Deletion(rrs) => Dels(RecordsOf(zone, rrs))
    case Upsertion(_) => []
  }

  function Parts(zone: string, changes: seq<Change>): (parts: seq<seq<Op>>)
    ensures |parts| == |changes|
  {
    seq(|changes|, i requires 0 <= i < |changes| => OpsOf(zone, changes[i]))
  }

  /** The writes of a whole change set, in order. */
  function Ops(zone: string, changes: seq<Change>): seq<Op> {
    Flatten(Parts(zone, changes))
  }

  predicate Enabled(m: Rrsets, op: Op) {
    match op
    case Put(r) => HashKey(r) !in m
    case Del(r) => HashKey(r) in m
  }

  function Effect(m: Rrsets, op: Op): Rrsets {
    match op
    case Put(r) => m[HashKey(r) := r]
    case Del(r) => m - {HashKey(r)}
  }

  function Run(m: Rrsets, ops: seq<Op>): Rrsets {
    if ops == [] then m else Effect(Run(m, ops[..|ops| - 1]), ops[|ops| - 1])
  }

  /** Every write of `ops` finds the store ready for it. */
  predicate AllEnabled(m: Rrsets, ops: seq<Op>) {
    forall j :: 0 <= j < |ops| ==> Enabled(Run(m, ops[..j]), ops[j])
  }

  lemma FlattenPrefix<T>(parts: seq<seq<T>>, i: nat)
    requires i < |parts|
    ensures Flatten(parts[..i + 1]) == Flatten(parts[..i]) + parts[i]
    ensures Flatten(parts[..i]) <= Flatten(parts[..i + 1]) <= Flatten(parts)
    ensures Flatten(parts)[..|Flatten(parts[..i])|] + parts[i] <= Flatten(parts)
  {
    assert parts[..i + 1][..i] == parts[..i];
    FlattenAppend(parts[..i + 1], parts[i + 1..]);
    assert parts[..i + 1] + parts[i + 1..] == parts;
    assert Flatten(parts)[..|Flatten(parts[..i])|] == Flatten(parts[..i]);
  }

  lemma NextPart<T>(all: seq<T>, parts: seq<seq<T>>, i: nat)
    requires i < |parts| && Flatten(parts) <= all
    ensures var n := |Flatten(parts[..i])|;
            Ahead(all, n, parts[i]) && n + |parts[i]| == |Flatten(parts[..i + 1])|
  {
    FlattenPrefix(parts, i);
    var n := |Flatten(parts[..i])|;
    forall k | 0 <= k < |parts[i]|
      ensures all[n + k] == parts[i][k]
    {
      assert all[n + k] == Flatten(parts[..i + 1])[n + k];
    }
  }

  /** From position n on, `all` continues with `mine`. */
  predicate Ahead<T(==)>(all: seq<T>, n: nat, mine: seq<T>) {
    n + |mine| <= |all| && forall k :: 0 <= k < |mine| ==> all[n + k] == mine[k]
  }

  lemma RunSnoc(m: Rrsets, ops: seq<Op>, i: nat)
    requires i < |ops|
    ensures Run(m, ops[..i + 1]) == Effect(Run(m, ops[..i]), ops[i])
  {
    assert ops[..i + 1][..i] == ops[..i];
  }

  /** The writes performed: `done` of them, each enabled when it was made. */
  ghost predicate Progress(before: Rrsets, after: Rrsets, ops: seq<Op>, done: nat) {
    && done <= |ops|
    && after == Run(before, ops[..done])
    && AllEnabled(before, ops[..done])
  }

  lemma ProgressSnoc(before: Rrsets, ops: seq<Op>, done: nat)
    requires done < |ops| && Progress(before, Run(before, ops[..done]), ops, done)
    requires Enabled(Run(before, ops[..done]), ops[done])
    ensures Progress(before, Effect(Run(before, ops[..done]), ops[done]), ops, done + 1)
  {
    RunSnoc(before, ops, done);
    var longer := ops[..done + 1];
    forall j | 0 <= j < |longer|
      ensures Enabled(Run(before, longer[..j]), longer[j])
    {
      assert longer[..j] == ops[..j] && longer[j] == ops[j];
      assert j < done ==> ops[..done][..j] == ops[..j];
    }
  }

  /** The records of a change set that are created or deleted, in order: upserts are skipped. */
  function CallsOf(zone: string, c: Change): seq<ApiCall> {
    match c
    case Addition(rrs) => RecordCalls(true, RecordsOf(zone, rrs))
    case Deletion(rrs) => RecordCalls(false, RecordsOf(zone, rrs))
    case Upsertion(_) => []
  }

  /** The calls for one record: create it, or find its id and delete it. */
  function OneRecord(create: bool, r: Record): seq<ApiCall> {
    if create then [Create(r)] else [FindId(r), Delete(r)]
  }

  function RecordCalls(create: bool, records: seq<Record>): seq<ApiCall> {
    if records == [] then []
    else RecordCalls(create, records[..|records| - 1]) + OneRecord(create, records[|records| - 1])
  }

  function CallParts(zone: string, changes: seq<Change>): (parts: seq<seq<ApiCall>>)
    ensures |parts| == |changes|
  {
    seq(|changes|, i requires 0 <= i < |changes| => CallsOf(zone, changes[i]))
  }

  /** The calls that apply a change set: those of the changes, and the publication of the zone. */
  function Calls(zone: string, changes: seq<Change>): seq<ApiCall> {
    if changes == [] then [] else Flatten(CallParts(zone, changes)) + [Publish(zone)]
  }

  /** What applying a change set starts from, the writes it is to make, and the calls. */
  datatype Plan = Plan(before: Rrsets, ops: seq<Op>, log: seq<ApiCall>, faults: seq<bool>, calls: seq<ApiCall>)

  /** `made` of the calls have been made. */
  ghost predicate Made(plan: Plan, log: seq<ApiCall>, faults: seq<bool>, made: nat) {
    made <= |plan.calls| && log == plan.log + plan.calls[..made] && faults == After(plan.faults, made)
  }

  /** The calls and writes so far all succeeded. */
  ghost predicate Underway(plan: Plan, m: Rrsets, log: seq<ApiCall>, faults: seq<bool>, done: nat, made: nat) {
    Progress(plan.before, m, plan.ops, done) && Made(plan, log, faults, made) && Quiet(plan.faults, made)
  }

  /** A call failed: it was scripted to, or a write was not possible. */
  ghost predicate Halted(plan: Plan, m: Rrsets, log: seq<ApiCall>, faults: seq<bool>, done: nat, made: nat) {
    && Progress(plan.before, m, plan.ops, done) && Made(plan, log, faults, made)
    && (!Quiet(plan.faults, |plan.calls|) || !AllEnabled(plan.before, plan.ops))
  }

  /** The next call of the plan is made. */
  lemma MadeSnoc(plan: Plan, log: seq<ApiCall>, faults: seq<bool>, made: nat)
    requires made < |plan.calls| && Made(plan, log, faults, made)
    ensures Made(plan, log + [plan.calls[made]], Rest(faults), made + 1)
    ensures Quiet(plan.faults, made) ==> (Quiet(plan.faults, made + 1) <==> !Faulty(faults))
    ensures Faulty(faults) ==> !Quiet(plan.faults, |plan.calls|)
  {
    OneMoreCall(plan.faults, made);
    assert plan.calls[..made + 1] == plan.calls[..made] + [plan.calls[made]];
    Associates(plan.log, plan.calls[..made], [plan.calls[made]]);
    if Faulty(faults) {
      assert plan.faults[made] == faults[0];
    }
  }

  lemma NextRecord(create: bool, records: seq<Record>, i: nat)
    requires i < |records|
    ensures RecordCalls(create, records[..i + 1]) == RecordCalls(create, records[..i]) + OneRecord(create, records[i])
  {
    assert records[..i + 1][..i] == records[..i];
  }

  lemma {:induction false} RecordCallsPrefix(create: bool, records: seq<Record>, i: nat)
    requires i <= |records|
    ensures RecordCalls(create, records[..i]) <= RecordCalls(create, records)
    decreases |records| - i
  {
    if i < |records| {
      NextRecord(create, records, i);
      RecordCallsPrefix(create, records, i + 1);
    } else {
      assert records[..i] == records;
    }
  }

  class ResourceRecordChangeset {
    const zone: string
    const api: DynDnsApi
    var changes: seq<Change>

    constructor (zone: string, api: DynDnsApi)
      ensures this.zone == zone && this.api == api && changes == []
    {
      this.zone, this.api, changes := zone, api, [];
    }

    method Add(rrs: RecordSet)
      modifies this
      ensures changes == old(changes) + [Addition(rrs)]
    {
      changes := changes + [Addition(rrs)];
    }

    method Remove(rrs: RecordSet)
      modifies this
      ensures changes == old(changes) + [Deletion(rrs)]
    {
      changes := changes + [Deletion(rrs)];
    }

    method Upsert(rrs: RecordSet)
      modifies this
      ensures changes == old(changes) + [Upsertion(rrs)]
    {
      changes := changes + [Upsertion(rrs)];
    }

    /** Writes the change set and publishes the zone, stopping at the first call that fails. What it
        leaves behind is a prefix of the calls and of the writes; it succeeds exactly when no call is
        made to fail and every write is possible. */
    method Apply() returns (ok: bool, ghost done: nat, ghost made: nat)
      modifies api`rrsets, api`faults, api`log
      ensures Progress(old(api.rrsets), api.rrsets, Ops(zone, changes), done)
      ensures made <= |Calls(zone, changes)| && api.log == old(api.log) + Calls(zone, changes)[..made]
      ensures api.faults == After(old(api.faults), made)
      ensures ok ==> done == |Ops(zone, changes)| && made == |Calls(zone, changes)|
      ensures ok <==> Quiet(old(api.faults), |Calls(zone, changes)|) && AllEnabled(old(api.rrsets), Ops(zone, changes))
    {
      done, made := 0, 0;
      if changes == [] {
        return true, done, made;
      }
      ghost var plan := Plan(api.rrsets, Ops(zone, changes), api.log, api.faults, Calls(zone, changes));
      ok, done, made := ApplyAll(plan, Parts(zone, changes), CallParts(zone, changes));
      if ok {
        assert Ops(zone, changes)[..done] == Ops(zone, changes);
        MadeSnoc(plan, api.log, api.faults, made);
        ok := api.PublishZone(zone);
        made := made + 1;
      }
    }

    /** The loop over the changes, whose writes and calls are the given parts. */
    method ApplyAll(ghost plan: Plan, ghost parts: seq<seq<Op>>, ghost calls: seq<seq<ApiCall>>)
      returns (ok: bool, ghost done: nat, ghost made: nat)
      requires parts == Parts(zone, changes) && calls == CallParts(zone, changes)
      requires plan.ops == Flatten(parts) && Flatten(calls) <= plan.calls
      requires Underway(plan, api.rrsets, api.log, api.faults, 0, 0)
      modifies api`rrsets, api`faults, api`log
      ensures ok ==> Underway(plan, api.rrsets, api.log, api.faults, done, made)
      ensures ok ==> done == |plan.ops| && made == |Flatten(calls)|
      ensures !ok ==> Halted(plan, api.rrsets, api.log, api.faults, done, made)
    {
      done, made, ok := 0, 0, true;
      for i := 0 to |changes|
        invariant ok && done == |Flatten(parts[..i])| && made == |Flatten(calls[..i])|
        invariant Underway(plan, api.rrsets, api.log, api.faults, done, made)
      {
        NextPart(plan.ops, parts, i);
        NextPart(plan.calls, calls, i);
        ok, done, made := ApplyChange(changes[i], plan, parts[i], calls[i], done, made);
        if !ok {
          return;
        }
      }
      assert parts[..|changes|] == parts;
      assert calls[..|changes|] == calls;
    }

    /** One change: the records of its record set, none for an upsert. */
    method ApplyChange(change: Change, ghost plan: Plan, ghost mine: seq<Op>, ghost calls: seq<ApiCall>,
                       ghost start: nat, ghost from: nat)
      returns (ok: bool, ghost done: nat, ghost made: nat)
      requires mine == OpsOf(zone, change) && calls == CallsOf(zone, change)
      requires Underway(plan, api.rrsets, api.log, api.faults, start, from)
      requires Ahead(plan.ops, start, mine) && Ahead(plan.calls, from, calls)
      modifies api`rrsets, api`faults, api`log
      ensures ok ==> Underway(plan, api.rrsets, api.log, api.faults, done, made)
      ensures ok ==> done == start + |mine| && made == from + |calls|
      ensures !ok ==> Halted(plan, api.rrsets, api.log, api.faults, done, made)
    {
      if change.Upsertion? {
        return true, start, from;
      }
      var records := GetRecordsFromDnsRrs(zone, change.rrs);
      ok, done, made := Write(change.Addition?, records, plan, start, from);
    }

    /** The inner loop over the records of one change: create them, or delete them. `start` earlier
        writes and `from` earlier calls of the plan have been made. */
    method Write(create: bool, records: seq<Record>, ghost plan: Plan, ghost start: nat, ghost from: nat)
      returns (ok: bool, ghost done: nat, ghost made: nat)
      requires Underway(plan, api.rrsets, api.log, api.faults, start, from)
      requires Ahead(plan.ops, start, RecordOps(create, records))
      requires Ahead(plan.calls, from, RecordCalls(create, records))
      modifies api`rrsets, api`faults, api`log
      ensures ok ==> Underway(plan, api.rrsets, api.log, api.faults, done, made)
      ensures ok ==> done == start + |records| && made == from + |RecordCalls(create, records)|
      ensures !ok ==> Halted(plan, api.rrsets, api.log, api.faults, done, made)
    {
      done, made, ok := start, from, true;
      for i := 0 to |records|
        invariant ok && done == start + i && made == from + |RecordCalls(create, records[..i])|
        invariant Underway(plan, api.rrsets, api.log, api.faults, done, made)
      {
        NextRecordIs(plan, create, records, start, from, i, done, made);
        ok, made := WriteOne(create, records[i], plan, done, made);
        if !ok {
          return;
        }
        done := done + 1;
      }
      assert records[..|records|] == records;
    }

    /** One record: create it, or look up its id and delete it. */
    method WriteOne(create: bool, record: Record, ghost plan: Plan, ghost done: nat, ghost from: nat)
      returns (ok: bool, ghost made: nat)
      requires Underway(plan, api.rrsets, api.log, api.faults, done, from)
      requires NextIs(plan, create, record, done, from)
      modifies api`rrsets, api`faults, api`log
      ensures ok ==> Underway(plan, api.rrsets, api.log, api.faults, done + 1, made)
      ensures ok ==> made == from + |OneRecord(create, record)|
      ensures !ok ==> Halted(plan, api.rrsets, api.log, api.faults, done, made)
    {
      assert plan.calls[from + 0] == OneRecord(create, record)[0];
      MadeSnoc(plan, api.log, api.faults, from);
      made := from + 1;
      if create {
        ok := api.CreateRecord(record);
      } else {
        ok := api.GetRecordID(record);
        if ok {
          assert plan.calls[from + 1] == OneRecord(create, record)[1];
          MadeSnoc(plan, api.log, api.faults, made);
          ok := api.DeleteRecord(record);
          made := made + 1;
        }
      }
      if ok {
        ProgressSnoc(plan.before, plan.ops, done);
      }
    }
  }

  /** The next write and the next calls of the plan are those for the record. */
  ghost predicate NextIs(plan: Plan, create: bool, r: Record, done: nat, made: nat) {
    && done < |plan.ops| && plan.ops[done] == (if create then Put(r) else Del(r))
    && Ahead(plan.calls, made, OneRecord(create, r))
  }

  lemma NextRecordIs(plan: Plan, create: bool, records: seq<Record>, start: nat, from: nat, i: nat, done: nat,
                     made: nat)
    requires i < |records| && done == start + i && made == from + |RecordCalls(create, records[..i])|
    requires Ahead(plan.ops, start, RecordOps(create, records)) && Ahead(plan.calls, from, RecordCalls(create, records))
    ensures NextIs(plan, create, records[i], done, made)
    ensures made + |OneRecord(create, records[i])| == from + |RecordCalls(create, records[..i + 1])|
  {
    NextWrite(plan.ops, start, create, records, i, done);
    NextCalls(plan.calls, from, create, records, i, made);
  }

  lemma NextWrite(ops: seq<Op>, start: nat, create: bool, records: seq<Record>, i: nat, done: nat)
    requires i < |records| && Ahead(ops, start, RecordOps(create, records)) && done == start + i
    ensures done < |ops| && ops[done] == if create then Put(records[i]) else Del(records[i])
  {
    var mine := RecordOps(create, records);
    assert ops[start + i] == mine[i];
  }

  lemma NextCalls(calls: seq<ApiCall>, from: nat, create: bool, records: seq<Record>, i: nat, made: nat)
    requires i < |records| && Ahead(calls, from, RecordCalls(create, records))
    requires made == from + |RecordCalls(create, records[..i])|
    ensures Ahead(calls, made, OneRecord(create, records[i]))
    ensures made + |OneRecord(create, records[i])| == from + |RecordCalls(create, records[..i + 1])|
  {
    NextRecord(create, records, i);
    RecordCallsPrefix(create, records, i + 1);
    var all, n := RecordCalls(create, records), |RecordCalls(create, records[..i])|;
    forall k | 0 <= k < |OneRecord(create, records[i])|
      ensures calls[from + n + k] == OneRecord(create, records[i])[k]
    {
      assert calls[from + (n + k)] == all[n + k] == RecordCalls(create, records[..i + 1])[n + k];
    }
  }

  // ---------------------------------------------------------------- what the calls of a change set are

  /** Every deletion comes right after the search for its record's id, and nothing is published. */
  predicate Unpublished(calls: seq<ApiCall>) {
    forall k :: 0 <= k < |calls| ==> KnowsItsId(calls, k)
  }

  predicate KnowsItsId(calls: seq<ApiCall>, k: int)
    requires 0 <= k < |calls|
  {
    !calls[k].Publish? && (calls[k].Delete? ==> k > 0 && calls[k - 1] == FindId(calls[k].r))
  }

  lemma UnpublishedAppend(a: seq<ApiCall>, b: seq<ApiCall>)
    requires Unpublished(a) && Unpublished(b)
    ensures Unpublished(a + b)
  {
    var whole := a + b;
    forall k | 0 <= k < |whole|
      ensures KnowsItsId(whole, k)
    {
      if k < |a| {
        assert KnowsItsId(a, k);
      } else {
        assert KnowsItsId(b, k - |a|);
      }
    }
  }

  function WriteOf(call: ApiCall): seq<Op> {
    match call case Create(r) => [Put(r)] case Delete(r) => [Del(r)] case _ => []
  }

  /** The writes among the calls. */
  function Writes(calls: seq<ApiCall>): seq<Op> {
    if calls == [] then [] else Writes(calls[..|calls| - 1]) + WriteOf(calls[|calls| - 1])
  }

  lemma {:induction false} WritesAppend(a: seq<ApiCall>, b: seq<ApiCall>)
    ensures Writes(a + b) == Writes(a) + Writes(b)
  {
    if b == [] {
      assert a + b == a;
    } else {
      var n := |b| - 1;
      WritesAppend(a, b[..n]);
      assert (a + b)[..|a + b| - 1] == a + b[..n];
      Associates(Writes(a), Writes(b[..n]), WriteOf(b[n]));
    }
  }

  lemma OneRecordMeans(create: bool, r: Record)
    ensures Unpublished(OneRecord(create, r)) && Writes(OneRecord(create, r)) == [if create then Put(r) else Del(r)]
  {
    assert [Create(r)][..0] == [] && [FindId(r)][..0] == [];
    assert [FindId(r), Delete(r)][..1] == [FindId(r)];
    assert Writes([FindId(r)]) == [];
  }

  lemma {:induction false} RecordCallsMean(create: bool, records: seq<Record>)
    ensures Unpublished(RecordCalls(create, records))
    ensures Writes(RecordCalls(create, records)) == RecordOps(create, records)
  {
    if records != [] {
      var n := |records| - 1;
      RecordCallsMean(create, records[..n]);
      OneRecordMeans(create, records[n]);
      UnpublishedAppend(RecordCalls(create, records[..n]), OneRecord(create, records[n]));
      WritesAppend(RecordCalls(create, records[..n]), OneRecord(create, records[n]));
      RecordOpsSnoc(create, records);
    }
  }

  lemma RecordOpsSnoc(create: bool, records: seq<Record>)
    requires records != []
    ensures var n := |records| - 1;
            RecordOps(create, records)
            == RecordOps(create, records[..n]) + [if create then Put(records[n]) else Del(records[n])]
  {
  }

  lemma ChangeMeans(zone: string, c: Change)
    ensures Unpublished(CallsOf(zone, c)) && Writes(CallsOf(zone, c)) == OpsOf(zone, c)
  {
    match c
    case Addition(rrs) => RecordCallsMean(true, RecordsOf(zone, rrs));
    case Deletion(rrs) => RecordCallsMean(false, RecordsOf(zone, rrs));
    case Upsertion(_) =>
  }

  lemma {:induction false} PartsMean(zone: string, changes: seq<Change>)
    ensures Unpublished(Flatten(CallParts(zone, changes)))
    ensures Writes(Flatten(CallParts(zone, changes))) == Ops(zone, changes)
  {
    if changes != [] {
      var n := |changes| - 1;
      var before, last := Flatten(CallParts(zone, changes[..n])), CallsOf(zone, changes[n]);
      PartsMean(zone, changes[..n]);
      ChangeMeans(zone, changes[n]);
      assert CallParts(zone, changes)[..n] == CallParts(zone, changes[..n]);
      assert Parts(zone, changes)[..n] == Parts(zone, changes[..n]);
      UnpublishedAppend(before, last);
      WritesAppend(before, last);
    }
  }

  /** The calls that apply a change set make its writes in order, find the id of each record right
      before deleting it, and publish the zone once, at the end. */
  lemma CallsMean(zone: string, changes: seq<Change>)
    requires changes != []
    ensures var calls := Calls(zone, changes);
            var n := |calls| - 1;
            && n >= 0 && calls[n] == Publish(zone) && Unpublished(calls[..n])
            && Writes(calls) == Ops(zone, changes)
  {
    var calls := Calls(zone, changes);
    PartsMean(zone, changes);
    assert calls[..|calls| - 1] == Flatten(CallParts(zone, changes));
  }

  /** Upserts are accepted and have no effect. */
  lemma UpsertsAreIgnored(zone: string, before: seq<Change>, rrs: RecordSet, after: seq<Change>)
    ensures Ops(zone, before + [Upsertion(rrs)] + after) == Ops(zone, before + after)
  {
    OpsAppend(zone, before + [Upsertion(rrs)], after);
    OpsAppend(zone, before, [Upsertion(rrs)]);
    OpsAppend(zone, before, after);
    NoOps(zone, rrs);
    assert Ops(zone, before) + [] == Ops(zone, before);
  }

  lemma NoOps(zone: string, rrs: RecordSet)
    ensures Ops(zone, [Upsertion(rrs)]) == []
  {
    var parts := Parts(zone, [Upsertion(rrs)]);
    assert parts[0] == OpsOf(zone, Upsertion(rrs)) == [];
    FlattenOne<Op>([]);
    assert parts == [[]];
  }

  lemma OpsAppend(zone: string, a: seq<Change>, b: seq<Change>)
    ensures Ops(zone, a + b) == Ops(zone, a) + Ops(zone, b)
  {
    var whole := Parts(zone, a) + Parts(zone, b);
    forall i | 0 <= i < |a + b|
      ensures Parts(zone, a + b)[i] == whole[i]
    {
      assert (a + b)[i] == if i < |a| then a[i] else b[i - |a|];
    }
    assert Parts(zone, a + b) == whole;
    FlattenAppend(Parts(zone, a), Parts(zone, b));
  }

  // ---------------------------------------------------------------- the same, on sets of records

  function SetEffect(s: set<Record>, op: Op): set<Record> {
    match op
    case Put(r) => s + {r}
    case Del(r) => s - {r}
  }

  function SetRun(s: set<Record>, ops: seq<Op>): set<Record> {
    if ops == [] then s else SetEffect(SetRun(s, ops[..|ops| - 1]), ops[|ops| - 1])
  }

  /** On valid stores, running writes is running them on the set of records. */
  lemma {:induction false} RunIsSetRun(zone: string, m: Rrsets, ops: seq<Op>)
    requires ValidRrsets(zone, m) && forall op :: op in ops ==> Storable(zone, op.r)
    ensures ValidRrsets(zone, Run(m, ops))
    ensures Run(m, ops).Values == SetRun(m.Values, ops)
  {
    if ops != [] {
      var n := |ops| - 1;
      RunIsSetRun(zone, m, ops[..n]);
      Filed(zone, Run(m, ops[..n]), ops[n].r);
      Dropped(zone, Run(m, ops[..n]), ops[n].r);
    }
  }

  /** What a replacement leaves after its first k writes: the old records minus some, or none of
      the old ones and some of the new. */
  function ReplacedUpTo(s: set<Record>, dels: seq<Record>, puts: seq<Record>, k: nat): set<Record>
    requires k <= |dels| + |puts|
  {
    if k <= |dels| then s - Elems(dels[..k]) else s - Elems(dels) + Elems(puts[..k - |dels|])
  }

  lemma {:induction false} ReplacePrefix(s: set<Record>, dels: seq<Record>, puts: seq<Record>, k: nat)
    requires k <= |dels| + |puts|
    ensures SetRun(s, (Dels(dels) + Puts(puts))[..k]) == ReplacedUpTo(s, dels, puts, k)
  {
    var ops := Dels(dels) + Puts(puts);
    if k > 0 {
      ReplacePrefix(s, dels, puts, k - 1);
      assert ops[..k][..k - 1] == ops[..k - 1];
      if k <= |dels| {
        assert Elems(dels[..k]) == Elems(dels[..k - 1]) + {dels[k - 1]} by {
          assert dels[..k] == dels[..k - 1] + [dels[k - 1]];
        }
      } else {
        var p := k - |dels|;
        assert puts[..p] == puts[..p - 1] + [puts[p - 1]];
        assert Elems(puts[..p]) == Elems(puts[..p - 1]) + {puts[p - 1]};
        assert k - 1 == |dels| ==> dels[..k - 1] == dels && puts[..p - 1] == [];
      }
    }
  }

  lemma StorableOps(zone: string, dels: seq<Record>, puts: seq<Record>)
    requires forall r :: r in dels || r in puts ==> Storable(zone, r)
    ensures forall op :: op in Dels(dels) + Puts(puts) ==> Storable(zone, op.r)
  {
    forall op | op in Dels(dels) + Puts(puts)
      ensures Storable(zone, op.r)
    {
      assert op.r in dels || op.r in puts;
    }
  }

  /** The next record to delete is still there; the next one to add is not. */
  lemma NextIsFresh(s: set<Record>, name: string, dels: seq<Record>, puts: seq<Record>, j: nat)
    requires Lists(dels, At(s, name)) && Lists(puts, Elems(puts)) && j < |dels| + |puts|
    requires forall r :: r in puts ==> r.name == name
    ensures j < |dels| ==> dels[j] in ReplacedUpTo(s, dels, puts, j)
    ensures j >= |dels| ==> puts[j - |dels|] !in ReplacedUpTo(s, dels, puts, j)
  {
    if j < |dels| {
      assert dels[j] in Elems(dels) && dels[j] !in dels[..j];
    } else {
      var next := puts[j - |dels|];
      assert next !in puts[..j - |dels|];
      assert next in s ==> next in At(s, name);
      assert dels[..|dels|] == dels;
    }
  }

  /** Removing all the records of a name and adding others there never meets a missing or a
      duplicate record. */
  lemma ReplaceEnabled(zone: string, m: Rrsets, name: string, dels: seq<Record>, puts: seq<Record>)
    requires ValidRrsets(zone, m) && Lists(dels, At(m.Values, name)) && Lists(puts, Elems(puts))
    requires forall r :: r in dels || r in puts ==> Storable(zone, r) && r.name == name
    ensures AllEnabled(m, Dels(dels) + Puts(puts))
  {
    var ops := Dels(dels) + Puts(puts);
    forall j | 0 <= j < |ops|
      ensures Enabled(Run(m, ops[..j]), ops[j])
    {
      StorableOps(zone, dels, puts);
      RunIsSetRun(zone, m, ops[..j]);
      ReplacePrefix(m.Values, dels, puts, j);
      KeyMeansRecord(zone, Run(m, ops[..j]), ops[j].r);
      NextIsFresh(m.Values, name, dels, puts, j);
    }
  }

  /** At every point of a replacement, also one cut short by an error, the records at the name are
      a subset of the old ones or a subset of the new ones, and other names are untouched. */
  lemma NeverAMixture(s: set<Record>, name: string, dels: seq<Record>, puts: seq<Record>, k: nat)
    requires Lists(dels, At(s, name)) && k <= |dels| + |puts|
    requires forall r :: r in puts ==> r.name == name
    ensures var now := SetRun(s, (Dels(dels) + Puts(puts))[..k]);
            && (At(now, name) <= At(s, name) || At(now, name) <= Elems(puts))
            && (forall r: Record :: r.name != name ==> (r in now <==> r in s))
  {
    ReplacePrefix(s, dels, puts, k);
    var now := SetRun(s, (Dels(dels) + Puts(puts))[..k]);
    forall r: Record | r.name != name
      ensures r in now <==> r in s
    {
      assert r !in Elems(dels);
    }
    if k > |dels| {
      forall r | r in At(now, name)
        ensures r in Elems(puts)
      {
        assert r in s ==> r in Elems(dels);
      }
    }
  }
}
