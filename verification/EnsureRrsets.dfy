/** EnsureDNSRrsets: bring the records of one DNS name to A records for the endpoints, or to a
    CNAME one level up, on top of the DynDNS provider. */
module EnsureRrsets {
  import opened Strings
  import opened DynRecords
  import opened DynStore
  import opened ChangeSets

  const MIN_DNS_TTL := 180

  // ---------------------------------------------------------------- endpoint resolution

  /** net.ParseIP (does it parse?) and net.LookupHost. */
  datatype Resolver = Resolver(isIP: string -> bool, lookup: string -> Option<seq<string>>)

  predicate Value(s: string) { s != "" && ',' !in s }

  /** Addresses are non-empty and comma-free, and a successful lookup has at least one. */
  ghost predicate Sane(net: Resolver) {
    && (forall e :: net.isIP(e) ==> Value(e))
    && (forall e :: net.lookup(e).Some? ==> |net.lookup(e).value| >= 1)
    && (forall e, a :: net.lookup(e).Some? && a in net.lookup(e).value ==> Value(a))
  }

  predicate Resolvable(net: Resolver, endpoints: seq<string>) {
    forall e :: e in endpoints ==> net.isIP(e) || net.lookup(e).Some?
  }

  function AddressesOf(net: Resolver, e: string): seq<string> {
    if net.isIP(e) then [e]
    else match net.lookup(e) case Some(list) => list case None => []
  }

  /** All addresses of a set of endpoints. */
  function ResolvedOf(net: Resolver, endpoints: set<string>): set<string> {
    set e, a | e in endpoints && a in AddressesOf(net, e) :: a
  }

  lemma ResolvedValues(net: Resolver, endpoints: seq<string>)
    requires Sane(net)
    ensures forall a :: a in ResolvedOf(net, Elems(endpoints)) ==> Value(a)
    ensures endpoints != [] && Resolvable(net, endpoints) ==> ResolvedOf(net, Elems(endpoints)) != {}
  {
    if endpoints != [] && Resolvable(net, endpoints) {
      var e := endpoints[0];
      assert e in endpoints && AddressesOf(net, e)[0] in AddressesOf(net, e);
      assert AddressesOf(net, e)[0] in ResolvedOf(net, Elems(endpoints));
    }
  }

  lemma ResolvedIP(net: Resolver, endpoints: seq<string>, e: string)
    requires e in endpoints && net.isIP(e)
    ensures e in ResolvedOf(net, Elems(endpoints))
  {
    assert e in AddressesOf(net, e);
  }

  lemma ResolvedSnoc(net: Resolver, endpoints: seq<string>, e: string)
    ensures ResolvedOf(net, Elems(endpoints + [e])) == ResolvedOf(net, Elems(endpoints)) + Elems(AddressesOf(net, e))
    ensures Resolvable(net, endpoints + [e]) <==> Resolvable(net, endpoints) && Resolvable(net, [e])
  {
    assert forall x :: x in endpoints + [e] <==> x in endpoints || x == e;
    forall a | a in AddressesOf(net, e)
      ensures a in ResolvedOf(net, Elems(endpoints + [e]))
    {
      assert e in endpoints + [e];
    }
  }

  /** An endpoint that is an address stands for itself, any other for all the addresses it resolves to. */
  predicate StandsFor(net: Resolver, e: string, a: string) {
    if net.isIP(e) then a == e else net.lookup(e).Some? && a in net.lookup(e).value
  }

  lemma ResolvedMeans(net: Resolver, endpoints: set<string>, a: string)
    ensures a in ResolvedOf(net, endpoints) <==> exists e :: e in endpoints && StandsFor(net, e, a)
  {
    assert forall e :: StandsFor(net, e, a) <==> a in AddressesOf(net, e);
  }

  method GetResolvedEndpoints(net: Resolver, endpoints: seq<string>) returns (list: seq<string>, ok: bool)
    ensures ok <==> forall e :: e in endpoints ==> net.isIP(e) || net.lookup(e).Some?
    ensures ok ==> Lists(list, ResolvedOf(net, Elems(endpoints)))
    ensures ok ==> forall a :: a in list <==> exists e :: e in endpoints && StandsFor(net, e, a)
  {
    var resolved: set<string> := {};
    for i := 0 to |endpoints|
      invariant resolved == ResolvedOf(net, Elems(endpoints[..i]))
      invariant Resolvable(net, endpoints[..i])
    {
      var endpoint := endpoints[i];
      assert endpoints[..i + 1] == endpoints[..i] + [endpoint];
      ResolvedSnoc(net, endpoints[..i], endpoint);
      if !net.isIP(endpoint) {
        var found := net.lookup(endpoint);
        if found.None? {
          list := ListOf(resolved);
          return list, false;
        }
        resolved := resolved + Elems(found.value);
      } else {
        resolved := resolved + {endpoint};
      }
    }
    assert endpoints[..|endpoints|] == endpoints;
    list := ListOf(resolved);
    ok := true;
    forall a
      ensures a in list <==> exists e :: e in endpoints && StandsFor(net, e, a)
    {
      assert a in list <==> a in Elems(list);
      ResolvedMeans(net, Elems(endpoints), a);
      assert forall e :: e in endpoints <==> e in Elems(endpoints);
    }
  }

  /** sets.String.List. The order is left open: everything below holds for any order. */
  method ListOf(s: set<string>) returns (list: seq<string>)
    ensures Lists(list, s)
  {
    list := [];
    var rest := s;
    while rest != {}
      invariant rest <= s && Lists(list, s - rest)
    {
      var x :| x in rest;
      ElemsSnoc(list, x);
      list, rest := list + [x], rest - {x};
    }
  }

  // ---------------------------------------------------------------- what is wanted at a name

  function Records(zone: string, dnsName: string, all: set<string>, rtype: string): set<Record> {
    set a | a in all :: NewRecord(zone, dnsName, [a], MIN_DNS_TTL, rtype)
  }

  /** The records wanted at a name: A records for the endpoints' addresses, else a CNAME one level
      up, else nothing. */
  function Target(zone: string, net: Resolver, dnsName: string, endpoints: seq<string>, uplevel: string): set<Record> {
    if endpoints != [] then
      Records(zone, dnsName, ResolvedOf(net, Elems(endpoints)), A)
    else if uplevel != "" then {NewRecord(zone, dnsName, [uplevel], MIN_DNS_TTL, CNAME)}
    else {}
  }

  /** The wanted records, field by field. */
  lemma TargetMeans(zone: string, net: Resolver, dnsName: string, endpoints: seq<string>, uplevel: string, r: Record)
    ensures r in Target(zone, net, dnsName, endpoints, uplevel) <==>
              && r.zone == zone && r.name == RelativeName(zone, dnsName) && r.fqdn == r.name + "." + zone
              && r.ttl == "180" && r.id == ""
              && if endpoints != [] then r.rtype == "A" && exists e :: e in endpoints && StandsFor(net, e, r.value)
                 else r.rtype == "CNAME" && uplevel != "" && r.value == uplevel
  {
    assert FormatInt(MIN_DNS_TTL) == "180";
    ResolvedMeans(net, Elems(endpoints), r.value);
    assert forall e :: e in endpoints <==> e in Elems(endpoints);
    assert forall a: string :: Join([a], ',') == a;
  }

  /** The wanted set is a single record and it is stored already. */
  ghost predicate AlreadyThere(here: set<Record>, target: set<Record>) {
    exists t :: t in here && target == {t}
  }

  /** The outcome of a successful call: nothing changes when the single wanted record is already
      there; otherwise the name's records are replaced by the wanted ones. */
  ghost function Reconciled(s: set<Record>, name: string, target: set<Record>): set<Record> {
    if AlreadyThere(At(s, name), target) then s else s - At(s, name) + target
  }

  /** A point during or after a call: other names as before, and at this name only old or only
      new records. */
  predicate Between(s: set<Record>, now: set<Record>, name: string, target: set<Record>) {
    && (forall r :: r in s + now && r.name != name ==> r in s && r in now)
    && (At(now, name) <= At(s, name) || At(now, name) <= target)
  }

  /** What the provider is given to work with: well-formed stored records, sane addresses, and
      names that survive being read back. */
  ghost predicate Workable(zone: string, m: Rrsets, net: Resolver, dnsName: string, uplevel: string) {
    && ValidRrsets(zone, m) && Sane(net)
    && Normal(zone, RelativeName(zone, dnsName)) && !KeyLike(RelativeName(zone, dnsName))
    && ',' !in uplevel
  }

  lemma NewIsStorable(zone: string, dnsName: string, v: string, rtype: string)
    requires Normal(zone, RelativeName(zone, dnsName)) && !KeyLike(RelativeName(zone, dnsName))
    requires Value(v) && (rtype == A || rtype == CNAME)
    ensures Storable(zone, NewRecord(zone, dnsName, [v], MIN_DNS_TTL, rtype))
  {
    CanonicalTtlOf(MIN_DNS_TTL);
  }

  function Singles(zone: string, dnsName: string, values: seq<string>, rtype: string): (list: seq<Record>)
    ensures |list| == |values|
  {
    seq(|values|, i requires 0 <= i < |values| => NewRecord(zone, dnsName, [values[i]], MIN_DNS_TTL, rtype))
  }

  /** A list of distinct wanted values makes a list of the distinct wanted records. */
  lemma SinglesListTarget(zone: string, dnsName: string, values: seq<string>, rtype: string, all: set<string>)
    requires Lists(values, all)
    ensures Lists(Singles(zone, dnsName, values, rtype),
                  Records(zone, dnsName, all, rtype))
  {
    var list := Singles(zone, dnsName, values, rtype);
    forall i, j | 0 <= i < j < |list|
      ensures list[i] != list[j]
    {
      assert list[i].value == values[i] && list[j].value == values[j];
    }
    forall a | a in all
      ensures NewRecord(zone, dnsName, [a], MIN_DNS_TTL, rtype) in list
    {
      assert a in Elems(values);
      var i :| 0 <= i < |values| && values[i] == a;
      assert list[i] == NewRecord(zone, dnsName, [a], MIN_DNS_TTL, rtype);
    }
    forall r | r in list
      ensures r in Records(zone, dnsName, all, rtype)
    {
      var i :| 0 <= i < |list| && list[i] == r;
      assert values[i] in Elems(values);
    }
  }

  // ---------------------------------------------------------------- finding an equivalent set

  /** ResourceRecordSetsEquivalent */
  predicate Equivalent(a: RecordSet, b: RecordSet) {
    a.Name() == b.Name() && a.Rrdatas() == b.Rrdatas() && a.Ttl() == b.Ttl() && a.Type() == b.Type()
  }

  method FindRrset(list: seq<RecordSet>, rrs: RecordSet) returns (found: Option<RecordSet>)
    ensures found.None? <==> forall i :: 0 <= i < |list| ==> !Equivalent(rrs, list[i])
    ensures found.Some? ==> found.value in list && Equivalent(rrs, found.value)
  {
    for i := 0 to |list|
      invariant forall j :: 0 <= j < i ==> !Equivalent(rrs, list[j])
    {
      if |list[i].Rrdatas()| != |rrs.Rrdatas()| {
        continue;
      }
      if Equivalent(rrs, list[i]) {
        return Some(list[i]);
      }
    }
    found := None;
  }

  function FetchedAll(records: seq<Record>): (list: seq<RecordSet>)
    ensures |list| == |records|
  {
    seq(|records|, i requires 0 <= i < |records| => Fetched(records[i]))
  }

  /** A stored record reads back as a one-value set, so it can match only a one-value wanted set,
      and then it is the wanted record itself. */
  lemma MatchIsTheRecord(zone: string, r: Record, dnsName: string, values: seq<string>, rtype: string)
    requires Storable(zone, r) && |values| >= 1 && forall v :: v in values ==> ',' !in v
    ensures Equivalent(New(zone, dnsName, values, MIN_DNS_TTL, rtype), Fetched(r))
       <==> |values| == 1 && r == NewRecord(zone, dnsName, values, MIN_DNS_TTL, rtype)
  {
    var wanted := New(zone, dnsName, values, MIN_DNS_TTL, rtype);
    SplitOfJoin(values, ',');
    SplitOfClean(r.value, ',');
    ParseOfFormat(MIN_DNS_TTL);
    assert wanted.Rrdatas() == values && Fetched(r).Rrdatas() == [r.value] && wanted.Ttl() == MIN_DNS_TTL;
  }

  // ---------------------------------------------------------------- replacing the sets of a name

  function Replacement(removed: seq<RecordSet>, added: seq<RecordSet>): seq<Change> {
    seq(|removed|, i requires 0 <= i < |removed| => Deletion(removed[i]))
    + seq(|added|, i requires 0 <= i < |added| => Addition(added[i]))
  }

  /** Remove every set in `removed`, add every set in `added`, apply. */
  method Replace(api: DynDnsApi, zone: string, removed: seq<RecordSet>, added: seq<RecordSet>)
    returns (ok: bool, ghost done: nat)
    modifies api`rrsets, api`faults, api`log
    ensures Progress(old(api.rrsets), api.rrsets, Ops(zone, Replacement(removed, added)), done)
    ensures ok ==> done == |Ops(zone, Replacement(removed, added))|
    ensures ok ==> api.log == old(api.log) + Calls(zone, Replacement(removed, added))
    ensures old(api.faults) == [] ==>
              api.faults == [] && (ok <==> AllEnabled(old(api.rrsets), Ops(zone, Replacement(removed, added))))
  {
    var changeSet := new ResourceRecordChangeset(zone, api);
    for i := 0 to |removed|
      invariant changeSet.changes == Replacement(removed, added)[..i]
      invariant fresh(changeSet) && unchanged(api)
    {
      changeSet.Remove(removed[i]);
    }
    for i := 0 to |added|
      invariant changeSet.changes == Replacement(removed, added)[..|removed| + i]
      invariant fresh(changeSet) && unchanged(api)
    {
      changeSet.Add(added[i]);
    }
    assert changeSet.changes == Replacement(removed, added);
    ghost var made;
    ok, done, made := changeSet.Apply();
    assert made == |Calls(zone, changeSet.changes)| ==>
        Calls(zone, changeSet.changes)[..made] == Calls(zone, changeSet.changes);
  }

  lemma {:induction false} FlattenSingles(ops: seq<Op>)
    ensures Flatten(seq(|ops|, i requires 0 <= i < |ops| => [ops[i]])) == ops
  {
    var parts := seq(|ops|, i requires 0 <= i < |ops| => [ops[i]]);
    if ops != [] {
      var n := |ops| - 1;
      FlattenSingles(ops[..n]);
      assert parts[..n] == seq(n, i requires 0 <= i < n => [ops[..n][i]]);
      assert ops == ops[..n] + [ops[n]];
    }
  }

  /** Fetched sets are rebuilt into the very records that are stored, so each removal is one
      deletion of a stored record. */
  lemma RemovalOps(zone: string, stored: seq<Record>)
    requires forall r :: r in stored ==> Storable(zone, r)
    ensures Ops(zone, Replacement(FetchedAll(stored), [])) == Dels(stored)
  {
    var removals := Replacement(FetchedAll(stored), []);
    var ops := Dels(stored);
    forall i | 0 <= i < |stored|
      ensures OpsOf(zone, removals[i]) == [ops[i]]
    {
      assert stored[i] in stored;
      RebuildExactly(zone, stored[i]);
      assert removals[i] == Deletion(Fetched(stored[i]));
    }
    assert Parts(zone, removals) == seq(|ops|, i requires 0 <= i < |ops| => [ops[i]]);
    FlattenSingles(ops);
  }

  lemma ReplacementOps(zone: string, stored: seq<Record>, added: seq<RecordSet>, puts: seq<Record>)
    requires forall r :: r in stored ==> Storable(zone, r)
    requires (added == [] && puts == []) || (|added| == 1 && puts == RecordsOf(zone, added[0]))
    ensures Ops(zone, Replacement(FetchedAll(stored), added)) == Dels(stored) + Puts(puts)
  {
    RemovalOps(zone, stored);
    var removals := Replacement(FetchedAll(stored), []);
    var whole := Replacement(FetchedAll(stored), added);
    if added == [] {
      assert whole == removals;
      assert Puts(puts) == [];
    } else {
      assert whole == removals + [Addition(added[0])];
      var last := OpsOf(zone, Addition(added[0]));
      assert Parts(zone, whole) == Parts(zone, removals) + [last];
      FlattenAppend(Parts(zone, removals), [last]);
      FlattenOne(last);
    }
  }

  /** What one replacement leaves at the name, whatever point it reached. */
  lemma ReplacementLeaves(zone: string, m: Rrsets, name: string, stored: seq<Record>, puts: seq<Record>, done: nat)
    requires ValidRrsets(zone, m) && Lists(stored, At(m.Values, name)) && Lists(puts, Elems(puts))
    requires forall r :: r in puts ==> Storable(zone, r) && r.name == name
    requires done <= |stored| + |puts|
    ensures var after := Run(m, (Dels(stored) + Puts(puts))[..done]);
            && ValidRrsets(zone, after)
            && Between(m.Values, after.Values, name, Elems(puts))
            && (done == |stored| + |puts| ==> after.Values == m.Values - At(m.Values, name) + Elems(puts))
    ensures AllEnabled(m, Dels(stored) + Puts(puts))
  {
    var ops := Dels(stored) + Puts(puts);
    StoredAreStorable(zone, m, name, stored);
    StorableOps(zone, stored, puts);
    RunIsSetRun(zone, m, ops[..done]);
    NeverAMixture(m.Values, name, stored, puts, done);
    ReplacePrefix(m.Values, stored, puts, done);
    ReplaceEnabled(zone, m, name, stored, puts);
    if done == |stored| + |puts| {
      assert stored[..|stored|] == stored && puts[..|puts|] == puts;
      assert puts == [] ==> Elems(puts) == {};
    }
  }

  lemma StoredAreStorable(zone: string, m: Rrsets, name: string, stored: seq<Record>)
    requires ValidRrsets(zone, m) && Elems(stored) == At(m.Values, name)
    ensures forall r :: r in stored ==> Storable(zone, r) && r.name == name
  {
    forall r | r in stored
      ensures Storable(zone, r) && r.name == name
    {
      assert r in Elems(stored);
      var k :| k in m && m[k] == r;
    }
  }

  // ---------------------------------------------------------------- the operation itself

  /** `puts` are the records of the wanted set `added`, which enumerate the target. */
  ghost predicate Wanted(zone: string, name: string, added: seq<RecordSet>, puts: seq<Record>, target: set<Record>) {
    && ((added == [] && puts == []) || (|added| == 1 && puts == RecordsOf(zone, added[0])))
    && Lists(puts, target)
    && forall r :: r in puts ==> Storable(zone, r) && r.name == name
  }

  lemma NewIsWanted(zone: string, dnsName: string, values: seq<string>, rtype: string, all: set<string>)
    requires Normal(zone, RelativeName(zone, dnsName)) && !KeyLike(RelativeName(zone, dnsName))
    requires Lists(values, all) && all != {} && (forall v :: v in all ==> Value(v))
    requires rtype == A || rtype == CNAME
    ensures Wanted(zone, RelativeName(zone, dnsName), [New(zone, dnsName, values, MIN_DNS_TTL, rtype)],
                   Singles(zone, dnsName, values, rtype),
                   Records(zone, dnsName, all, rtype))
  {
    assert forall v :: v in values ==> v in all by {
      assert forall v :: v in values ==> v in Elems(values);
    }
    ListsSome(values, all);
    BuildSplitsByValue(zone, dnsName, values, MIN_DNS_TTL, rtype);
    SinglesListTarget(zone, dnsName, values, rtype, all);
    forall r | r in Singles(zone, dnsName, values, rtype)
      ensures Storable(zone, r) && r.name == RelativeName(zone, dnsName)
    {
      var i :| 0 <= i < |values| && Singles(zone, dnsName, values, rtype)[i] == r;
      NewIsStorable(zone, dnsName, values[i], rtype);
    }
  }

  /** After a replacement that made `done` writes. */
  lemma ReplacementOutcome(zone: string, m: Rrsets, after: Rrsets, name: string, stored: seq<Record>,
                           added: seq<RecordSet>, puts: seq<Record>, target: set<Record>, done: nat)
    requires ValidRrsets(zone, m) && Lists(stored, At(m.Values, name))
    requires Wanted(zone, name, added, puts, target)
    requires Progress(m, after, Ops(zone, Replacement(FetchedAll(stored), added)), done)
    ensures AllEnabled(m, Ops(zone, Replacement(FetchedAll(stored), added)))
    ensures ValidRrsets(zone, after) && Between(m.Values, after.Values, name, target)
    ensures done == |Ops(zone, Replacement(FetchedAll(stored), added))|
        ==> after.Values == m.Values - At(m.Values, name) + target
  {
    StoredAreStorable(zone, m, name, stored);
    ReplacementOps(zone, stored, added, puts);
    ReplacementLeaves(zone, m, name, stored, puts, done);
  }

  lemma OnlyAdded(s: set<Record>, puts: seq<Record>, done: nat)
    requires done <= |puts|
    ensures SetRun(s, (Dels([]) + Puts(puts))[..done]) == s + Elems(puts[..done])
    ensures Elems(puts[..done]) <= Elems(puts)
    ensures done == |puts| ==> Elems(puts[..done]) == Elems(puts)
  {
    ReplacePrefix(s, [], puts, done);
    assert puts[..|puts|] == puts;
    assert Elems<Record>([]) == {};
    assert forall r :: r in puts[..done] ==> r in puts;
    assert done == 0 ==> puts[..done] == [];
  }

  lemma BlindEnabledAt(zone: string, m: Rrsets, puts: seq<Record>, j: nat)
    requires ValidRrsets(zone, m) && Lists(puts, Elems(puts)) && forall r :: r in puts ==> Storable(zone, r)
    requires j < |puts|
    ensures var ops := Dels([]) + Puts(puts);
            j < |ops| && (Enabled(Run(m, ops[..j]), ops[j]) <==> puts[j] !in m.Values)
  {
    var ops := Dels([]) + Puts(puts);
    assert ops[j] == Put(puts[j]) && puts[j] in puts && puts[j] !in puts[..j];
    StorableOps(zone, [], puts);
    RunIsSetRun(zone, m, ops[..j]);
    OnlyAdded(m.Values, puts, j);
    KeyMeansRecord(zone, Run(m, ops[..j]), puts[j]);
  }

  /** Adding without looking works exactly when none of the records is stored. */
  lemma BlindEnabled(zone: string, m: Rrsets, puts: seq<Record>)
    requires ValidRrsets(zone, m) && Lists(puts, Elems(puts)) && forall r :: r in puts ==> Storable(zone, r)
    ensures AllEnabled(m, Dels([]) + Puts(puts)) <==> Elems(puts) !! m.Values
  {
    var ops := Dels([]) + Puts(puts);
    assert |ops| == |puts|;
    forall j | 0 <= j < |puts|
      ensures Enabled(Run(m, ops[..j]), ops[j]) <==> puts[j] !in m.Values
    {
      BlindEnabledAt(zone, m, puts, j);
    }
    if Elems(puts) !! m.Values {
      assert forall j :: 0 <= j < |puts| ==> puts[j] in Elems(puts);
    } else {
      var r :| r in Elems(puts) && r in m.Values;
      var j :| 0 <= j < |puts| && puts[j] == r;
      assert !Enabled(Run(m, ops[..j]), ops[j]);
    }
  }

  /** After additions made in the belief that the name had no records. */
  lemma BlindOutcome(zone: string, m: Rrsets, after: Rrsets, name: string,
                     added: seq<RecordSet>, puts: seq<Record>, target: set<Record>, done: nat)
    requires ValidRrsets(zone, m) && Wanted(zone, name, added, puts, target)
    requires Progress(m, after, Ops(zone, Replacement([], added)), done)
    ensures ValidRrsets(zone, after) && m.Values <= after.Values <= m.Values + target
    ensures done == |Ops(zone, Replacement([], added))| ==> after.Values == m.Values + target
    ensures AllEnabled(m, Ops(zone, Replacement([], added))) <==> target !! m.Values
  {
    assert FetchedAll([]) == [];
    ReplacementOps(zone, [], added, puts);
    var ops := Dels([]) + Puts(puts);
    StorableOps(zone, [], puts);
    RunIsSetRun(zone, m, ops[..done]);
    OnlyAdded(m.Values, puts, done);
    BlindEnabled(zone, m, puts);
  }

  /** Some fetched set is equivalent to the wanted one. */
  ghost predicate Matches(zone: string, dnsName: string, stored: seq<Record>, values: seq<string>, rtype: string) {
    exists r :: r in stored && Equivalent(New(zone, dnsName, values, MIN_DNS_TTL, rtype), Fetched(r))
  }

  lemma MatchMeansThere(zone: string, dnsName: string, stored: seq<Record>, values: seq<string>,
                        rtype: string, all: set<string>)
    requires forall r :: r in stored ==> Storable(zone, r)
    requires Lists(values, all) && |values| >= 1 && forall v :: v in values ==> ',' !in v
    requires Matches(zone, dnsName, stored, values, rtype)
    ensures AlreadyThere(Elems(stored), Records(zone, dnsName, all, rtype))
  {
    var r :| r in stored && Equivalent(New(zone, dnsName, values, MIN_DNS_TTL, rtype), Fetched(r));
    MatchIsTheRecord(zone, r, dnsName, values, rtype);
    var v := values[0];
    assert values == [v];
    assert Elems([v]) == {v};
    assert NewRecord(zone, dnsName, [v], MIN_DNS_TTL, rtype) == r;
    assert Records(zone, dnsName, {v}, rtype) == {r};
    assert r in Elems(stored);
  }

  lemma ThereMeansMatch(zone: string, dnsName: string, stored: seq<Record>, values: seq<string>,
                        rtype: string, all: set<string>)
    requires forall r :: r in stored ==> Storable(zone, r)
    requires Lists(values, all) && |values| >= 1 && forall v :: v in values ==> ',' !in v
    requires AlreadyThere(Elems(stored), Records(zone, dnsName, all, rtype))
    ensures Matches(zone, dnsName, stored, values, rtype)
  {
    var t :| t in Elems(stored) && Records(zone, dnsName, all, rtype) == {t};
    SinglesListTarget(zone, dnsName, values, rtype, all);
    var list := Singles(zone, dnsName, values, rtype);
    ListsOne(list, t);
    assert values == [values[0]] && list[0] == t;
    MatchIsTheRecord(zone, t, dnsName, values, rtype);
  }

  /** Whether the search for an equivalent set succeeds is whether the single wanted record is
      stored already. */
  lemma FoundExactly(zone: string, m: Rrsets, dnsName: string, stored: seq<Record>, values: seq<string>,
                     rtype: string, all: set<string>)
    requires ValidRrsets(zone, m) && Lists(stored, At(m.Values, RelativeName(zone, dnsName)))
    requires Lists(values, all) && |values| >= 1 && forall v :: v in all ==> ',' !in v
    ensures Matches(zone, dnsName, stored, values, rtype)
       <==> AlreadyThere(At(m.Values, RelativeName(zone, dnsName)), Records(zone, dnsName, all, rtype))
  {
    StoredAreStorable(zone, m, RelativeName(zone, dnsName), stored);
    assert forall v :: v in values ==> v in Elems(values);
    if Matches(zone, dnsName, stored, values, rtype) {
      MatchMeansThere(zone, dnsName, stored, values, rtype, all);
    }
    if AlreadyThere(Elems(stored), Records(zone, dnsName, all, rtype)) {
      ThereMeansMatch(zone, dnsName, stored, values, rtype, all);
    }
  }

  /** What a call leaves behind. With a successful lookup: only old or only new records at the name,
      and exactly the reconciled records on success. A failed lookup reads as "no records", so wanted
      records are added to whatever is there, all of them on success. */
  ghost predicate Outcome(zone: string, m: Rrsets, seen: bool, after: Rrsets, name: string, target: set<Record>,
                          ok: bool) {
    && ValidRrsets(zone, after)
    && (seen ==> Between(m.Values, after.Values, name, target))
    && (seen && ok ==> after.Values == Reconciled(m.Values, name, target))
    && (!seen ==> m.Values <= after.Values <= m.Values + target)
    && (!seen && ok ==> after.Values == m.Values + target)
  }

  /** The facts about the wanted set that the comparison and the replacement rely on. */
  ghost predicate Prepared(zone: string, m: Rrsets, lookup: Option<seq<Record>>, name: string, newRrset: RecordSet,
                           add: bool, puts: seq<Record>, target: set<Record>) {
    && ValidRrsets(zone, m)
    && Wanted(zone, name, if add then [newRrset] else [], puts, target)
    && (lookup.Some? ==> Lists(lookup.value, At(m.Values, name)))
    && (lookup.Some? ==> ((exists r :: r in lookup.value && Equivalent(newRrset, Fetched(r)))
                          <==> AlreadyThere(At(m.Values, name), target)))
  }

  /** A success leaves store and log alone, or ends with the publication of the zone. */
  ghost predicate Tidy(zone: string, m: Rrsets, log: seq<ApiCall>, after: Rrsets, log': seq<ApiCall>) {
    (after == m && log' == log) || (|log'| > |log| && log' == log + log'[|log|..] && log'[|log'| - 1] == Publish(zone))
  }

  /** The two halves of EnsureDNSRrsets share this: add when the list is empty, stop when an
      equivalent set exists, otherwise remove every set and add the new one. */
  method BringTo(api: DynDnsApi, zone: string, lookup: Option<seq<Record>>, newRrset: RecordSet, add: bool,
                 ghost name: string, ghost puts: seq<Record>, ghost target: set<Record>)
    returns (ok: bool)
    modifies api`rrsets, api`faults, api`log
    ensures ok ==> Tidy(zone, old(api.rrsets), old(api.log), api.rrsets, api.log)
    ensures Prepared(zone, old(api.rrsets), lookup, name, newRrset, add, puts, target) && lookup.Some?
            && AlreadyThere(At(old(api.rrsets).Values, name), target) ==>
              ok && unchanged(api`rrsets) && unchanged(api`faults) && unchanged(api`log)
    ensures Prepared(zone, old(api.rrsets), lookup, name, newRrset, add, puts, target) ==>
              Outcome(zone, old(api.rrsets), lookup.Some?, api.rrsets, name, target, ok)
    ensures Prepared(zone, old(api.rrsets), lookup, name, newRrset, add, puts, target) && old(api.faults) == [] ==>
              api.faults == [] && (ok <==> lookup.Some? || target !! old(api.rrsets).Values)
  {
    ghost var m := api.rrsets;
    ghost var prepared := Prepared(zone, m, lookup, name, newRrset, add, puts, target);
    var rrsetList := FetchedAll(if lookup.Some? then lookup.value else []);
    var added := if add then [newRrset] else [];
    if rrsetList != [] {
      var found := FindRrset(rrsetList, newRrset);
      if found.Some? {
        if prepared { FoundOutcome(zone, m, lookup, name, newRrset, add, puts, target, found.value.impl); }
        return true;
      }
      NoneEquivalent(lookup.value, newRrset);
    } else if !add {
      if prepared { NothingToDo(zone, m, lookup, name, newRrset, puts, target); }
      return true;
    }
    ghost var done;
    assert Replacement(rrsetList, added) != [];
    CallsMean(zone, Replacement(rrsetList, added));
    ok, done := Replace(api, zone, rrsetList, added);
    if prepared {
      ReplaceOutcome(zone, m, api.rrsets, name, lookup, newRrset, add, puts, target, done, ok);
    }
  }

  lemma NoneEquivalent(stored: seq<Record>, newRrset: RecordSet)
    requires forall i :: 0 <= i < |stored| ==> !Equivalent(newRrset, FetchedAll(stored)[i])
    ensures forall r :: r in stored ==> !Equivalent(newRrset, Fetched(r))
  {
    forall r | r in stored
      ensures !Equivalent(newRrset, Fetched(r))
    {
      var i :| 0 <= i < |stored| && stored[i] == r;
      assert FetchedAll(stored)[i] == Fetched(r);
    }
  }

  lemma FoundOutcome(zone: string, m: Rrsets, lookup: Option<seq<Record>>, name: string, newRrset: RecordSet,
                     add: bool, puts: seq<Record>, target: set<Record>, r: Record)
    requires Prepared(zone, m, lookup, name, newRrset, add, puts, target)
    requires lookup.Some? && r in lookup.value && Equivalent(newRrset, Fetched(r))
    ensures Outcome(zone, m, true, m, name, target, true)
  {
    assert AlreadyThere(At(m.Values, name), target);
  }

  lemma NothingToDo(zone: string, m: Rrsets, lookup: Option<seq<Record>>, name: string, newRrset: RecordSet,
                    puts: seq<Record>, target: set<Record>)
    requires Prepared(zone, m, lookup, name, newRrset, false, puts, target)
    requires lookup.Some? ==> lookup.value == []
    ensures target == {} && Outcome(zone, m, lookup.Some?, m, name, target, true)
  {
    assert Elems<Record>([]) == {};
  }

  lemma ReplaceOutcome(zone: string, m: Rrsets, after: Rrsets, name: string, lookup: Option<seq<Record>>,
                       newRrset: RecordSet, add: bool, puts: seq<Record>, target: set<Record>, done: nat, ok: bool)
    requires Prepared(zone, m, lookup, name, newRrset, add, puts, target)
    requires lookup.Some? ==> forall r :: r in lookup.value ==> !Equivalent(newRrset, Fetched(r))
    requires Progress(m, after, ReplaceOps(zone, lookup, newRrset, add), done)
    requires ok ==> done == |ReplaceOps(zone, lookup, newRrset, add)|
    ensures Outcome(zone, m, lookup.Some?, after, name, target, ok)
    ensures AllEnabled(m, ReplaceOps(zone, lookup, newRrset, add)) <==> lookup.Some? || target !! m.Values
  {
    var added := if add then [newRrset] else [];
    match lookup
    case Some(stored) => ReplacementOutcome(zone, m, after, name, stored, added, puts, target, done);
    case None =>
      assert FetchedAll([]) == [];
      BlindOutcome(zone, m, after, name, added, puts, target, done);
  }

  function ReplaceOps(zone: string, lookup: Option<seq<Record>>, newRrset: RecordSet, add: bool): seq<Op> {
    Ops(zone, Replacement(FetchedAll(if lookup.Some? then lookup.value else []), if add then [newRrset] else []))
  }

  /** What a call whose lookup failed, and nothing else, leaves behind. */
  ghost predicate BlindCall(s: set<Record>, now: set<Record>, target: set<Record>, resolvable: bool) {
    && s <= now <= s + target
    && (!resolvable ==> now == s)
    && (resolvable && target !! s ==> now == s + target)
  }

  /** EnsureDNSRrsets. The lookup is the first call to the provider; every call may fail, which ends
      the operation where it stands, except that a failed lookup reads as "no records". */
  method EnsureDnsRrsets(api: DynDnsApi, zone: string, net: Resolver, dnsName: string,
                         endpoints: seq<string>, uplevel: string)
    returns (ok: bool)
    modifies api
    ensures api.lookupFaults == Rest(old(api.lookupFaults))
    ensures Workable(zone, old(api.rrsets), net, dnsName, uplevel) ==>
              Outcome(zone, old(api.rrsets), !Faulty(old(api.lookupFaults)), api.rrsets, RelativeName(zone, dnsName),
                      Target(zone, net, dnsName, endpoints, uplevel), ok)
    ensures !Resolvable(net, endpoints) ==> !ok && api.rrsets == old(api.rrsets) && api.faults == old(api.faults)
    ensures ok ==> Tidy(zone, old(api.rrsets), old(api.log), api.rrsets, api.log)
    ensures Workable(zone, old(api.rrsets), net, dnsName, uplevel) && !Faulty(old(api.lookupFaults))
            && Resolvable(net, endpoints)
            && AlreadyThere(At(old(api.rrsets).Values, RelativeName(zone, dnsName)),
                            Target(zone, net, dnsName, endpoints, uplevel)) ==>
              ok && unchanged(api`rrsets) && unchanged(api`faults) && unchanged(api`log)
    ensures Workable(zone, old(api.rrsets), net, dnsName, uplevel) && old(api.faults) == [] ==>
              && api.faults == []
              && (ok <==> Resolvable(net, endpoints)
                          && (Faulty(old(api.lookupFaults)) ==>
                                Target(zone, net, dnsName, endpoints, uplevel) !! old(api.rrsets).Values))
    ensures Workable(zone, old(api.rrsets), net, dnsName, uplevel) && Faulty(old(api.lookupFaults))
            && old(api.faults) == [] ==>
              BlindCall(old(api.rrsets).Values, api.rrsets.Values, Target(zone, net, dnsName, endpoints, uplevel),
                        Resolvable(net, endpoints))
  {
    ghost var m := api.rrsets;
    ghost var workable := Workable(zone, m, net, dnsName, uplevel);
    ghost var target := Target(zone, net, dnsName, endpoints, uplevel);
    ghost var name := RelativeName(zone, dnsName);
    var lookup := api.GetRecordByName(RelativeName(zone, dnsName));
    if endpoints == [] {
      var newRrset := New(zone, dnsName, [uplevel], MIN_DNS_TTL, CNAME);
      ghost var puts := if uplevel != "" then Singles(zone, dnsName, [uplevel], CNAME) else [];
      if workable { CnameFacts(zone, m, net, dnsName, uplevel, lookup); }
      ok := BringTo(api, zone, lookup, newRrset, uplevel != "", name, puts, target);
    } else {
      var list, resolved := GetResolvedEndpoints(net, endpoints);
      if !resolved {
        return false;
      }
      var newRrset := New(zone, dnsName, list, MIN_DNS_TTL, A);
      if workable { AddressFacts(zone, m, net, dnsName, endpoints, uplevel, lookup, list); }
      ok := BringTo(api, zone, lookup, newRrset, true, name, Singles(zone, dnsName, list, A), target);
    }
  }

  lemma CnameFacts(zone: string, m: Rrsets, net: Resolver, dnsName: string, uplevel: string,
                   lookup: Option<seq<Record>>)
    requires Workable(zone, m, net, dnsName, uplevel)
    requires lookup.Some? ==> Lists(lookup.value, At(m.Values, RelativeName(zone, dnsName)))
    ensures Prepared(zone, m, lookup, RelativeName(zone, dnsName), New(zone, dnsName, [uplevel], MIN_DNS_TTL, CNAME),
                     uplevel != "", if uplevel != "" then Singles(zone, dnsName, [uplevel], CNAME) else [],
                     Target(zone, net, dnsName, [], uplevel))
  {
    var name := RelativeName(zone, dnsName);
    var here := At(m.Values, name);
    assert Elems([uplevel]) == {uplevel};
    if uplevel != "" {
      NewIsWanted(zone, dnsName, [uplevel], CNAME, {uplevel});
      assert Target(zone, net, dnsName, [], uplevel) == Records(zone, dnsName, {uplevel}, CNAME);
    } else {
      assert Elems<Record>([]) == {};
    }
    if lookup.Some? {
      FoundExactly(zone, m, dnsName, lookup.value, [uplevel], CNAME, {uplevel});
      if uplevel == "" {
        StoredAreStorable(zone, m, name, lookup.value);
        forall t | t in here
          ensures Records(zone, dnsName, {uplevel}, CNAME) != {t}
        {
          assert t in Elems(lookup.value) && t.value != "";
          assert NewRecord(zone, dnsName, [uplevel], MIN_DNS_TTL, CNAME) in Records(zone, dnsName, {uplevel}, CNAME);
        }
      }
    }
  }

  lemma AddressFacts(zone: string, m: Rrsets, net: Resolver, dnsName: string, endpoints: seq<string>,
                     uplevel: string, lookup: Option<seq<Record>>, list: seq<string>)
    requires Workable(zone, m, net, dnsName, uplevel) && endpoints != [] && Resolvable(net, endpoints)
    requires Lists(list, ResolvedOf(net, Elems(endpoints)))
    requires lookup.Some? ==> Lists(lookup.value, At(m.Values, RelativeName(zone, dnsName)))
    ensures Prepared(zone, m, lookup, RelativeName(zone, dnsName), New(zone, dnsName, list, MIN_DNS_TTL, A),
                     true, Singles(zone, dnsName, list, A), Target(zone, net, dnsName, endpoints, uplevel))
  {
    ResolvedValues(net, endpoints);
    var all := ResolvedOf(net, Elems(endpoints));
    NewIsWanted(zone, dnsName, list, A, all);
    if lookup.Some? {
      ListsSome(list, all);
      FoundExactly(zone, m, dnsName, lookup.value, list, A, all);
    }
  }

  // ---------------------------------------------------------------- what the operation guarantees

  /** A successful call leaves exactly the wanted records at the name, except in one case: a
      single wanted record is there already, among others, which then stay. */
  lemma ExactUnlessShrinking(s: set<Record>, name: string, target: set<Record>)
    requires forall t :: t in target ==> t.name == name
    ensures At(Reconciled(s, name, target), name) == target
       <==> !(AlreadyThere(At(s, name), target) && At(s, name) != target)
    ensures forall r: Record :: r.name != name ==> (r in Reconciled(s, name, target) <==> r in s)
  {
    if !AlreadyThere(At(s, name), target) {
      assert At(Reconciled(s, name, target), name) == target;
    }
  }

  /** The excepted case happens: of two addresses one is withdrawn, and its record stays. */
  lemma ShrinkingLeavesOldRecord(zone: string, net: Resolver, dnsName: string, a: string, b: string)
    requires a != b && net.isIP(a) && net.isIP(b)
    ensures var two := Target(zone, net, dnsName, [a, b], "");
            var one := Target(zone, net, dnsName, [a], "");
            At(Reconciled(two, RelativeName(zone, dnsName), one), RelativeName(zone, dnsName)) != one
  {
    var name := RelativeName(zone, dnsName);
    var two, one := Target(zone, net, dnsName, [a, b], ""), Target(zone, net, dnsName, [a], "");
    var ra := NewRecord(zone, dnsName, [a], MIN_DNS_TTL, A);
    var rb := NewRecord(zone, dnsName, [b], MIN_DNS_TTL, A);
    assert ra.value == a && rb.value == b;
    ResolvedIP(net, [a], a);
    ResolvedIP(net, [a, b], a);
    ResolvedIP(net, [a, b], b);
    assert ResolvedOf(net, Elems([a])) == {a} by {
      assert forall e :: e in [a] ==> e == a;
    }
    assert one == {ra} && ra in At(two, name) && rb in At(two, name);
  }

  /** A second call with the same arguments changes nothing, in every case. */
  lemma Idempotent(s: set<Record>, name: string, target: set<Record>)
    requires forall t :: t in target ==> t.name == name
    ensures Reconciled(Reconciled(s, name, target), name, target) == Reconciled(s, name, target)
  {
    var once := Reconciled(s, name, target);
    if !AlreadyThere(At(s, name), target) {
      assert At(once, name) == target;
    }
  }

  /** A name that holds a CNAME holds nothing else (section 3.6.2 of RFC 1034). */
  predicate CnameAlone(s: set<Record>) {
    forall r, q :: r in s && q in s && r.name == q.name && r.rtype == CNAME ==> r == q
  }

  lemma BetweenKeepsCnameAlone(s: set<Record>, now: set<Record>, name: string, target: set<Record>)
    requires CnameAlone(s) && CnameAlone(target) && Between(s, now, name, target)
    ensures CnameAlone(now)
  {
    forall r, q | r in now && q in now && r.name == q.name && r.rtype == CNAME
      ensures r == q
    {
      if r.name == name {
        assert r in At(now, name) && q in At(now, name);
      }
    }
  }

  lemma StepKeepsCnameAlone(s: set<Record>, now: set<Record>, zone: string, net: Resolver, dnsName: string,
                            endpoints: seq<string>, uplevel: string)
    requires CnameAlone(s)
    requires Between(s, now, RelativeName(zone, dnsName), Target(zone, net, dnsName, endpoints, uplevel))
    ensures CnameAlone(now)
  {
    BetweenKeepsCnameAlone(s, now, RelativeName(zone, dnsName), Target(zone, net, dnsName, endpoints, uplevel));
  }

  /** One call to EnsureDNSRrsets, for some name and arguments, that reached some point. */
  datatype Call = Call(dnsName: string, endpoints: seq<string>, uplevel: string)

  ghost predicate IsRun(zone: string, net: Resolver, calls: seq<Call>, states: seq<set<Record>>) {
    && |states| == |calls| + 1
    && forall i :: 0 <= i < |calls| ==>
         Between(states[i], states[i + 1], RelativeName(zone, calls[i].dnsName),
                 Target(zone, net, calls[i].dnsName, calls[i].endpoints, calls[i].uplevel))
  }

  /** In every run, over any names, with failures anywhere after the lookups, no name ever holds a
      CNAME beside other data. */
  lemma {:induction false} RunKeepsCnameAlone(zone: string, net: Resolver, calls: seq<Call>, states: seq<set<Record>>)
    requires IsRun(zone, net, calls, states) && CnameAlone(states[0])
    ensures forall i :: 0 <= i < |states| ==> CnameAlone(states[i])
  {
    if calls != [] {
      var n := |calls| - 1;
      assert IsRun(zone, net, calls[..n], states[..n + 1]);
      RunKeepsCnameAlone(zone, net, calls[..n], states[..n + 1]);
      assert states[..n + 1][n] == states[n];
      StepKeepsCnameAlone(states[n], states[n + 1], zone, net, calls[n].dnsName, calls[n].endpoints, calls[n].uplevel);
      assert forall i :: 0 <= i < |states| - 1 ==> states[i] == states[..n + 1][i];
    }
  }

  /** A failed lookup does no harm: nothing is written, or nothing is there, or addresses join
      addresses, or the wanted CNAME is the one there. */
  ghost predicate LookupHarmless(s: set<Record>, zone: string, net: Resolver, dnsName: string,
                                 endpoints: seq<string>, uplevel: string) {
    var here := At(s, RelativeName(zone, dnsName));
    || !Resolvable(net, endpoints)
    || here == {}
    || (endpoints != [] && forall r :: r in here ==> r.rtype != CNAME)
    || (endpoints == [] && (uplevel == "" || NewRecord(zone, dnsName, [uplevel], MIN_DNS_TTL, CNAME) in here))
  }

  /** A failed lookup keeps CNAMEs alone exactly then. */
  lemma FailedLookupExactly(s: set<Record>, now: set<Record>, zone: string, net: Resolver, dnsName: string,
                            endpoints: seq<string>, uplevel: string)
    requires CnameAlone(s) && Sane(net)
    requires BlindCall(s, now, Target(zone, net, dnsName, endpoints, uplevel), Resolvable(net, endpoints))
    ensures CnameAlone(now) <==> LookupHarmless(s, zone, net, dnsName, endpoints, uplevel)
  {
    var here := At(s, RelativeName(zone, dnsName));
    if LookupHarmless(s, zone, net, dnsName, endpoints, uplevel) {
      HarmlessKeepsAlone(s, now, zone, net, dnsName, endpoints, uplevel);
    } else {
      var target := Target(zone, net, dnsName, endpoints, uplevel);
      ResolvedValues(net, endpoints);
      assert target !! s by {
        forall t | t in target
          ensures t !in s
        {
          assert t in s ==> t in here;
        }
      }
      var t := SomeTarget(zone, net, dnsName, endpoints, uplevel);
      var h :| h in here && (endpoints != [] ==> h.rtype == CNAME);
      assert t in now && h in now && t.name == h.name && t != h && (t.rtype == CNAME || h.rtype == CNAME);
    }
  }

  lemma SomeTarget(zone: string, net: Resolver, dnsName: string, endpoints: seq<string>, uplevel: string)
    returns (t: Record)
    requires Sane(net) && Resolvable(net, endpoints) && (endpoints == [] ==> uplevel != "")
    ensures t in Target(zone, net, dnsName, endpoints, uplevel)
    ensures endpoints == [] ==> t.rtype == CNAME
  {
    if endpoints != [] {
      ResolvedValues(net, endpoints);
      var a :| a in ResolvedOf(net, Elems(endpoints));
      t := NewRecord(zone, dnsName, [a], MIN_DNS_TTL, A);
    } else {
      t := NewRecord(zone, dnsName, [uplevel], MIN_DNS_TTL, CNAME);
    }
  }

  lemma HarmlessKeepsAlone(s: set<Record>, now: set<Record>, zone: string, net: Resolver, dnsName: string,
                           endpoints: seq<string>, uplevel: string)
    requires CnameAlone(s) && LookupHarmless(s, zone, net, dnsName, endpoints, uplevel)
    requires BlindCall(s, now, Target(zone, net, dnsName, endpoints, uplevel), Resolvable(net, endpoints))
    ensures CnameAlone(now)
  {
    var name := RelativeName(zone, dnsName);
    var here := At(s, name);
    var target := Target(zone, net, dnsName, endpoints, uplevel);
    assert CnameAlone(target);
    if endpoints == [] && (uplevel == "" || NewRecord(zone, dnsName, [uplevel], MIN_DNS_TTL, CNAME) in here) {
      assert target <= s;
    }
    forall r, q | r in now && q in now && r.name == q.name && r.rtype == CNAME
      ensures r == q
    {
      if r.name == name {
        assert r in s ==> r in here;
        assert q in s ==> q in here;
      }
    }
  }

  /** It happens: a name holds an address, its endpoints go away, and the lookup fails. */
  lemma FailedLookupMixes(zone: string, net: Resolver, dnsName: string, a: string, uplevel: string, now: set<Record>)
    requires Sane(net) && net.isIP(a) && uplevel != ""
    requires BlindCall(Target(zone, net, dnsName, [a], uplevel), now, Target(zone, net, dnsName, [], uplevel), true)
    ensures CnameAlone(Target(zone, net, dnsName, [a], uplevel)) && !CnameAlone(now)
  {
    var s := Target(zone, net, dnsName, [a], uplevel);
    ResolvedIP(net, [a], a);
    assert NewRecord(zone, dnsName, [a], MIN_DNS_TTL, A) in At(s, RelativeName(zone, dnsName));
    FailedLookupExactly(s, now, zone, net, dnsName, [], uplevel);
  }
}
