/** DynDNS records: how a record set is built, split into one record per value, read back,
    and rebuilt for deletion; and the key under which the store files a record. */
module DynRecords {
  import opened Strings

  const A := "A"
  const CNAME := "CNAME"

  /** godynect.Record */
  datatype Record = Record(zone: string, name: string, fqdn: string, rtype: string,
                           ttl: string, value: string, id: string)

  /** A record set is a pointer when made by `New` and a plain value when returned by `Get`;
      the type test in GetRecordsFromDNSRRS recognises only the pointer. */
  datatype RecordSet = Built(impl: Record) | Fetched(impl: Record) {
    function Name(): string { impl.name }
    function Rrdatas(): (parts: seq<string>) ensures |parts| >= 1 { Split(impl.value, ',') }
    function Ttl(): (n: int)
      ensures 0 <= n <= MAX_INT64
    {
      match ParseInt(impl.ttl)
      case Some(n) => if n < 0 then 60 else n
      case None => 60
    }
    function Type(): string { impl.rtype }
  }

  // ---------------------------------------------------------------- names

  /** The relative name that populateRecordWithName gives a name in a zone. */
  function RelativeName(zone: string, name: string): string {
    TrimSuffix(TrimSuffix(name, "."), "." + zone)
  }

  /** populateRecordWithName */
  method PopulateRecordWithName(zone: string, name: string) returns (relative: string, fqdn: string)
    ensures relative == RelativeName(zone, name)
    ensures fqdn == relative + "." + zone
  {
    var trimmed := TrimSuffix(name, ".");
    if HasSuffix(trimmed, "." + zone) {
      fqdn := trimmed;
      relative := TrimSuffix(fqdn, "." + zone);
      TrimmedSuffix(fqdn, "." + zone);
    } else {
      relative := trimmed;
      fqdn := relative + "." + zone;
    }
  }

  /** Normalising a full name again changes nothing exactly when the zone is a proper zone name, or is
      empty and the name does not end in three dots. Otherwise the name changes each time. */
  lemma NormaliseTwiceExactly(zone: string, name: string)
    ensures RelativeName(zone, RelativeName(zone, name) + "." + zone) == RelativeName(zone, name)
       <==> if zone == "" then !HasSuffix(name, "...") else zone[|zone| - 1] != '.'
  {
    var relative := RelativeName(zone, name);
    if zone == "" {
      assert relative + "." + zone == relative + ".";
      SuffixOfConcat(relative, ".");
      ThreeDots(name);
    } else if zone[|zone| - 1] != '.' {
      ProperZone(zone, relative);
    } else {
      DottedZone(zone, relative);
    }
  }

  lemma ProperZone(zone: string, relative: string)
    requires zone != "" && zone[|zone| - 1] != '.'
    ensures RelativeName(zone, relative + "." + zone) == relative
  {
    var fqdn := relative + "." + zone;
    assert fqdn[|fqdn| - 1] == zone[|zone| - 1];
    assert !HasSuffix(fqdn, ".");
    assert fqdn == relative + ("." + zone);
    SuffixOfConcat(relative, "." + zone);
  }

  lemma DottedZone(zone: string, relative: string)
    requires zone != "" && zone[|zone| - 1] == '.'
    ensures RelativeName(zone, relative + "." + zone) != relative
  {
    var fqdn := relative + "." + zone;
    assert fqdn[|fqdn| - 1..] == ".";
    TrimmedLength(fqdn, ".");
    TrimmedLength(TrimSuffix(fqdn, "."), "." + zone);
  }

  lemma TrimmedLength(s: string, t: string)
    ensures |TrimSuffix(s, t)| == if HasSuffix(s, t) then |s| - |t| else |s|
  {
  }

  lemma ThreeDots(name: string)
    ensures HasSuffix(RelativeName("", name), ".") <==> HasSuffix(name, "...")
  {
    EndsInDot(name);
    EndsInDot(TrimSuffix(name, "."));
    EndsInDot(RelativeName("", name));
    assert HasSuffix(name, "...") <==> |name| >= 3 && name[|name| - 3..] == ['.', '.', '.'];
  }

  lemma EndsInDot(s: string)
    ensures HasSuffix(s, ".") <==> s != "" && s[|s| - 1] == '.'
  {
  }

  /** The four ways of writing a name in a proper zone mean one relative name. */
  lemma FormsOfAName(zone: string, name: string)
    requires zone != "" && zone[|zone| - 1] != '.' && !HasSuffix(name, ".") && !HasSuffix(name, "." + zone)
    ensures RelativeName(zone, name) == name && RelativeName(zone, name + ".") == name
    ensures RelativeName(zone, name + "." + zone) == name && RelativeName(zone, name + "." + zone + ".") == name
  {
    SuffixOfConcat(name, ".");
    SuffixOfConcat(name + "." + zone, ".");
    ProperZone(zone, name);
    EndsInDot(name + "." + zone);
  }

  predicate Normal(zone: string, name: string) {
    RelativeName(zone, name) == name
  }

  lemma NormalExactly(zone: string, name: string)
    ensures Normal(zone, name) <==> !HasSuffix(name, ".") && !HasSuffix(name, "." + zone)
  {
    if HasSuffix(name, ".") {
      assert |RelativeName(zone, name)| < |name|;
    }
  }

  // ---------------------------------------------------------------- building records

  /** newRecord */
  function NewRecord(zone: string, name: string, rrdatas: seq<string>, ttl: int, rtype: string): Record {
    var relative := RelativeName(zone, name);
    Record(zone, relative, relative + "." + zone, rtype, FormatInt(ttl), Join(rrdatas, ','), "")
  }

  /** New: a record set that remembers being one of ours. */
  function New(zone: string, name: string, rrdatas: seq<string>, ttl: int, rtype: string): RecordSet {
    Built(NewRecord(zone, name, rrdatas, ttl, rtype))
  }

  /** The record a set stands for: its own when built here, a fresh one when it was fetched. */
  function Underlying(zone: string, rrs: RecordSet): Record {
    if rrs.Built? then rrs.impl
    else NewRecord(zone, rrs.Name(), rrs.Rrdatas(), rrs.Ttl(), rrs.Type())
  }

  /** GetRecordsFromDNSRRS as a function: one record per value. */
  function RecordsOf(zone: string, rrs: RecordSet): seq<Record> {
    var impl := Underlying(zone, rrs);
    var rdatas := Split(impl.value, ',');
    if |rdatas| == 1 then [impl]
    else seq(|rdatas|, i requires 0 <= i < |rdatas| =>
                         NewRecord(zone, rrs.Name(), [rdatas[i]], rrs.Ttl(), rrs.Type()))
  }

  method GetRecordsFromDnsRrs(zone: string, rrs: RecordSet) returns (records: seq<Record>)
    ensures records == RecordsOf(zone, rrs)
  {
    var impl := Underlying(zone, rrs);
    var rdatas := Split(impl.value, ',');
    if |rdatas| == 1 {
      return [impl];
    }
    records := [];
    ghost var all := RecordsOf(zone, rrs);
    for i := 0 to |rdatas|
      invariant records == all[..i]
    {
      assert all[i] == NewRecord(zone, rrs.Name(), [rdatas[i]], rrs.Ttl(), rrs.Type());
      records := records + [NewRecord(zone, rrs.Name(), [rdatas[i]], rrs.Ttl(), rrs.Type())];
    }
  }

  // ---------------------------------------------------------------- round trips

  predicate CanonicalTtl(ttl: string) {
    var parsed := ParseInt(ttl);
    parsed.Some? && parsed.value >= 0 && FormatInt(parsed.value) == ttl
  }

  lemma CanonicalTtlOf(n: int)
    requires 0 <= n <= MAX_INT64
    ensures CanonicalTtl(FormatInt(n)) && AllDigits(FormatInt(n))
  {
    ParseOfFormat(n);
  }

  /** Reading a fetched record back and rebuilding it gives the very same record, exactly when
      its name is already normal, its TTL is a canonical decimal and its value has no comma. */
  lemma RebuildExactly(zone: string, r: Record)
    requires r.zone == zone && r.fqdn == r.name + "." + zone && r.id == ""
    ensures RecordsOf(zone, Fetched(r)) == [r]
       <==> Normal(zone, r.name) && CanonicalTtl(r.ttl) && ',' !in r.value
  {
    var impl := Underlying(zone, Fetched(r));
    JoinOfSplit(r.value, ',');
    assert impl.value == r.value;
    SplitIsSingle(r.value, ',');
    CanonicalTtlOf(Fetched(r).Ttl());
    assert impl.ttl == FormatInt(Fetched(r).Ttl());
    if CanonicalTtl(r.ttl) && Normal(zone, r.name) && ',' !in r.value {
      assert impl == r;
    }
  }

  /** A TTL that is no number, or negative, reads as a minute. */
  lemma TtlReads(rrs: RecordSet, n: int)
    ensures 0 <= n <= MAX_INT64 && rrs.impl.ttl == FormatInt(n) ==> rrs.Ttl() == n
    ensures ParseInt(rrs.impl.ttl).None? || ParseInt(rrs.impl.ttl).value < 0 ==> rrs.Ttl() == 60
  {
    if 0 <= n <= MAX_INT64 {
      ParseOfFormat(n);
    }
  }

  /** A new set reads back as what it was made from. */
  lemma NewReadsBack(zone: string, name: string, values: seq<string>, ttl: int, rtype: string)
    requires |values| >= 1 && (forall v :: v in values ==> ',' !in v) && 0 <= ttl <= MAX_INT64
    ensures var rrs := New(zone, name, values, ttl, rtype);
            && rrs.Name() == RelativeName(zone, name) && rrs.Rrdatas() == values && rrs.Ttl() == ttl
            && rrs.Type() == rtype && rrs.impl.zone == zone && rrs.impl.fqdn == rrs.Name() + "." + zone
  {
    SplitOfJoin(values, ',');
    TtlReads(New(zone, name, values, ttl, rtype), ttl);
  }

  /** A fetched set, whatever its value, stands for one record per part of the value. */
  lemma FetchedSplitsByValue(zone: string, r: Record)
    ensures var parts, records := Split(r.value, ','), RecordsOf(zone, Fetched(r));
            && |records| == |parts|
            && forall i :: 0 <= i < |parts| ==>
                 records[i] == NewRecord(zone, r.name, [parts[i]], Fetched(r).Ttl(), r.rtype)
  {
    JoinOfSplit(r.value, ',');
    SplitIsSingle(r.value, ',');
    if |Split(r.value, ',')| == 1 {
      SplitOfClean(r.value, ',');
    }
  }

  /** Build, store and read back: a set of comma-free values is stored as one record per value,
      in order, each of which reads back as the set's own name, TTL and type. */
  lemma BuildSplitsByValue(zone: string, name: string, values: seq<string>, ttl: int, rtype: string)
    requires |values| >= 1 && forall v :: v in values ==> ',' !in v
    requires 0 <= ttl <= MAX_INT64 && Normal(zone, RelativeName(zone, name))
    ensures RecordsOf(zone, New(zone, name, values, ttl, rtype))
         == seq(|values|, i requires 0 <= i < |values| => NewRecord(zone, name, [values[i]], ttl, rtype))
  {
    SplitOfJoin(values, ',');
    ParseOfFormat(ttl);
    var built := New(zone, name, values, ttl, rtype);
    assert built.Ttl() == ttl && built.Rrdatas() == values;
  }

  // ---------------------------------------------------------------- store keys

  /** hashKey */
  function HashKey(r: Record): string {
    r.name + "-" + r.ttl + "-" + r.rtype + "-" + r.value
  }

  /** A record with a TTL in digits and a type of ours. */
  predicate Keyable(r: Record) {
    r.ttl != "" && AllDigits(r.ttl) && (r.rtype == A || r.rtype == CNAME)
  }

  predicate Agree(r: Record, q: Record) {
    r.name == q.name && r.ttl == q.ttl && r.rtype == q.rtype && r.value == q.value
  }

  /** A name that contains what looks like a TTL and a type: dash, digits, dash, a type, and then a dash
      or the end. */
  predicate KeyLike(name: string) {
    exists i, j :: 0 <= i < j < |name| && TtlAndTypeAt(name, i, j)
  }

  predicate TtlAndTypeAt(s: string, i: int, j: int)
    requires 0 <= i < j < |s|
  {
    && s[i] == '-' && s[j] == '-' && i + 1 < j && AllDigits(s[i + 1..j])
    && (TypeAhead(s[j + 1..], A) || TypeAhead(s[j + 1..], CNAME))
  }

  predicate TypeAhead(s: string, rtype: string) {
    rtype <= s && (|s| == |rtype| || s[|rtype|] == '-')
  }

  lemma DashSplit(a: string, b: string)
    ensures var s := a + "-" + b; s[..|a|] == a && s[|a|] == '-' && s[|a| + 1..] == b
  {
  }

  /** A key around the dash before its type. */
  lemma KeyParts(r: Record)
    ensures HashKey(r) == (r.name + "-" + r.ttl) + "-" + (r.rtype + "-" + r.value)
  {
  }

  predicate SitsAt(key: string, n: nat, part: string) {
    n + |part| <= |key| && forall k :: 0 <= k < |part| ==> key[n + k] == part[k]
  }

  /** From position n on a key has a dash, the TTL, a dash, the type, and a dash. */
  predicate TtlAndTypeSit(key: string, n: nat, ttl: string, rtype: string) {
    && SitsAt(key, n + 1, ttl) && SitsAt(key, n + 2 + |ttl|, rtype) && n + 2 + |ttl| + |rtype| < |key|
    && key[n] == '-' && key[n + 1 + |ttl|] == '-' && key[n + 2 + |ttl| + |rtype|] == '-'
  }

  lemma KeyShape(r: Record)
    ensures SitsAt(HashKey(r), 0, r.name) && TtlAndTypeSit(HashKey(r), |r.name|, r.ttl, r.rtype)
    ensures HashKey(r)[..|r.name|] == r.name && HashKey(r)[|r.name| + |r.ttl| + |r.rtype| + 3..] == r.value
  {
    var front, rest := r.name + "-" + r.ttl, r.rtype + "-" + r.value;
    KeyParts(r);
    DashSplit(front, rest);
    DashSplit(r.name, r.ttl);
    DashSplit(r.rtype, r.value);
    PartsSit(HashKey(r), r.name, r.ttl, front, r.rtype, r.value, rest);
  }

  lemma PartsSit(key: string, name: string, ttl: string, front: string, rtype: string, value: string, rest: string)
    requires front == name + "-" + ttl && rest == rtype + "-" + value && key == front + "-" + rest
    ensures SitsAt(key, 0, name) && TtlAndTypeSit(key, |name|, ttl, rtype)
    ensures key[..|name|] == name && key[|name| + |ttl| + |rtype| + 3..] == value
  {
    assert forall k :: 0 <= k < |front| ==> key[k] == front[k];
    assert forall k :: 0 <= k < |rest| ==> key[|front| + 1 + k] == rest[k];
    assert key[|front| + 1..] == rest;
    assert rest[|rtype| + 1..] == value;
  }

  /** TTL and type can be read off a key in one way only. */
  lemma SameParts(key: string, n: nat, ttl: string, rtype: string, ttl': string, rtype': string)
    requires AllDigits(ttl) && AllDigits(ttl') && (rtype == A || rtype == CNAME) && (rtype' == A || rtype' == CNAME)
    requires TtlAndTypeSit(key, n, ttl, rtype) && TtlAndTypeSit(key, n, ttl', rtype')
    ensures ttl == ttl' && rtype == rtype'
  {
    NoLonger(key, n, ttl, ttl');
    NoLonger(key, n, ttl', ttl);
    assert forall k :: 0 <= k < |ttl| ==> ttl[k] == key[n + 1 + k] == ttl'[k];
    assert rtype[0] == key[n + 2 + |ttl| + 0] == rtype'[0];
  }

  lemma NoLonger(key: string, n: nat, ttl: string, ttl': string)
    requires AllDigits(ttl) && SitsAt(key, n + 1, ttl) && n + 1 + |ttl'| < |key| && key[n + 1 + |ttl'|] == '-'
    ensures |ttl| <= |ttl'|
  {
    NoDash(key, n + 1, ttl);
  }

  lemma NoDash(key: string, n: nat, part: string)
    requires SitsAt(key, n, part) && forall k :: 0 <= k < |part| ==> part[k] != '-'
    ensures forall k :: n <= k < n + |part| ==> key[k] != '-'
  {
    forall k | n <= k < n + |part|
      ensures key[k] != '-'
    {
      assert key[n + (k - n)] == part[k - n];
    }
  }

  lemma SameNameSameKey(r: Record, q: Record)
    requires Keyable(r) && Keyable(q) && HashKey(r) == HashKey(q) && |r.name| == |q.name|
    ensures Agree(r, q)
  {
    KeyShape(r);
    KeyShape(q);
    SameParts(HashKey(r), |r.name|, r.ttl, r.rtype, q.ttl, q.rtype);
  }

  /** When two records share a key, the longer name contains the shorter record's TTL and type. */
  lemma LongerNameIsKeyLike(r: Record, q: Record)
    requires Keyable(r) && Keyable(q) && HashKey(r) == HashKey(q) && |q.name| < |r.name|
    ensures KeyLike(r.name)
  {
    KeyShape(r);
    KeyShape(q);
    NameAfterType(HashKey(r), |q.name|, q.ttl, q.rtype, |r.name|, r.ttl, r.rtype);
    NameShowsTtlAndType(HashKey(r), |q.name|, q.ttl, q.rtype, |r.name|);
  }

  /** A TTL further on begins behind the type. */
  lemma NameAfterType(key: string, i: nat, ttl: string, rtype: string, n: nat, ttl': string, rtype': string)
    requires AllDigits(ttl) && (rtype == A || rtype == CNAME) && AllDigits(ttl') && ttl' != ""
    requires i < n && TtlAndTypeSit(key, i, ttl, rtype) && TtlAndTypeSit(key, n, ttl', rtype')
    ensures n > i + 1 + |ttl| + |rtype|
  {
    assert key[n + 1 + 0] == ttl'[0] && Digit(ttl'[0]);
    assert key[i + 2 + |ttl| + 0] == rtype[0];
    NoDash(key, i + 1, ttl);
    NoDash(key, i + 2 + |ttl|, rtype);
  }

  lemma NameShowsTtlAndType(key: string, i: nat, ttl: string, rtype: string, n: nat)
    requires ttl != "" && AllDigits(ttl) && (rtype == A || rtype == CNAME)
    requires TtlAndTypeSit(key, i, ttl, rtype) && i + 1 + |ttl| + |rtype| < n < |key|
    ensures KeyLike(key[..n])
  {
    var name, j := key[..n], i + 1 + |ttl|;
    var rest := name[j + 1..];
    assert forall k :: 0 <= k < |rtype| ==> rest[k] == key[j + 1 + k] == rtype[k];
    assert rest[..|rtype|] == rtype && TypeAhead(rest, rtype);
    assert name[i + 1..j] == ttl;
    assert TtlAndTypeAt(name, i, j);
  }

  /** The key determines name, TTL, type and value, with dashes anywhere, as long as no name looks like
      the beginning of a key. */
  lemma KeyInjective(r: Record, q: Record)
    requires Keyable(r) && Keyable(q) && HashKey(r) == HashKey(q) && !KeyLike(r.name) && !KeyLike(q.name)
    ensures Agree(r, q)
  {
    if |r.name| == |q.name| {
      SameNameSameKey(r, q);
    } else if |r.name| < |q.name| {
      LongerNameIsKeyLike(q, r);
    } else {
      LongerNameIsKeyLike(r, q);
    }
  }

  /** Exactly the records with such a name share their key with a record of a shorter name. */
  lemma KeySharedExactly(r: Record)
    requires Keyable(r)
    ensures KeyLike(r.name) <==> exists q :: Keyable(q) && HashKey(q) == HashKey(r) && |q.name| < |r.name|
  {
    if q :| Keyable(q) && HashKey(q) == HashKey(r) && |q.name| < |r.name| {
      LongerNameIsKeyLike(r, q);
    }
    if KeyLike(r.name) {
      var i, j :| 0 <= i < j < |r.name| && TtlAndTypeAt(r.name, i, j);
      var rtype := if TypeAhead(r.name[j + 1..], A) then A else CNAME;
      var q := KeyTwin(r, i, j, rtype);
    }
  }

  lemma KeyTwin(r: Record, i: nat, j: nat, rtype: string) returns (q: Record)
    requires Keyable(r) && i < j < |r.name| && TtlAndTypeAt(r.name, i, j)
    requires (rtype == A || rtype == CNAME) && TypeAhead(r.name[j + 1..], rtype)
    ensures Keyable(q) && HashKey(q) == HashKey(r) && |q.name| < |r.name|
  {
    var key, at := HashKey(r), j + 1 + |rtype|;
    q := r.(name := r.name[..i], ttl := r.name[i + 1..j], rtype := rtype, value := key[at + 1..]);
    KeyShape(r);
    KeyParts(q);
    NameUpToType(r.name, i, j, rtype);
    CutKey(key, r.name, j, rtype);
    RegroupKey(q.name + "-" + q.ttl, rtype, q.value);
  }

  lemma CutKey(key: string, name: string, j: nat, rtype: string)
    requires j < |name| < |key| && key[..|name|] == name && key[|name|] == '-' && TypeAhead(name[j + 1..], rtype)
    ensures var at := j + 1 + |rtype|; at < |key| && key == name[..at] + "-" + key[at + 1..]
  {
    var at := j + 1 + |rtype|;
    assert key[..at] == key[..|name|][..at];
    assert key[at] == '-' by {
      if |name| > at { assert key[..|name|][at] == name[j + 1..][|rtype|]; }
    }
    assert key == key[..at] + [key[at]] + key[at + 1..];
  }

  lemma NameUpToType(name: string, i: nat, j: nat, rtype: string)
    requires i < j < |name| && TtlAndTypeAt(name, i, j) && TypeAhead(name[j + 1..], rtype)
    ensures name[..j + 1 + |rtype|] == name[..i] + "-" + name[i + 1..j] + "-" + rtype
  {
    assert name[j + 1..][..|rtype|] == rtype;
  }

  lemma RegroupKey(front: string, rtype: string, value: string)
    ensures front + "-" + (rtype + "-" + value) == front + "-" + rtype + "-" + value
  {
  }
}
