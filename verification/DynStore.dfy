/** The in-memory DynDNS record store: a map from keys to records, with every call able to fail.
    A store of well-formed records is shown to be just a finite set of records. */
module DynStore {
  import opened Strings
  import opened DynRecords

  type Rrsets = map<string, Record>

  /** A record as the provider writes it for a zone. */
  predicate Storable(zone: string, r: Record) {
    && r.zone == zone && r.fqdn == r.name + "." + zone && r.id == ""
    && Normal(zone, r.name) && !KeyLike(r.name)
    && CanonicalTtl(r.ttl)
    && (r.rtype == A || r.rtype == CNAME)
    && ',' !in r.value && r.value != ""
  }

  predicate ValidRrsets(zone: string, m: Rrsets) {
    forall k :: k in m ==> HashKey(m[k]) == k && Storable(zone, m[k])
  }

  lemma StorableKeys(zone: string, r: Record, q: Record)
    requires Storable(zone, r) && Storable(zone, q) && HashKey(r) == HashKey(q)
    ensures r == q
  {
    KeyInjective(r, q);
  }

  /** On a valid store a key is present exactly when its record is. */
  lemma KeyMeansRecord(zone: string, m: Rrsets, r: Record)
    requires ValidRrsets(zone, m) && Storable(zone, r)
    ensures HashKey(r) in m <==> r in m.Values
  {
    if HashKey(r) in m {
      StorableKeys(zone, r, m[HashKey(r)]);
    }
  }

  /** Filing a record is set insertion. */
  lemma Filed(zone: string, m: Rrsets, r: Record)
    requires ValidRrsets(zone, m) && Storable(zone, r)
    ensures ValidRrsets(zone, m[HashKey(r) := r]) && m[HashKey(r) := r].Values == m.Values + {r}
  {
    KeyMeansRecord(zone, m, r);
    var key, filed := HashKey(r), m[HashKey(r) := r];
    forall q | q in m.Values
      ensures q in filed.Values
    {
      var k :| k in m && m[k] == q;
      if k == key { StorableKeys(zone, q, r); }
      assert k in filed && filed[k] == q;
    }
    assert filed[key] == r;
  }

  /** Dropping a record is set removal. */
  lemma Dropped(zone: string, m: Rrsets, r: Record)
    requires ValidRrsets(zone, m) && Storable(zone, r)
    ensures ValidRrsets(zone, m - {HashKey(r)}) && (m - {HashKey(r)}).Values == m.Values - {r}
  {
    var dropped := m - {HashKey(r)};
    forall q | q in m.Values && q != r
      ensures q in dropped.Values
    {
      var k :| k in m && m[k] == q;
      if k == HashKey(r) { StorableKeys(zone, q, r); }
      assert k in dropped && dropped[k] == q;
    }
    assert forall q :: q in dropped.Values ==> HashKey(q) != HashKey(r);
  }

  /** The records stored at a name. */
  function At(records: set<Record>, name: string): set<Record> {
    set r | r in records && r.name == name
  }

  function Elems<T>(list: seq<T>): set<T> {
    set x | x in list
  }

  /** `list` enumerates the set `all`, each element once. */
  predicate Lists<T(==)>(list: seq<T>, all: set<T>) {
    && (forall i, j :: 0 <= i < j < |list| ==> list[i] != list[j])
    && Elems(list) == all
  }

  lemma ElemsSnoc<T>(list: seq<T>, x: T)
    ensures Elems(list + [x]) == Elems(list) + {x}
  {
    assert forall y :: y in list + [x] <==> y in list || y == x;
  }

  lemma ListsSome<T>(list: seq<T>, all: set<T>)
    requires Lists(list, all) && all != {}
    ensures list != []
  {
    var x :| x in all;
    assert x in Elems(list);
  }

  lemma ListsOne<T>(list: seq<T>, x: T)
    requires Lists(list, {x})
    ensures list == [x]
  {
    ListsSome(list, {x});
    forall i | 0 <= i < |list|
      ensures list[i] == x
    {
      assert list[i] in Elems(list);
    }
    var last := |list| - 1;
    assert list[0] == list[last];
  }

  /** The next call fails when the fault script says so; past its end every call succeeds. */
  predicate Faulty(faults: seq<bool>) { |faults| > 0 && faults[0] }
  function Rest(faults: seq<bool>): seq<bool> { if |faults| > 0 then faults[1..] else [] }

  /** The script after n calls, and whether none of the first n calls fails. */
  function After(faults: seq<bool>, n: nat): seq<bool> { if n <= |faults| then faults[n..] else [] }
  predicate Quiet(faults: seq<bool>, n: nat) { forall k :: 0 <= k < n && k < |faults| ==> !faults[k] }

  /** A call to the provider other than a lookup by name. */
  datatype ApiCall = Create(r: Record) | FindId(r: Record) | Delete(r: Record) | Publish(zone: string)

  lemma OneMoreCall(faults: seq<bool>, n: nat)
    ensures After(faults, n + 1) == Rest(After(faults, n))
    ensures Quiet(faults, n) ==> (Quiet(faults, n + 1) <==> !Faulty(After(faults, n)))
  {
  }

  /** `found` are the records of the name under the keys `taken`, all keys but `left` being done. */
  ghost predicate Collected(m: Rrsets, name: string, left: set<string>, taken: seq<string>, found: seq<Record>) {
    && |taken| == |found|
    && (forall i :: 0 <= i < |taken| ==> taken[i] in m && taken[i] !in left && found[i] == m[taken[i]] && found[i].name == name)
    && (forall i, j :: 0 <= i < j < |taken| ==> taken[i] != taken[j])
    && (forall k :: k in m && k !in left && m[k].name == name ==> k in taken)
  }

  lemma CollectedAll(m: Rrsets, name: string, taken: seq<string>, found: seq<Record>)
    requires Collected(m, name, {}, taken, found)
    ensures (forall k :: k in m ==> HashKey(m[k]) == k) ==> Lists(found, At(m.Values, name))
  {
    if forall k :: k in m ==> HashKey(m[k]) == k {
      forall i, j | 0 <= i < j < |found|
        ensures found[i] != found[j]
      {
        assert HashKey(found[i]) == taken[i] && HashKey(found[j]) == taken[j];
      }
      forall r | r in At(m.Values, name)
        ensures r in found
      {
        var k :| k in m && m[k] == r;
        var i :| 0 <= i < |taken| && taken[i] == k;
        assert found[i] == r;
      }
    }
  }

  class DynDnsApi {
    var rrsets: Rrsets
    var lookupFaults: seq<bool>  // of the lookups by name
    var faults: seq<bool>        // of all other calls
    ghost var log: seq<ApiCall>     // all other calls, as they were made

    constructor ()
      ensures rrsets == map[] && lookupFaults == [] && faults == [] && log == []
    {
      rrsets, lookupFaults, faults, log := map[], [], [], [];
    }

    method CreateRecord(record: Record) returns (ok: bool)
      modifies this`rrsets, this`faults, this`log
      ensures faults == Rest(old(faults)) && log == old(log) + [Create(record)]
      ensures ok <==> !Faulty(old(faults)) && HashKey(record) !in old(rrsets)
      ensures rrsets == if ok then old(rrsets)[HashKey(record) := record] else old(rrsets)
    {
      ok := Called(Create(record));
      if ok {
        var key := HashKey(record);
        if key in rrsets {
          return false;
        }
        rrsets := rrsets[key := record];
      }
    }

    method DeleteRecord(record: Record) returns (ok: bool)
      modifies this`rrsets, this`faults, this`log
      ensures faults == Rest(old(faults)) && log == old(log) + [Delete(record)]
      ensures ok <==> !Faulty(old(faults)) && HashKey(record) in old(rrsets)
      ensures rrsets == if ok then old(rrsets) - {HashKey(record)} else old(rrsets)
    {
      ok := Called(Delete(record));
      if ok {
        var key := HashKey(record);
        if key !in rrsets {
          return false;
        }
        rrsets := rrsets - {key};
      }
    }

    /** The records of one name, in the arbitrary order of a map iteration. */
    method GetRecordByName(name: string) returns (list: Option<seq<Record>>)
      modifies this`lookupFaults
      ensures lookupFaults == Rest(old(lookupFaults))
      ensures list.None? <==> Faulty(old(lookupFaults))
      ensures list.Some? && (forall k :: k in rrsets ==> HashKey(rrsets[k]) == k)
          ==> Lists(list.value, At(rrsets.Values, name))
    {
      var failed := Faulty(lookupFaults);
      lookupFaults := Rest(lookupFaults);
      if failed {
        return None;
      }
      var found := [];
      ghost var taken: seq<string> := [];
      var keys := rrsets.Keys;
      while keys != {}
        invariant keys <= rrsets.Keys
        invariant Collected(rrsets, name, keys, taken, found)
        decreases keys
      {
        var key :| key in keys;
        var rec := rrsets[key];
        if rec.name == name {
          found, taken := found + [rec], taken + [key];
        }
        keys := keys - {key};
      }
      CollectedAll(rrsets, name, taken, found);
      list := Some(found);
    }

    /** The stub has no record ids: only the call itself can fail. */
    method GetRecordID(record: Record) returns (ok: bool)
      modifies this`faults, this`log
      ensures faults == Rest(old(faults)) && log == old(log) + [FindId(record)] && ok == !Faulty(old(faults))
    {
      ok := Called(FindId(record));
    }

    method PublishZone(zone: string) returns (ok: bool)
      modifies this`faults, this`log
      ensures faults == Rest(old(faults)) && log == old(log) + [Publish(zone)] && ok == !Faulty(old(faults))
    {
      ok := Called(Publish(zone));
    }

    method Called(ghost call: ApiCall) returns (ok: bool)
      modifies this`faults, this`log
      ensures faults == Rest(old(faults)) && log == old(log) + [call] && ok == !Faulty(old(faults))
    {
      ok := !Faulty(faults);
      faults, log := Rest(faults), log + [call];
    }
  }
}
