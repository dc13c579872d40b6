/** The Dynect client: record URLs, and finding the id of a record among the URLs listed for a name. */
module DynectClient {
  import opened Strings
  import opened DynRecords

  function UrlPrefix(rtype: string, zone: string, fqdn: string): string {
    "/REST/" + rtype + "Record/" + zone + "/" + fqdn + "/"
  }

  /** The URL of a record in the listing. */
  function UrlOf(r: Record): string {
    UrlPrefix(r.rtype, r.zone, r.fqdn) + r.id
  }

  predicate SlashFree(s: string) { '/' !in s }

  predicate PlainParts(r: Record) {
    SlashFree(r.rtype) && SlashFree(r.zone) && SlashFree(r.fqdn) && SlashFree(r.id)
  }

  /** RecordFromURL: six parts, or nothing. */
  method RecordFromUrl(url: string) returns (record: Option<Record>)
    ensures record == ParsedUrl(url)
    ensures record.Some? <==> multiset(url)['/'] == 5
  {
    var parts := Split(url, '/');
    SplitCounts(url, '/');
    if |parts| != 6 {
      return None;
    }
    var rec := Record("", "", "", "", "", "", "");
    rec := rec.(zone := parts[3]);
    rec := rec.(fqdn := parts[4]);
    rec := rec.(id := parts[5]);
    rec := rec.(rtype := TrimSuffix(parts[2], "Record"));
    record := Some(rec);
  }

  function ParsedUrl(url: string): Option<Record> {
    var parts := Split(url, '/');
    if |parts| != 6 then None
    else Some(Record(parts[3], "", parts[4], TrimSuffix(parts[2], "Record"), "", "", parts[5]))
  }

  lemma SplitUrl(rtype: string, zone: string, fqdn: string, id: string)
    requires SlashFree(rtype) && SlashFree(zone) && SlashFree(fqdn) && SlashFree(id)
    ensures Split(UrlPrefix(rtype, zone, fqdn) + id, '/') == ["", "REST", rtype + "Record", zone, fqdn, id]
  {
    var kind := rtype + "Record";
    assert SlashFree(kind) by { assert SlashFree("Record"); }
    var t4 := fqdn + "/" + id;
    var t3 := zone + "/" + t4;
    var t2 := kind + "/" + t3;
    var t1 := "REST" + "/" + t2;
    UrlAssociates(rtype, zone, fqdn, id);
    SplitOfClean(id, '/');
    SplitOfPrefix(fqdn, id, '/');
    SplitOfPrefix(zone, t4, '/');
    SplitOfPrefix(kind, t3, '/');
    SplitOfPrefix("REST", t2, '/');
    SplitOfPrefix("", t1, '/');
  }

  lemma UrlAssociates(rtype: string, zone: string, fqdn: string, id: string)
    ensures UrlPrefix(rtype, zone, fqdn) + id
         == "" + "/" + ("REST" + "/" + ((rtype + "Record") + "/" + (zone + "/" + (fqdn + "/" + id))))
  {
    var tail := zone + "/" + (fqdn + "/" + id);
    assert zone + "/" + fqdn + "/" + id == tail;
    assert UrlPrefix(rtype, zone, fqdn) == ("/REST/" + rtype + "Record/") + (zone + "/" + fqdn + "/");
    assert UrlPrefix(rtype, zone, fqdn) + id == ("/REST/" + rtype + "Record/") + tail;
    assert "/REST/" + rtype + "Record/" == "/REST/" + (rtype + "Record") + "/";
    assert "" + "/" + ("REST" + "/" + ((rtype + "Record") + "/" + tail)) == "/REST/" + (rtype + "Record") + "/" + tail;
  }

  /** Parsing inverts printing. */
  lemma ParseOfUrl(r: Record)
    requires PlainParts(r)
    ensures ParsedUrl(UrlOf(r)) == Some(Record(r.zone, "", r.fqdn, r.rtype, "", "", r.id))
  {
    SplitUrl(r.rtype, r.zone, r.fqdn, r.id);
    SuffixOfConcat(r.rtype, "Record");
  }

  // ---------------------------------------------------------------- finding an id

  /** What the client extracts from a URL: an id, or something that is none. */
  function Candidate(record: Record, url: string): string {
    TrimPrefix(url, UrlPrefix(record.rtype, record.zone, record.fqdn))
  }

  predicate Accepted(record: Record, url: string, value: string) {
    SlashFree(Candidate(record, url)) && Candidate(record, url) != "" && value == record.value
  }

  datatype Search = Found(id: string) | NotFound | FetchFailed | BadUrl

  /** GetRecordID: the listed URLs in order; `fetch` gives the value stored for a parsed record. */
  method GetRecordID(record: Record, urls: seq<string>, fetch: Record -> Option<string>) returns (search: Search)
    ensures search == SearchFrom(record, urls, fetch)
  {
    for i := 0 to |urls|
      invariant SearchFrom(record, urls, fetch) == SearchFrom(record, urls[i..], fetch)
    {
      var rec := RecordFromUrl(urls[i]);
      if rec.None? {
        return BadUrl;
      }
      var value := fetch(rec.value);
      if value.None? {
        return FetchFailed;
      }
      var id := TrimPrefix(urls[i], UrlPrefix(record.rtype, record.zone, record.fqdn));
      if '/' !in id && id != "" && value.value == record.value {
        return Found(id);
      }
      assert urls[i..][1..] == urls[i + 1..];
    }
    search := NotFound;
  }

  function SearchFrom(record: Record, urls: seq<string>, fetch: Record -> Option<string>): Search {
    if urls == [] then NotFound
    else match ParsedUrl(urls[0])
         case None => BadUrl
         case Some(rec) =>
           match fetch(rec)
           case None => FetchFailed
           case Some(value) =>
             if Accepted(record, urls[0], value) then Found(Candidate(record, urls[0]))
             else SearchFrom(record, urls[1..], fetch)
  }

  /** For a printed URL the extraction succeeds exactly on the requested type, zone and name, and
      gives the record's id. */
  lemma CandidateExactly(record: Record, r: Record)
    requires PlainParts(record) && PlainParts(r)
    ensures SlashFree(Candidate(record, UrlOf(r)))
       <==> r.rtype == record.rtype && r.zone == record.zone && r.fqdn == record.fqdn
    ensures SlashFree(Candidate(record, UrlOf(r))) ==> Candidate(record, UrlOf(r)) == r.id
  {
    var prefix := UrlPrefix(record.rtype, record.zone, record.fqdn);
    var url := UrlOf(r);
    SplitUrl(r.rtype, r.zone, r.fqdn, r.id);
    assert url[0] == '/';
    if prefix <= url && SlashFree(url[|prefix|..]) {
      var id := url[|prefix|..];
      assert url == prefix + id;
      SplitUrl(record.rtype, record.zone, record.fqdn, id);
      var parts := Split(url, '/');
      assert parts[2] == r.rtype + "Record" == record.rtype + "Record";
      SuffixOfConcat(r.rtype, "Record");
      SuffixOfConcat(record.rtype, "Record");
    }
  }

  /** A URL that names the record: its type, zone and name, and a non-empty id. */
  predicate Names(record: Record, url: string, id: string) {
    && url == "/REST/" + record.rtype + "Record/" + record.zone + "/" + record.fqdn + "/" + id
    && id != "" && SlashFree(id)
  }

  /** What a listed URL makes of the search: a URL that does not have six parts or whose record cannot
      be fetched ends it, one that names the record with the right value gives the id. */
  predicate Decides(record: Record, url: string, fetch: Record -> Option<string>, verdict: Search) {
    match ParsedUrl(url)
    case None => verdict == BadUrl
    case Some(rec) =>
      if fetch(rec).None? then verdict == FetchFailed
      else verdict.Found? && fetch(rec).value == record.value && Names(record, url, verdict.id)
  }

  lemma NamesExactly(record: Record, url: string, id: string)
    requires '/' in url
    ensures SlashFree(Candidate(record, url)) && Candidate(record, url) == id != "" <==> Names(record, url, id)
  {
    var prefix := UrlPrefix(record.rtype, record.zone, record.fqdn);
    if prefix <= url {
      assert url == prefix + url[|prefix|..];
    }
    if Names(record, url, id) {
      assert url == prefix + id;
    }
  }

  lemma SearchOne(record: Record, urls: seq<string>, fetch: Record -> Option<string>)
    requires urls != []
    ensures var search := SearchFrom(record, urls, fetch);
            || Decides(record, urls[0], fetch, search)
            || (Undecided(record, urls[0], fetch) && search == SearchFrom(record, urls[1..], fetch))
    ensures !Decides(record, urls[0], fetch, NotFound)
  {
    SplitCounts(urls[0], '/');
    if ParsedUrl(urls[0]).Some? {
      NamesExactly(record, urls[0], Candidate(record, urls[0]));
      forall id { NamesExactly(record, urls[0], id); }
    }
  }

  ghost predicate FirstDecides(record: Record, urls: seq<string>, fetch: Record -> Option<string>, verdict: Search,
                               k: int) {
    && 0 <= k < |urls| && Decides(record, urls[k], fetch, verdict)
    && forall j :: 0 <= j < k ==> Undecided(record, urls[j], fetch)
  }

  ghost predicate Undecided(record: Record, url: string, fetch: Record -> Option<string>) {
    forall v :: !Decides(record, url, fetch, v)
  }

  /** For any listing: the first URL that decides gives the result, and nothing is found exactly when
      none decides. */
  lemma {:induction false} FindsTheFirst(record: Record, urls: seq<string>, fetch: Record -> Option<string>)
    ensures var search := SearchFrom(record, urls, fetch);
            && (search == NotFound <==> forall j :: 0 <= j < |urls| ==> Undecided(record, urls[j], fetch))
            && (search != NotFound ==> exists k :: FirstDecides(record, urls, fetch, search, k))
  {
    if urls != [] {
      SearchOne(record, urls, fetch);
      FindsTheFirst(record, urls[1..], fetch);
      if Decides(record, urls[0], fetch, SearchFrom(record, urls, fetch)) {
        assert FirstDecides(record, urls, fetch, SearchFrom(record, urls, fetch), 0);
      } else {
        DecidedLater(record, urls, fetch);
      }
    }
  }

  lemma DecidedLater(record: Record, urls: seq<string>, fetch: Record -> Option<string>)
    requires urls != [] && Undecided(record, urls[0], fetch)
    ensures (forall j :: 0 <= j < |urls| ==> Undecided(record, urls[j], fetch))
       <==> forall j :: 0 <= j < |urls[1..]| ==> Undecided(record, urls[1..][j], fetch)
    ensures forall v, k :: FirstDecides(record, urls[1..], fetch, v, k) ==> FirstDecides(record, urls, fetch, v, k + 1)
  {
    var rest := urls[1..];
    assert forall j :: 0 < j < |urls| ==> urls[j] == rest[j - 1];
    forall v, k | FirstDecides(record, rest, fetch, v, k)
      ensures FirstDecides(record, urls, fetch, v, k + 1)
    {
      forall j | 0 <= j < k + 1
        ensures Undecided(record, urls[j], fetch)
      {
        assert j > 0 ==> urls[j] == rest[j - 1];
      }
    }
  }
}
