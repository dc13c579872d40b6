/** The DNS names of an ingress: one per zone, one per region, one global name. */
module Names {
  import opened Strings

  datatype Config = Config(federation: string, suffix: string, domain: string)

  /** A level of the name tree. */
  datatype Place = ZonePlace(zone: string, region: string) | RegionPlace(region: string) | GlobalPlace

  function CommonPrefix(cfg: Config, ingress: string, namespace: string): string {
    ingress + "." + namespace + "." + cfg.federation + "." + cfg.suffix
  }

  function Labels(place: Place): seq<string> {
    match place
    case ZonePlace(z, r) => [z, r]
    case RegionPlace(r) => [r]
    case GlobalPlace => []
  }

  /** The entries of dnsNames: the labels joined by dots, between the common prefix and the domain. */
  function DnsName(cfg: Config, ingress: string, namespace: string, place: Place): string {
    Join([CommonPrefix(cfg, ingress, namespace)] + Labels(place) + [cfg.domain], '.')
  }

  /** Everything before the domain. */
  function Stem(cfg: Config, ingress: string, namespace: string, place: Place): string {
    var prefix := CommonPrefix(cfg, ingress, namespace);
    match place
    case ZonePlace(z, r) => prefix + "." + z + "." + r
    case RegionPlace(r) => prefix + "." + r
    case GlobalPlace => prefix
  }

  lemma NameFromStem(cfg: Config, ingress: string, namespace: string, place: Place)
    ensures DnsName(cfg, ingress, namespace, place) == Stem(cfg, ingress, namespace, place) + "." + cfg.domain
  {
    var prefix := CommonPrefix(cfg, ingress, namespace);
    match place
    case ZonePlace(z, r) =>
      JoinCons(prefix, [z, r, cfg.domain], '.');
      JoinCons(z, [r, cfg.domain], '.');
      JoinCons(r, [cfg.domain], '.');
      assert [prefix] + [z, r] + [cfg.domain] == [prefix] + [z, r, cfg.domain];
    case RegionPlace(r) =>
      JoinCons(prefix, [r, cfg.domain], '.');
      JoinCons(r, [cfg.domain], '.');
      assert [prefix] + [r] + [cfg.domain] == [prefix] + [r, cfg.domain];
    case GlobalPlace =>
      JoinCons(prefix, [cfg.domain], '.');
      assert [prefix] + [] + [cfg.domain] == [prefix] + [cfg.domain];
  }

  predicate DotFree(part: string) { '.' !in part }

  predicate DotFreePlace(place: Place) {
    forall part :: part in Labels(place) ==> DotFree(part)
  }

  lemma LastDot(u: string, v: string)
    requires DotFree(v)
    ensures var s := u + "." + v; s[|u|] == '.' && forall i :: |u| < i < |s| ==> s[i] != '.'
  {
    var s := u + "." + v;
    forall i | |u| < i < |s|
      ensures s[i] != '.'
    {
      assert s[i] == v[i - |u| - 1] && s[i] in v;
    }
  }

  /** The last label of a dotted name is unique. */
  lemma LastLabel(u: string, v: string, u': string, v': string)
    requires u + "." + v == u' + "." + v' && DotFree(v) && DotFree(v')
    ensures u == u' && v == v'
  {
    var s, s' := u + "." + v, u' + "." + v';
    LastDot(u, v);
    LastDot(u', v');
    assert |u| == |u'|;
    assert v == s[|u| + 1..] && v' == s'[|u'| + 1..];
    assert u == s[..|u|] && u' == s'[..|u'|];
  }

  lemma SameStem(cfg: Config, i: string, n: string, p: Place, i': string, n': string, p': Place)
    requires DnsName(cfg, i, n, p) == DnsName(cfg, i', n', p')
    ensures Stem(cfg, i, n, p) == Stem(cfg, i', n', p')
  {
    NameFromStem(cfg, i, n, p);
    NameFromStem(cfg, i', n', p');
    var t, t' := Stem(cfg, i, n, p), Stem(cfg, i', n', p');
    assert (t + "." + cfg.domain)[..|t|] == t && (t' + "." + cfg.domain)[..|t'|] == t';
  }

  /** Within one ingress, different places have different names as soon as labels have no dot. */
  lemma PlacesDistinct(cfg: Config, ingress: string, namespace: string, p: Place, p': Place)
    requires DotFreePlace(p) && DotFreePlace(p')
    requires DnsName(cfg, ingress, namespace, p) == DnsName(cfg, ingress, namespace, p')
    ensures p == p'
  {
    SameStem(cfg, ingress, namespace, p, ingress, namespace, p');
    var prefix := CommonPrefix(cfg, ingress, namespace);
    match (p, p')
    case (ZonePlace(z, r), ZonePlace(z', r')) =>
      LastLabel(prefix + "." + z, r, prefix + "." + z', r');
      LastLabel(prefix, z, prefix, z');
    case (RegionPlace(r), RegionPlace(r')) =>
      LastLabel(prefix, r, prefix, r');
    case (ZonePlace(z, r), RegionPlace(r')) =>
      LastLabel(prefix + "." + z, r, prefix, r');
    case (RegionPlace(r), ZonePlace(z', r')) =>
      LastLabel(prefix, r, prefix + "." + z', r');
    case _ =>
  }

  /** What a name has between the namespace and the labels of its place. */
  function Root(cfg: Config): string { "." + cfg.federation + "." + cfg.suffix }

  /** The place's labels complete the root to something that ends in the root again. */
  predicate Ambiguous(cfg: Config, place: Place) {
    match place
    case ZonePlace(z, r) =>
      HasSuffix(Root(cfg) + "." + z + "." + r, Root(cfg)) || HasSuffix(Root(cfg) + "." + z, Root(cfg))
    case RegionPlace(r) => HasSuffix(Root(cfg) + "." + r, Root(cfg))
    case GlobalPlace => false
  }

  /** In terms of labels: a region named like suffix and federation; a zone and region named like
      federation and suffix; a zone named like suffix and federation. */
  lemma AmbiguousLabels(cfg: Config, place: Place)
    requires DotFree(cfg.federation) && DotFree(cfg.suffix) && DotFreePlace(place)
    ensures Ambiguous(cfg, place) <==>
              match place
              case ZonePlace(z, r) =>
                (z == cfg.federation && r == cfg.suffix) || (z == cfg.suffix && cfg.suffix == cfg.federation)
              case RegionPlace(r) => r == cfg.suffix && cfg.suffix == cfg.federation
              case GlobalPlace => false
  {
    match place
    case ZonePlace(z, r) =>
      assert z in Labels(place) && r in Labels(place);
      RootAfterOne(cfg, z);
      RootAfterTwo(cfg, z, r);
    case RegionPlace(r) =>
      assert r in Labels(place);
      RootAfterOne(cfg, r);
    case GlobalPlace =>
  }

  lemma RootAfterOne(cfg: Config, v: string)
    requires DotFree(cfg.federation) && DotFree(cfg.suffix) && DotFree(v)
    ensures HasSuffix(Root(cfg) + "." + v, Root(cfg)) <==> v == cfg.suffix && cfg.suffix == cfg.federation
  {
    var whole := Root(cfg) + "." + v;
    SuffixOfConcat("." + cfg.suffix, Root(cfg));
    assert v == cfg.suffix && cfg.suffix == cfg.federation ==> whole == "." + cfg.suffix + Root(cfg);
    if HasSuffix(whole, Root(cfg)) {
      var front := TrimSuffix(whole, Root(cfg));
      TrimmedSuffix(whole, Root(cfg));
      assert whole == (front + "." + cfg.federation) + "." + cfg.suffix;
      LastLabel(Root(cfg), v, front + "." + cfg.federation, cfg.suffix);
      LastLabel("." + cfg.federation, cfg.suffix, front, cfg.federation);
    }
  }

  lemma RootAfterTwo(cfg: Config, z: string, r: string)
    requires DotFree(cfg.federation) && DotFree(cfg.suffix) && DotFree(z) && DotFree(r)
    ensures HasSuffix(Root(cfg) + "." + z + "." + r, Root(cfg)) <==> z == cfg.federation && r == cfg.suffix
  {
    var whole := Root(cfg) + "." + z + "." + r;
    SuffixOfConcat(Root(cfg), Root(cfg));
    assert z == cfg.federation && r == cfg.suffix ==> whole == Root(cfg) + Root(cfg);
    if HasSuffix(whole, Root(cfg)) {
      var front := TrimSuffix(whole, Root(cfg));
      TrimmedSuffix(whole, Root(cfg));
      assert whole == (front + "." + cfg.federation) + "." + cfg.suffix;
      LastLabel(Root(cfg) + "." + z, r, front + "." + cfg.federation, cfg.suffix);
      LastLabel(Root(cfg), z, front, cfg.federation);
    }
  }

  lemma PrefixDecodes(cfg: Config, i: string, n: string, i': string, n': string)
    requires DotFree(n) && DotFree(n') && CommonPrefix(cfg, i, n) == CommonPrefix(cfg, i', n')
    ensures i == i' && n == n'
  {
    var tail := "." + cfg.federation + "." + cfg.suffix;
    var head, head' := i + "." + n, i' + "." + n';
    assert CommonPrefix(cfg, i, n) == head + tail && CommonPrefix(cfg, i', n') == head' + tail;
    assert (head + tail)[..|head|] == head && (head' + tail)[..|head'|] == head';
    LastLabel(i, n, i', n');
  }

  lemma PrefixOfRoot(cfg: Config, i: string, n: string)
    ensures CommonPrefix(cfg, i, n) == (i + "." + n) + Root(cfg)
  {
  }

  lemma Regroup(a: string, b: string, c: string)
    ensures a + b + c == a + (b + c)
  {
  }

  /** If a prefix with labels appended is another prefix, the labels complete the root to the root. */
  lemma LongerPrefix(cfg: Config, i: string, n: string, i': string, n': string, labels: string)
    requires CommonPrefix(cfg, i, n) + labels == CommonPrefix(cfg, i', n')
    ensures HasSuffix(Root(cfg) + labels, Root(cfg))
  {
    PrefixOfRoot(cfg, i, n);
    PrefixOfRoot(cfg, i', n');
    Regroup(i + "." + n, Root(cfg), labels);
    SuffixOfLonger(i + "." + n, Root(cfg) + labels, i' + "." + n', Root(cfg));
  }

  lemma SuffixOfLonger(a: string, long: string, b: string, short: string)
    requires a + long == b + short && |short| <= |long|
    ensures HasSuffix(long, short)
  {
    assert (a + long)[|a| + |long| - |short|..] == long[|long| - |short|..];
    assert (b + short)[|b|..] == short;
  }

  /** Names decode uniquely, for any federation and suffix: ingresses, namespaces and places that differ
      never share a name unless one of the places is ambiguous. */
  lemma UniquelyDecodable(cfg: Config, i: string, n: string, p: Place, i': string, n': string, p': Place)
    requires DotFree(n) && DotFree(n') && DotFreePlace(p) && DotFreePlace(p')
    requires !Ambiguous(cfg, p) && !Ambiguous(cfg, p')
    requires DnsName(cfg, i, n, p) == DnsName(cfg, i', n', p')
    ensures i == i' && n == n' && p == p'
  {
    if |Labels(p)| <= |Labels(p')| {
      SharedName(cfg, i, n, p, i', n', p');
    } else {
      SharedName(cfg, i', n', p', i, n, p);
    }
  }

  /** A shared name: the same ingress, namespace and place, or the longer place is ambiguous. */
  lemma SharedName(cfg: Config, i: string, n: string, p: Place, i': string, n': string, p': Place)
    requires DotFree(n) && DotFree(n') && DotFreePlace(p) && DotFreePlace(p') && |Labels(p)| <= |Labels(p')|
    requires DnsName(cfg, i, n, p) == DnsName(cfg, i', n', p')
    ensures if |Labels(p)| == |Labels(p')| then i == i' && n == n' && p == p' else Ambiguous(cfg, p')
  {
    SameStem(cfg, i, n, p, i', n', p');
    var prefix, prefix' := CommonPrefix(cfg, i, n), CommonPrefix(cfg, i', n');
    match (p, p')
    case (GlobalPlace, GlobalPlace) =>
      PrefixDecodes(cfg, i, n, i', n');
    case (RegionPlace(r), RegionPlace(r')) =>
      LastLabel(prefix, r, prefix', r');
      PrefixDecodes(cfg, i, n, i', n');
    case (ZonePlace(z, r), ZonePlace(z', r')) =>
      LastLabel(prefix + "." + z, r, prefix' + "." + z', r');
      LastLabel(prefix, z, prefix', z');
      PrefixDecodes(cfg, i, n, i', n');
    case (GlobalPlace, RegionPlace(r')) =>
      Appended(cfg, i', n', i, n, r');
    case (GlobalPlace, ZonePlace(z', r')) =>
      AppendedTwo(cfg, i', n', i, n, z', r');
    case (RegionPlace(r), ZonePlace(z', r')) =>
      LastLabel(prefix, r, prefix' + "." + z', r');
      Appended(cfg, i', n', i, n, z');
  }

  lemma Appended(cfg: Config, i: string, n: string, i': string, n': string, part: string)
    requires CommonPrefix(cfg, i, n) + "." + part == CommonPrefix(cfg, i', n')
    ensures HasSuffix(Root(cfg) + "." + part, Root(cfg))
  {
    Regroup(CommonPrefix(cfg, i, n), ".", part);
    Regroup(Root(cfg), ".", part);
    LongerPrefix(cfg, i, n, i', n', "." + part);
  }

  lemma AppendedTwo(cfg: Config, i: string, n: string, i': string, n': string, z: string, r: string)
    requires CommonPrefix(cfg, i, n) + "." + z + "." + r == CommonPrefix(cfg, i', n')
    ensures HasSuffix(Root(cfg) + "." + z + "." + r, Root(cfg))
  {
    RegroupTwo(CommonPrefix(cfg, i, n), z, r);
    RegroupTwo(Root(cfg), z, r);
    LongerPrefix(cfg, i, n, i', n', "." + z + "." + r);
  }

  lemma RegroupTwo(a: string, z: string, r: string)
    ensures a + "." + z + "." + r == a + ("." + z + "." + r)
  {
  }

  /** An ambiguous place of any ingress shares its name with a place further up of some ingress. */
  lemma AmbiguousExactly(cfg: Config, i: string, n: string, p: Place)
    requires DotFree(n) && DotFreePlace(p)
    ensures Ambiguous(cfg, p) <==> exists i', n', p' :: SharesUpwards(cfg, i, n, p, i', n', p')
  {
    if Ambiguous(cfg, p) {
      var i', n', p' := HigherPlace(cfg, i, n, p);
    }
    if i', n', p' :| SharesUpwards(cfg, i, n, p, i', n', p') {
      SharedName(cfg, i', n', p', i, n, p);
    }
  }

  ghost predicate SharesUpwards(cfg: Config, i: string, n: string, p: Place, i': string, n': string, p': Place) {
    && DotFree(n') && DotFreePlace(p') && |Labels(p')| < |Labels(p)|
    && DnsName(cfg, i, n, p) == DnsName(cfg, i', n', p')
  }

  lemma SharedStem(cfg: Config, i: string, n: string, p: Place, i': string, n': string, p': Place)
    requires Stem(cfg, i, n, p) == Stem(cfg, i', n', p') && DotFree(n') && DotFreePlace(p')
    requires |Labels(p')| < |Labels(p)|
    ensures SharesUpwards(cfg, i, n, p, i', n', p')
  {
    NameFromStem(cfg, i, n, p);
    NameFromStem(cfg, i', n', p');
  }

  lemma HigherPlace(cfg: Config, i: string, n: string, p: Place) returns (i': string, n': string, p': Place)
    requires DotFreePlace(p) && Ambiguous(cfg, p)
    ensures SharesUpwards(cfg, i, n, p, i', n', p')
  {
    match p
    case ZonePlace(z, r) =>
      assert r in Labels(p);
      if HasSuffix(Root(cfg) + "." + z + "." + r, Root(cfg)) {
        RegroupTwo(Root(cfg), z, r);
        RegroupTwo(CommonPrefix(cfg, i, n), z, r);
        i', n' := Twin(cfg, i, n, "." + z + "." + r);
        p' := GlobalPlace;
      } else {
        i', n' := TwinOf(cfg, i, n, z);
        p' := RegionPlace(r);
      }
      SharedStem(cfg, i, n, p, i', n', p');
    case RegionPlace(r) =>
      i', n' := TwinOf(cfg, i, n, r);
      p' := GlobalPlace;
      SharedStem(cfg, i, n, p, i', n', p');
  }

  lemma TwinOf(cfg: Config, i: string, n: string, part: string) returns (i': string, n': string)
    requires HasSuffix(Root(cfg) + "." + part, Root(cfg))
    ensures DotFree(n') && CommonPrefix(cfg, i', n') == CommonPrefix(cfg, i, n) + "." + part
  {
    Regroup(Root(cfg), ".", part);
    Regroup(CommonPrefix(cfg, i, n), ".", part);
    i', n' := Twin(cfg, i, n, "." + part);
  }

  /** The ingress and namespace whose prefix is this prefix with the labels appended. */
  lemma Twin(cfg: Config, i: string, n: string, labels: string) returns (i': string, n': string)
    requires labels != "" && HasSuffix(Root(cfg) + labels, Root(cfg))
    ensures DotFree(n') && CommonPrefix(cfg, i', n') == CommonPrefix(cfg, i, n) + labels
  {
    var root, head := Root(cfg), i + "." + n;
    var front := TrimSuffix(root + labels, root);
    TrimmedSuffix(root + labels, root);
    assert head[|i|] == '.' && (head + front)[|i|] == '.';
    i', n' := SplitAtLastDot(head + front);
    PrefixOfRoot(cfg, i, n);
    PrefixOfRoot(cfg, i', n');
    Regroup(head, root, labels);
    Regroup(head, front, root);
  }

  lemma {:induction false} SplitAtLastDot(s: string) returns (u: string, v: string)
    requires '.' in s
    ensures s == u + "." + v && DotFree(v)
  {
    var last := |s| - 1;
    if s[last] == '.' {
      u, v := s[..last], "";
    } else {
      assert s == s[..last] + [s[last]];
      u, v := SplitAtLastDot(s[..last]);
      v := v + [s[last]];
    }
  }
}
