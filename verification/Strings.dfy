/** The string operations of the Go standard library that the controllers rely on:
    splitting and joining on a separator, suffixes and prefixes, and decimal integers. */
module Strings {

  datatype Option<+T> = None | Some(value: T)

  // ---------------------------------------------------------------- sequences of sequences

  function Flatten<T>(parts: seq<seq<T>>): seq<T> {
    if parts == [] then [] else Flatten(parts[..|parts| - 1]) + parts[|parts| - 1]
  }

  lemma Associates<T>(a: seq<T>, b: seq<T>, c: seq<T>)
    ensures a + b + c == a + (b + c)
  {
  }

  lemma {:induction false} FlattenAppend<T>(a: seq<seq<T>>, b: seq<seq<T>>)
    ensures Flatten(a + b) == Flatten(a) + Flatten(b)
  {
    if b == [] {
      assert a + b == a;
    } else {
      var n := |b| - 1;
      FlattenAppend(a, b[..n]);
      assert (a + b)[..|a + b| - 1] == a + b[..n] && (a + b)[|a + b| - 1] == b[n];
      Associates(Flatten(a), Flatten(b[..n]), b[n]);
      assert Flatten(a + b) == Flatten(a + b[..n]) + b[n];
    }
  }

  lemma FlattenOne<T>(part: seq<T>)
    ensures Flatten([part]) == part
  {
    assert [part][..0] == [];
  }

  // ---------------------------------------------------------------- split and join

  /** strings.Split for a one-character separator; splitting "" gives one empty part. */
  function Split(s: string, sep: char): (parts: seq<string>)
    ensures |parts| >= 1
  {
    if s == "" then [""]
    else
      var rest := Split(s[1..], sep);
      if s[0] == sep then [""] + rest else [[s[0]] + rest[0]] + rest[1..]
  }

  /** strings.Join for a one-character separator. */
  function Join(parts: seq<string>, sep: char): string {
    if |parts| == 0 then ""
    else if |parts| == 1 then parts[0]
    else parts[0] + [sep] + Join(parts[1..], sep)
  }

  lemma JoinCons(part: string, parts: seq<string>, sep: char)
    requires parts != []
    ensures Join([part] + parts, sep) == part + [sep] + Join(parts, sep)
  {
    assert ([part] + parts)[1..] == parts;
  }

  lemma {:induction false} JoinOfSplit(s: string, sep: char)
    ensures Join(Split(s, sep), sep) == s
  {
    if s != "" {
      var rest := Split(s[1..], sep);
      JoinOfSplit(s[1..], sep);
      var parts := Split(s, sep);
      if s[0] == sep {
        assert parts[1..] == rest;
      } else {
        assert parts[1..] == rest[1..];
      }
      assert s == [s[0]] + s[1..];
    }
  }

  lemma {:induction false} SplitOfClean(s: string, sep: char)
    requires sep !in s
    ensures Split(s, sep) == [s]
  {
    if s != "" {
      SplitOfClean(s[1..], sep);
      assert [s[0]] + s[1..] == s;
    }
  }

  lemma {:induction false} SplitOfPrefix(p: string, s: string, sep: char)
    requires sep !in p
    ensures Split(p + [sep] + s, sep) == [p] + Split(s, sep)
  {
    var t := p + [sep] + s;
    if p == "" {
      assert t == [sep] + s && t[1..] == s;
    } else {
      assert t[1..] == p[1..] + [sep] + s;
      SplitOfPrefix(p[1..], s, sep);
      assert [p[0]] + p[1..] == p;
    }
  }

  lemma {:induction false} SplitOfJoin(parts: seq<string>, sep: char)
    requires |parts| >= 1 && forall p :: p in parts ==> sep !in p
    ensures Split(Join(parts, sep), sep) == parts
  {
    if |parts| == 1 {
      SplitOfClean(parts[0], sep);
    } else {
      SplitOfJoin(parts[1..], sep);
      SplitOfPrefix(parts[0], Join(parts[1..], sep), sep);
    }
  }

  lemma {:induction false} SplitIsSingle(s: string, sep: char)
    ensures |Split(s, sep)| == 1 <==> sep !in s
  {
    if sep !in s {
      SplitOfClean(s, sep);
    } else {
      SplitOfMany(s, sep);
    }
  }

  /** One more part than there are separators. */
  lemma {:induction false} SplitCounts(s: string, sep: char)
    ensures |Split(s, sep)| == multiset(s)[sep] + 1
  {
    if s != "" {
      SplitCounts(s[1..], sep);
      assert s == [s[0]] + s[1..];
    }
  }

  lemma {:induction false} SplitOfMany(s: string, sep: char)
    requires sep in s
    ensures |Split(s, sep)| >= 2
  {
    if s[0] != sep {
      SplitOfMany(s[1..], sep);
    }
  }

  // ---------------------------------------------------------------- suffixes and prefixes

  predicate HasSuffix(s: string, t: string) {
    |t| <= |s| && s[|s| - |t|..] == t
  }

  function TrimSuffix(s: string, t: string): string {
    if HasSuffix(s, t) then s[..|s| - |t|] else s
  }

  function TrimPrefix(s: string, t: string): string {
    if t <= s then s[|t|..] else s
  }

  lemma SuffixOfConcat(p: string, t: string)
    ensures HasSuffix(p + t, t) && TrimSuffix(p + t, t) == p
  {
  }

  lemma TrimmedSuffix(s: string, t: string)
    requires HasSuffix(s, t)
    ensures s == TrimSuffix(s, t) + t
  {
  }

  predicate Digit(c: char) { '0' <= c <= '9' }
  predicate AllDigits(s: string) { forall i :: 0 <= i < |s| ==> Digit(s[i]) }

  // ---------------------------------------------------------------- decimal integers

  const MAX_INT64 := 0x7fff_ffff_ffff_ffff
  const MIN_INT64 := -0x8000_0000_0000_0000

  function DigitChar(d: nat): char
    requires d < 10
  {
    '0' + d as char
  }

  function Digits(n: nat): (s: string)
    ensures |s| >= 1 && AllDigits(s)
  {
    if n < 10 then [DigitChar(n)] else Digits(n / 10) + [DigitChar(n % 10)]
  }

  /** strconv.FormatInt(n, 10) */
  function FormatInt(n: int): string {
    if n < 0 then "-" + Digits(-n) else Digits(n)
  }

  function Magnitude(s: string): (n: int)
    requires AllDigits(s)
    ensures n >= 0
  {
    if s == "" then 0
    else Magnitude(s[..|s| - 1]) * 10 + (s[|s| - 1] as int - '0' as int)
  }

  /** strconv.ParseInt(s, 10, 64): optional sign, at least one digit, 64-bit range. */
  function ParseInt(s: string): Option<int> {
    var negative := |s| > 0 && s[0] == '-';
    var body := if |s| > 0 && (s[0] == '-' || s[0] == '+') then s[1..] else s;
    if body == "" || !AllDigits(body) then None
    else
      var value := if negative then -Magnitude(body) else Magnitude(body);
      if MIN_INT64 <= value <= MAX_INT64 then Some(value) else None
  }

  lemma {:induction false} MagnitudeOfDigits(n: nat)
    ensures Magnitude(Digits(n)) == n
  {
    var s := Digits(n);
    if n < 10 {
      assert s[..0] == "";
    } else {
      MagnitudeOfDigits(n / 10);
      assert s[..|s| - 1] == Digits(n / 10);
    }
  }

  /** Digits parse with or without a sign; anything else does not parse. */
  lemma ParseForms(digits: string)
    requires digits != "" && AllDigits(digits) && Magnitude(digits) <= MAX_INT64
    ensures ParseInt(digits) == ParseInt("+" + digits) == Some(Magnitude(digits))
    ensures ParseInt("-" + digits) == Some(-Magnitude(digits))
  {
    assert Digit(digits[0]);
    assert ("+" + digits)[1..] == digits && ("-" + digits)[1..] == digits;
  }

  lemma ParseRejects(s: string)
    requires s == "" || s == "-" || s == "+" || exists i :: 0 < i < |s| && !Digit(s[i])
    ensures ParseInt(s) == None
  {
    if i :| 0 < i < |s| && !Digit(s[i]) {
      assert s[1..][i - 1] == s[i];
    }
  }

  lemma {:induction false} ParseOfFormat(n: int)
    requires MIN_INT64 <= n <= MAX_INT64
    ensures ParseInt(FormatInt(n)) == Some(n)
  {
    var digits := Digits(if n < 0 then -n else n);
    MagnitudeOfDigits(if n < 0 then -n else n);
    assert Digit(digits[0]);
    if n < 0 {
      assert FormatInt(n) == "-" + digits && FormatInt(n)[0] == '-' && FormatInt(n)[1..] == digits;
    } else {
      assert FormatInt(n) == digits && digits[0] != '-' && digits[0] != '+';
    }
  }
}
