/** Types shared by every model: optional values, results, machine integers and
    the identifier patterns of the services. */
module Basics {

  datatype Option<+T> = None | Some(value: T)

  datatype Result<+T, +E> = Ok(value: T) | Err(error: E)

  newtype int64 = x: int | -0x8000_0000_0000_0000 <= x < 0x8000_0000_0000_0000
  newtype int32 = x: int | -0x8000_0000 <= x < 0x8000_0000

  const MAX_INT64: int64 := 0x7fff_ffff_ffff_ffff

  /** The value an int64 operation leaves: the exact result modulo 2^64. */
  function Wrap64(x: int): int64 {
    var m := x % 0x1_0000_0000_0000_0000;
    if m < 0x8000_0000_0000_0000 then m as int64 else (m - 0x1_0000_0000_0000_0000) as int64
  }

  lemma {:induction false} WrapExact(x: int)
    requires -0x8000_0000_0000_0000 <= x < 0x8000_0000_0000_0000
    ensures Wrap64(x) as int == x
  {
    if 0 <= x {
      assert x % 0x1_0000_0000_0000_0000 == x;
    } else {
      assert x % 0x1_0000_0000_0000_0000 == x + 0x1_0000_0000_0000_0000;
    }
  }

  // ------------------------------------------------------------ text normalisation

  /** White space as the standard library trims it. */
  predicate IsSpace(c: char) {
    || '\t' <= c <= '\r' || c == ' ' || c == '\U{85}' || c == '\U{A0}' || c == '\U{1680}'
    || '\U{2000}' <= c <= '\U{200A}' || c == '\U{2028}' || c == '\U{2029}' || c == '\U{202F}'
    || c == '\U{205F}' || c == '\U{3000}'
  }

  function TrimLeft(s: string): string {
    if s != [] && IsSpace(s[0]) then TrimLeft(s[1..]) else s
  }

  function TrimRight(s: string): string {
    if s != [] && IsSpace(s[|s| - 1]) then TrimRight(s[..|s| - 1]) else s
  }

  /** The capital of a letter whose capital is an ASCII letter; every other
      character is left as it is. Dotless i and long s are such letters. */
  function Capital(c: char): char {
    if 'a' <= c <= 'z' then ((c as int) - 32) as char
    else if c == '\U{131}' then 'I'
    else if c == '\U{17F}' then 'S'
    else c
  }

  function Capitals(s: string): string {
    seq(|s|, i requires 0 <= i < |s| => Capital(s[i]))
  }

  /** Trimmed on both sides, then capitalised. */
  function Normal(s: string): string {
    Capitals(TrimRight(TrimLeft(s)))
  }

  ghost predicate Trimmed(s: string) {
    s != [] ==> !IsSpace(s[0]) && !IsSpace(s[|s| - 1])
  }

  lemma {:induction false} TrimLeftStarts(s: string)
    ensures TrimLeft(s) != [] ==> !IsSpace(TrimLeft(s)[0])
  {
    if s != [] && IsSpace(s[0]) { TrimLeftStarts(s[1..]); }
  }

  lemma {:induction false} TrimRightEnds(s: string)
    requires s != [] ==> !IsSpace(s[0])
    ensures Trimmed(TrimRight(s))
  {
    if s != [] && IsSpace(s[|s| - 1]) { TrimRightEnds(s[..|s| - 1]); }
  }

  /** The text without the white space around it. */
  ghost predicate TrimsTo(s: string, i: nat, j: nat) {
    && i <= j <= |s| && (forall k :: 0 <= k < i ==> IsSpace(s[k])) && (forall k :: j <= k < |s| ==> IsSpace(s[k]))
    && Trimmed(s[i..j])
  }

  lemma {:induction false} TrimLeftAt(s: string) returns (i: nat)
    ensures i <= |s| && TrimLeft(s) == s[i..] && forall k :: 0 <= k < i ==> IsSpace(s[k])
  {
    if s != [] && IsSpace(s[0]) {
      i := TrimLeftAt(s[1..]);
      assert s[1..][i..] == s[i + 1..] && forall k :: 1 <= k < i + 1 ==> s[k] == s[1..][k - 1];
      i := i + 1;
    } else {
      i := 0;
      assert s[0..] == s;
    }
  }

  lemma {:induction false} TrimRightAt(s: string) returns (j: nat)
    ensures j <= |s| && TrimRight(s) == s[..j] && forall k :: j <= k < |s| ==> IsSpace(s[k])
  {
    var n := |s| - 1;
    if s != [] && IsSpace(s[n]) {
      j := TrimRightAt(s[..n]);
      assert s[..n][..j] == s[..j] && forall k :: j <= k < n ==> s[k] == s[..n][k];
    } else {
      j := |s|;
      assert s[..j] == s;
    }
  }

  /** Normal text is the text between the white space, with small letters made capital. */
  lemma {:induction false} NormalText(s: string) returns (i: nat, j: nat)
    ensures TrimsTo(s, i, j) && |Normal(s)| == j - i
    ensures forall k :: 0 <= k < j - i ==>
      && ('a' <= s[i + k] <= 'z' ==> Normal(s)[k] as int == s[i + k] as int - 'a' as int + 'A' as int)
      && (s[i + k] < 'a' || 'z' < s[i + k] < '\U{80}' ==> Normal(s)[k] == s[i + k])
  {
    TrimLeftStarts(s);
    TrimRightEnds(TrimLeft(s));
    i := TrimLeftAt(s);
    var m := TrimRightAt(s[i..]);
    j := i + m;
    assert s[i..][..m] == s[i..j] && forall k :: j <= k < |s| ==> s[k] == s[i..][k - i];
  }

  /** Normal text is left alone: normalising twice is normalising once. */
  lemma {:induction false} NormalTwice(s: string)
    ensures Normal(Normal(s)) == Normal(s)
  {
    TrimLeftStarts(s);
    TrimRightEnds(TrimLeft(s));
    var t := TrimRight(TrimLeft(s));
    assert Trimmed(Capitals(t));
    assert Capitals(Capitals(t)) == Capitals(t);
  }

  predicate Alphanumeric(c: char) {
    'A' <= c <= 'Z' || 'a' <= c <= 'z' || '0' <= c <= '9'
  }

  /** The pattern ^prefix[A-Za-z0-9]+$ of every public identifier. */
  predicate MatchesId(prefix: string, s: string) {
    |prefix| < |s| && prefix <= s && forall i :: |prefix| <= i < |s| ==> Alphanumeric(s[i])
  }

  /** The prefix followed by one or more letters and digits. */
  ghost predicate IsId(prefix: string, s: string) {
    exists rest :: rest != "" && s == prefix + rest && forall c :: c in rest ==>
      'A' <= c <= 'Z' || 'a' <= c <= 'z' || '0' <= c <= '9'
  }

  lemma {:induction false} IdExact(prefix: string, s: string)
    ensures MatchesId(prefix, s) <==> IsId(prefix, s)
  {
    if MatchesId(prefix, s) {
      var rest := s[|prefix|..];
      assert s == prefix + rest && forall i :: 0 <= i < |rest| ==> rest[i] == s[|prefix| + i];
    }
    if IsId(prefix, s) {
      var rest :| rest != "" && s == prefix + rest && forall c :: c in rest ==>
        'A' <= c <= 'Z' || 'a' <= c <= 'z' || '0' <= c <= '9';
      assert forall i :: |prefix| <= i < |s| ==> s[i] == rest[i - |prefix|] && rest[i - |prefix|] in rest;
    }
  }

  /** SQL COALESCE over a possibly absent new value. */
  function Coalesce<T>(given: Option<T>, stored: Option<T>): Option<T> {
    if given.Some? then given else stored
  }

  /** The empty string is stored as NULL. */
  function NullString(s: string): Option<string> {
    if s == "" then None else Some(s)
  }

  ghost predicate Distinct<T>(s: seq<T>) {
    forall i, j :: 0 <= i < j < |s| ==> s[i] != s[j]
  }

  ghost function Elements<T>(s: seq<T>): set<T> {
    set x | x in s
  }

  lemma {:induction false} DistinctCardinality<T>(s: seq<T>)
    requires Distinct(s)
    ensures |Elements(s)| == |s|
  {
    if s != [] {
      var n := |s| - 1;
      DistinctCardinality(s[..n]);
      assert Elements(s) == Elements(s[..n]) + {s[n]};
    }
  }

  lemma {:induction false} DistinctMultiset<T>(s: seq<T>)
    requires Distinct(s)
    ensures forall x :: multiset(s)[x] == if x in s then 1 else 0
  {
    if s != [] {
      var n := |s| - 1;
      DistinctMultiset(s[..n]);
      assert s == s[..n] + [s[n]];
    }
  }

  /** Two repetition-free lists of equal length, one contained in the other, are
      permutations of each other. */
  lemma {:induction false} Pigeonhole<T>(a: seq<T>, b: seq<T>)
    requires Distinct(a) && Distinct(b) && |a| == |b|
    requires forall x :: x in a ==> x in b
    ensures multiset(a) == multiset(b)
  {
    DistinctCardinality(a);
    DistinctCardinality(b);
    SameSizeSubset(Elements(a), Elements(b));
    DistinctMultiset(a);
    DistinctMultiset(b);
    forall x ensures (x in a) == (x in b) {
      assert x in Elements(a) <==> x in Elements(b);
    }
    assert forall x :: multiset(a)[x] == multiset(b)[x];
  }

  lemma {:induction false} SameSizeSubset<T>(a: set<T>, b: set<T>)
    requires a <= b && |a| == |b|
    ensures a == b
  {
    assert b == a + (b - a);
    assert |b - a| == 0;
  }
}
