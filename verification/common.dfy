/** Vocabulary shared by the client and the server models: optional values,
    the JavaScript notion of a "truthy" string, ASCII case mapping, substring
    search, whitespace trimming, and filtering and sorting of sequences. */
module Common {

  /** A value that may be absent: `null`/`undefined` in JavaScript, `None` in Python. */
  datatype Option<+T> = None | Some(value: T) {
    function GetOr(default: T): T {
      match this
      case Some(v) => v
      case None => default
    }
  }

  /** A field of a JSON request body: left out, sent as `null`, or sent with a value. */
  datatype Sent<+T> = Omitted | Null | Given(value: T)

  /** The outcome of an operation that may be refused with an error. */
  datatype Result<+T, +E> = Ok(value: T) | Err(error: E) {
    predicate IsFailure() {
      Err?
    }

    function PropagateFailure<U>(): Result<U, E>
      requires Err?
    {
      Err(error)
    }

    function Extract(): T
      requires Ok?
    {
      value
    }

    function MapError<F>(f: E -> F): Result<T, F> {
      match this
      case Ok(v) => Ok(v)
      case Err(e) => Err(f(e))
    }
  }

  /** A string-or-null is "truthy" in JavaScript when it is present and non-empty. */
  predicate Truthy(o: Option<string>) {
    o.Some? && o.value != ""
  }

  /** `a || b` on two strings where `a` may be missing: the first truthy one, else `b`. */
  function OrElse(a: Option<string>, b: string): (r: string)
    ensures Truthy(a) ==> r == a.value
    ensures !Truthy(a) ==> r == b
  {
    if a.Some? && a.value != "" then a.value else b
  }

  // ---------------------------------------------------------------------
  // Case mapping (ASCII letters only)
  // ---------------------------------------------------------------------

  function LowerChar(c: char): char {
    if 'A' <= c <= 'Z' then (c as int + 32) as char else c
  }

  function UpperChar(c: char): char {
    if 'a' <= c <= 'z' then (c as int - 32) as char else c
  }

  function Lower(s: string): (r: string)
    ensures |r| == |s|
    ensures forall i :: 0 <= i < |s| ==> r[i] == LowerChar(s[i])
  {
    seq(|s|, i requires 0 <= i < |s| => LowerChar(s[i]))
  }

  function Upper(s: string): (r: string)
    ensures |r| == |s|
    ensures forall i :: 0 <= i < |s| ==> r[i] == UpperChar(s[i])
  {
    seq(|s|, i requires 0 <= i < |s| => UpperChar(s[i]))
  }

  /** Upper-casing twice is upper-casing once. */
  lemma UpperIdempotent(s: string)
    ensures Upper(Upper(s)) == Upper(s)
  {
    assert forall i :: 0 <= i < |s| ==> UpperChar(UpperChar(s[i])) == UpperChar(s[i]);
  }

  /** Lower-casing twice is lower-casing once. */
  lemma LowerIdempotent(s: string)
    ensures Lower(Lower(s)) == Lower(s)
  {
    assert forall i :: 0 <= i < |s| ==> LowerChar(LowerChar(s[i])) == LowerChar(s[i]);
  }

  // ---------------------------------------------------------------------
  // Substring search: JavaScript's `hay.includes(needle)`
  // ---------------------------------------------------------------------

  /** `needle` occurs in `hay` starting at index `i`. */
  predicate MatchAt(hay: string, needle: string, i: int) {
    0 <= i && i + |needle| <= |hay| && hay[i..i + |needle|] == needle
  }

  predicate Includes(hay: string, needle: string) {
    exists i | 0 <= i <= |hay| - |needle| :: MatchAt(hay, needle, i)
  }

  /** Every string includes the empty string, and includes itself. */
  lemma IncludesEmpty(hay: string)
    ensures Includes(hay, "")
    ensures Includes(hay, hay)
  {
    assert MatchAt(hay, "", 0);
    assert MatchAt(hay, hay, 0);
  }

  /** A string can only include a needle that is no longer than it. */
  lemma IncludesShorter(hay: string, needle: string)
    requires Includes(hay, needle)
    ensures |needle| <= |hay|
  {
  }

  // ---------------------------------------------------------------------
  // Whitespace trimming: JavaScript's `trim()` and Python's `str.strip()`
  // on ASCII whitespace
  // ---------------------------------------------------------------------

  /** Whose notion of whitespace a trim uses. */
  datatype Runtime = JavaScript | Python

  /** ASCII whitespace: tab, line feed, vertical tab, form feed, carriage
      return and space for both; Python's `str.isspace` also counts the four
      information separators U+001C..U+001F, which JavaScript does not. */
  predicate IsSpace(rt: Runtime, c: char) {
    || c == ' ' || c == '\t' || c == '\n' || c == '\r' || c == '\U{000B}' || c == '\U{000C}'
    || (rt == Python && '\U{001C}' <= c <= '\U{001F}')
  }

  predicate AllSpace(rt: Runtime, s: string) {
    forall i :: 0 <= i < |s| ==> IsSpace(rt, s[i])
  }

  /** Drops leading whitespace; what remains is a suffix that starts with a non-space. */
  function TrimStart(rt: Runtime, s: string): (r: string)
    ensures |r| <= |s| && r == s[|s| - |r|..]
    ensures AllSpace(rt, s[..|s| - |r|])
    ensures r == [] || !IsSpace(rt, r[0])
    decreases |s|
  {
    if |s| > 0 && IsSpace(rt, s[0]) then
      var t := s[1..];
      var r := TrimStart(rt, t);
      assert t[|t| - |r|..] == s[|s| - |r|..];
      assert s[..|s| - |r|] == [s[0]] + t[..|t| - |r|];
      r
    else s
  }

  /** Drops trailing whitespace; what remains is a prefix that ends with a non-space. */
  function TrimEnd(rt: Runtime, s: string): (r: string)
    ensures |r| <= |s| && r == s[..|r|]
    ensures AllSpace(rt, s[|r|..])
    ensures r == [] || !IsSpace(rt, r[|r| - 1])
    decreases |s|
  {
    if |s| > 0 && IsSpace(rt, s[|s| - 1]) then
      var t := s[..|s| - 1];
      var r := TrimEnd(rt, t);
      assert t[..|r|] == s[..|r|];
      assert s[|r|..] == t[|r|..] + [s[|s| - 1]];
      r
    else s
  }

  /** `trim()` or `strip()`: leading and trailing whitespace removed. */
  function Trim(rt: Runtime, s: string): (r: string)
    ensures |r| <= |s|
    ensures r == [] || (!IsSpace(rt, r[0]) && !IsSpace(rt, r[|r| - 1]))
  {
    TrimEnd(rt, TrimStart(rt, s))
  }

  /** Trimming keeps a contiguous slice of the input and cuts away only whitespace. */
  lemma TrimIsSlice(rt: Runtime, s: string) returns (i: nat, j: nat)
    ensures i <= j <= |s| && Trim(rt, s) == s[i..j]
    ensures AllSpace(rt, s[..i]) && AllSpace(rt, s[j..])
  {
    var a := TrimStart(rt, s);
    var r := TrimEnd(rt, a);
    i := |s| - |a|;
    j := i + |r|;
    SliceOfSuffix(s, i, |r|);
  }

  /** The same, stated without naming the cut points. */
  lemma TrimCutsOnlySpace(rt: Runtime, s: string)
    ensures exists i, j :: 0 <= i <= j <= |s| && Trim(rt, s) == s[i..j] && AllSpace(rt, s[..i]) && AllSpace(rt, s[j..])
  {
    var i, j := TrimIsSlice(rt, s);
  }

  lemma SliceOfSuffix(s: string, i: nat, k: nat)
    requires i + k <= |s|
    ensures s[i..][..k] == s[i..i + k] && s[i..][k..] == s[i + k..]
  {
  }

  /** A string with no whitespace at either end is left as it is. */
  lemma TrimOfUnpadded(rt: Runtime, s: string)
    requires s != [] && !IsSpace(rt, s[0]) && !IsSpace(rt, s[|s| - 1])
    ensures Trim(rt, s) == s
  {
    assert TrimStart(rt, s) == s;
  }

  /** A string is blank exactly when trimming leaves nothing. */
  predicate Blank(rt: Runtime, s: string) {
    Trim(rt, s) == ""
  }

  lemma BlankIffAllSpace(rt: Runtime, s: string)
    ensures Blank(rt, s) <==> AllSpace(rt, s)
  {
    var r := Trim(rt, s);
    var i, j := TrimIsSlice(rt, s);
    if r != [] {
      assert r[0] == s[i];
      assert !AllSpace(rt, s);
    }
    if r == [] {
      assert i == j;
      forall k | 0 <= k < |s| ensures IsSpace(rt, s[k]) {
        if k < i { assert s[k] == s[..i][k]; } else { assert s[k] == s[j..][k - j]; }
      }
    }
  }


  // ---------------------------------------------------------------------
  // Order-preserving filtering: JavaScript's `Array.prototype.filter` and
  // Django's `QuerySet.filter` over an already ordered table
  // ---------------------------------------------------------------------

  /** `r` can be obtained from `s` by deleting elements, keeping the order. */
  ghost predicate Subsequence<T>(r: seq<T>, s: seq<T>)
    decreases |s|
  {
    if r == [] then true
    else if s == [] then false
    else (r[0] == s[0] && Subsequence(r[1..], s[1..])) || Subsequence(r, s[1..])
  }

  function Filter<T(!new)>(s: seq<T>, p: T -> bool): (r: seq<T>)
    ensures |r| <= |s|
    ensures forall i :: 0 <= i < |r| ==> r[i] in s && p(r[i])
    ensures forall i :: 0 <= i < |s| && p(s[i]) ==> s[i] in r
    ensures Subsequence(r, s)
    ensures forall x :: multiset(r)[x] == if p(x) then multiset(s)[x] else 0
    decreases |s|
  {
    if s == [] then []
    else
      assert s == [s[0]] + s[1..];
      if p(s[0]) then [s[0]] + Filter(s[1..], p)
      else Filter(s[1..], p)
  }

  /** A filter that keeps every element returns its input unchanged. */
  lemma {:induction false} FilterKeepsAll<T(!new)>(s: seq<T>, p: T -> bool)
    requires forall x :: x in s ==> p(x)
    ensures Filter(s, p) == s
    decreases |s|
  {
    if s != [] {
      FilterKeepsAll(s[1..], p);
      assert [s[0]] + s[1..] == s;
    }
  }

  /** A filter that keeps nothing returns the empty sequence. */
  lemma {:induction false} FilterKeepsNone<T(!new)>(s: seq<T>, p: T -> bool)
    requires forall x :: x in s ==> !p(x)
    ensures Filter(s, p) == []
    decreases |s|
  {
    if s != [] {
      FilterKeepsNone(s[1..], p);
    }
  }

  /** Filtering an already filtered sequence again changes nothing. */
  lemma FilterIdempotent<T(!new)>(s: seq<T>, p: T -> bool)
    ensures Filter(Filter(s, p), p) == Filter(s, p)
  {
    FilterKeepsAll(Filter(s, p), p);
  }

  /** Filters with pointwise-equal predicates agree. */
  lemma {:induction false} FilterExt<T(!new)>(s: seq<T>, p: T -> bool, q: T -> bool)
    requires forall x :: x in s ==> p(x) == q(x)
    ensures Filter(s, p) == Filter(s, q)
    decreases |s|
  {
    if s != [] {
      FilterExt(s[1..], p, q);
    }
  }

  /** The first element satisfying `p`, if any: JavaScript's `find`, or a
      lookup by key in a table. */
  function FindFirst<T>(s: seq<T>, p: T -> bool): (r: Option<T>)
    ensures r.Some? ==> r.value in s && p(r.value)
    ensures r.None? <==> forall i :: 0 <= i < |s| ==> !p(s[i])
    ensures r.Some? ==> exists i :: 0 <= i < |s| && s[i] == r.value && forall j :: 0 <= j < i ==> !p(s[j])
    decreases |s|
  {
    if s == [] then None
    else if p(s[0]) then Some(s[0])
    else
      var r := FindFirst(s[1..], p);
      assert r.Some? ==> exists i :: 0 <= i < |s| && s[i] == r.value && forall j :: 0 <= j < i ==> !p(s[j]) by {
        if r.Some? {
          var i :| 0 <= i < |s[1..]| && s[1..][i] == r.value && forall j :: 0 <= j < i ==> !p(s[1..][j]);
          assert s[i + 1] == r.value;
          assert forall j :: 0 <= j < i + 1 ==> !p(s[j]) by {
            forall j | 0 <= j < i + 1 ensures !p(s[j]) {
              if j > 0 { assert s[j] == s[1..][j - 1]; }
            }
          }
        }
      }
      r
  }

  /** Number of elements satisfying `p`. */
  function Count<T(!new)>(s: seq<T>, p: T -> bool): (n: nat)
    ensures n <= |s|
    ensures n == |Filter(s, p)|
    decreases |s|
  {
    if s == [] then 0 else (if p(s[0]) then 1 else 0) + Count(s[1..], p)
  }

  /** Keeps the elements that are not equal to `x`. */
  function Remove<T(==,!new)>(s: seq<T>, x: T): (r: seq<T>)
    ensures x !in r
    ensures forall i :: 0 <= i < |s| && s[i] != x ==> s[i] in r
    ensures forall i :: 0 <= i < |r| ==> r[i] in s
    ensures Subsequence(r, s)
  {
    Filter(s, y => y != x)
  }

  /** Pointwise map of a sequence. */
  function Map<T, U>(s: seq<T>, f: T -> U): (r: seq<U>)
    ensures |r| == |s|
    ensures forall i :: 0 <= i < |s| ==> r[i] == f(s[i])
  {
    seq(|s|, i requires 0 <= i < |s| => f(s[i]))
  }

  // ---------------------------------------------------------------------
  // Sorting by a total preorder: the `ordering`/`order_by` of a query
  // ---------------------------------------------------------------------

  /** `le(a, b)`: `a` may be listed before `b`. Total and transitive. */
  ghost predicate TotalPreorder<T(!new)>(le: (T, T) -> bool) {
    && (forall a, b :: le(a, b) || le(b, a))
    && (forall a, b, c :: le(a, b) && le(b, c) ==> le(a, c))
  }

  ghost predicate SortedBy<T>(s: seq<T>, le: (T, T) -> bool) {
    forall i, j :: 0 <= i < j < |s| ==> le(s[i], s[j])
  }

  function InsertBy<T(!new)>(x: T, s: seq<T>, le: (T, T) -> bool): (r: seq<T>)
    requires TotalPreorder(le)
    requires SortedBy(s, le)
    ensures SortedBy(r, le)
    ensures multiset(r) == multiset(s) + multiset{x}
    decreases |s|
  {
    if s == [] then [x]
    else if le(x, s[0]) then
      assert s == [s[0]] + s[1..];
      [x] + s
    else
      var t := InsertBy(x, s[1..], le);
      assert s == [s[0]] + s[1..];
      assert forall k :: 0 <= k < |t| ==> t[k] == x || t[k] in s[1..] by {
        forall k | 0 <= k < |t| ensures t[k] == x || t[k] in s[1..] {
          assert t[k] in multiset(t);
        }
      }
      [s[0]] + t
  }

  /** Insertion sort: a permutation of the input listed in `le` order. */
  function SortBy<T(!new)>(s: seq<T>, le: (T, T) -> bool): (r: seq<T>)
    requires TotalPreorder(le)
    ensures SortedBy(r, le)
    ensures multiset(r) == multiset(s)
    decreases |s|
  {
    if s == [] then []
    else
      assert s == [s[0]] + s[1..];
      InsertBy(s[0], SortBy(s[1..], le), le)
  }

  /** The elements that pass `p`, each as often as in `s`, listed in `le` order. */
  function SortedFilter<T(!new)>(s: seq<T>, p: T -> bool, le: (T, T) -> bool): (r: seq<T>)
    requires TotalPreorder(le)
    ensures SortedBy(r, le)
    ensures forall x :: multiset(r)[x] == if p(x) then multiset(s)[x] else 0
    ensures forall x :: x in r <==> x in s && p(x)
  {
    var f := Filter(s, p);
    var r := SortBy(f, le);
    assert forall x :: x in r <==> x in multiset(f);
    r
  }
}
