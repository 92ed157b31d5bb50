/**
 * The few pieces of JavaScript's built-in library that the widgets rely on,
 * written out so that the component models can use them with their exact
 * semantics: `String.prototype.trim`, `substring` and `repeat`,
 * `Array.prototype.splice` (for the non-negative indices the handlers pass),
 * `Array.prototype.filter` with an inequality test, and an optional value.
 */
module JsSupport {

  datatype Option<T> = None | Some(value: T)

  /** JavaScript truthiness of a string that may be `null`: present and not `''`. */
  predicate Truthy(o: Option<string>)
  {
    o.Some? && o.value != ""
  }

  // ---------------------------------------------------------------------------
  // String.prototype.trim
  // ---------------------------------------------------------------------------

  /** The WhiteSpace and LineTerminator code points of ECMAScript, which `trim` strips. */
  predicate IsWhitespace(c: char)
  {
    || c == '\t' || c == '\n' || c == '\U{000B}' || c == '\U{000C}' || c == '\r'
    || c == ' ' || c == '\U{00A0}' || c == '\U{1680}'
    || ('\U{2000}' <= c <= '\U{200A}')
    || c == '\U{2028}' || c == '\U{2029}' || c == '\U{202F}' || c == '\U{205F}'
    || c == '\U{3000}' || c == '\U{FEFF}'
  }

  predicate AllWhitespace(s: string)
  {
    forall i :: 0 <= i < |s| ==> IsWhitespace(s[i])
  }

  /** The index of the first character of `s` that is not whitespace (`|s|` when there is none). */
  function TrimStartIndex(s: string): (i: nat)
    ensures i <= |s|
    ensures forall k :: 0 <= k < i ==> IsWhitespace(s[k])
    ensures i < |s| ==> !IsWhitespace(s[i])
  {
    if s == [] || !IsWhitespace(s[0]) then 0 else 1 + TrimStartIndex(s[1..])
  }

  /** The index just past the last character of `s` that is not whitespace (`0` when there is none). */
  function TrimEndIndex(s: string): (j: nat)
    ensures j <= |s|
    ensures forall k :: j <= k < |s| ==> IsWhitespace(s[k])
    ensures j > 0 ==> !IsWhitespace(s[j - 1])
  {
    if s == [] || !IsWhitespace(s[|s| - 1]) then |s| else TrimEndIndex(s[..|s| - 1])
  }

  /** `s.trim()`: `s` without its leading and trailing whitespace. */
  function Trim(s: string): (r: string)
    ensures |r| <= |s|
    ensures r != [] ==> !IsWhitespace(r[0]) && !IsWhitespace(r[|r| - 1])
  {
    var t := s[TrimStartIndex(s)..];
    t[..TrimEndIndex(t)]
  }

  /**
   * `trim` keeps a contiguous piece of its argument that neither starts nor ends
   * with whitespace, and everything it cuts off on either side is whitespace.
   */
  lemma TrimIsInnerSlice(s: string)
    ensures exists i, j :: 0 <= i <= j <= |s| && Trim(s) == s[i..j]
                           && AllWhitespace(s[..i]) && AllWhitespace(s[j..])
    ensures Trim(s) != [] ==> !IsWhitespace(Trim(s)[0]) && !IsWhitespace(Trim(s)[|Trim(s)| - 1])
  {
    var i := TrimStartIndex(s);
    var t := s[i..];
    var e := TrimEndIndex(t);
    var j := i + e;
    assert Trim(s) == s[i..j];
    assert AllWhitespace(s[..i]) by {
      forall k | 0 <= k < i ensures IsWhitespace(s[..i][k]) {
        assert s[..i][k] == s[k];
      }
    }
    assert AllWhitespace(s[j..]) by {
      forall k | 0 <= k < |s| - j ensures IsWhitespace(s[j..][k]) {
        assert s[j..][k] == t[e + k];
      }
    }
    if Trim(s) != [] {
      assert Trim(s)[0] == t[0];
    }
  }

  /** A string is blank (its `trim()` is the falsy `''`) exactly when it is all whitespace. */
  lemma TrimEmptyIffAllWhitespace(s: string)
    ensures Trim(s) == [] <==> AllWhitespace(s)
  {
    var i := TrimStartIndex(s);
    var t := s[i..];
    if AllWhitespace(s) {
      assert i == |s|;
    } else {
      assert i < |s|;
      assert t[0] == s[i];
      assert TrimEndIndex(t) > 0;
    }
  }

  /** Trimming a second time changes nothing. */
  lemma TrimIdempotent(s: string)
    ensures Trim(Trim(s)) == Trim(s)
  {
    var r := Trim(s);
    TrimIsInnerSlice(s);
    if r != [] {
      assert TrimStartIndex(r) == 0;
      assert r[0..] == r;
      assert TrimEndIndex(r) == |r|;
    }
  }

  /**
   * `!s.trim()`: the trimmed string is the falsy `''`. By
   * `TrimEmptyIffAllWhitespace` that is the case exactly when `s` is all
   * whitespace, which is how the test is stated here.
   */
  predicate Blank(s: string)
  {
    AllWhitespace(s)
  }

  /**
   * `s.substring(a, b)` for non-negative indices: both are clamped to the
   * length, and the smaller one starts the slice.
   */
  function Substring(s: string, a: nat, b: nat): (r: string)
    ensures a <= b <= |s| ==> r == s[a..b]
    ensures b < a <= |s| ==> r == s[b..a]
    ensures |r| <= |s|
  {
    var a' := if a <= |s| then a else |s|;
    var b' := if b <= |s| then b else |s|;
    if a' <= b' then s[a'..b'] else s[b'..a']
  }

  /** `c.repeat(n)`: `n` copies of `c`. */
  function Repeat(c: char, n: nat): (r: string)
    ensures |r| == n && forall k :: 0 <= k < n ==> r[k] == c
  {
    if n == 0 then "" else [c] + Repeat(c, n - 1)
  }

  // ---------------------------------------------------------------------------
  // Array.prototype.splice, filter, counting
  // ---------------------------------------------------------------------------

  /** `a.splice(i, 1)` on a copy: drops the entry at `i`, or nothing when `i` is past the end. */
  function RemoveAt<T>(s: seq<T>, i: nat): (r: seq<T>)
    ensures i < |s| ==> |r| == |s| - 1 && multiset(r) == multiset(s) - multiset{s[i]}
    ensures i < |s| ==> forall k :: 0 <= k < |r| ==> r[k] == if k < i then s[k] else s[k + 1]
    ensures i >= |s| ==> r == s
  {
    if i < |s| then
      assert s == s[..i] + [s[i]] + s[i + 1..];
      s[..i] + s[i + 1..]
    else s
  }

  /** The index at which `a.splice(i, 0, x)` places `x`: `i`, clamped to the length. */
  function InsertIndex<T>(s: seq<T>, i: nat): (k: nat)
    ensures k <= |s| && (k == i || (k == |s| && i > |s|))
  {
    if i <= |s| then i else |s|
  }

  /** `a.splice(i, 0, x)` on a copy: inserts `x` before position `i` (at the end when `i` is past it). */
  function InsertAt<T>(s: seq<T>, i: nat, x: T): (r: seq<T>)
    ensures |r| == |s| + 1 && multiset(r) == multiset(s) + multiset{x}
    ensures r[InsertIndex(s, i)] == x
    ensures r[..InsertIndex(s, i)] == s[..InsertIndex(s, i)]
    ensures r[InsertIndex(s, i) + 1..] == s[InsertIndex(s, i)..]
  {
    var k := InsertIndex(s, i);
    assert s == s[..k] + s[k..];
    s[..k] + [x] + s[k..]
  }

  /** Removing what was just inserted gives the original sequence back. */
  lemma RemoveInsertedAt<T>(s: seq<T>, i: nat, x: T)
    ensures RemoveAt(InsertAt(s, i, x), InsertIndex(s, i)) == s
  {
    var k := InsertIndex(s, i);
    var r := InsertAt(s, i, x);
    assert r == r[..k] + [r[k]] + r[k + 1..];
    assert s == s[..k] + s[k..];
  }

  /** Putting a removed entry back where it was gives the original sequence back. */
  lemma InsertRemovedAt<T>(s: seq<T>, i: nat)
    requires i < |s|
    ensures InsertAt(RemoveAt(s, i), i, s[i]) == s
  {
    assert s == s[..i] + [s[i]] + s[i + 1..];
  }

  /** How many entries of `s` equal `x`. */
  function Count<T(==)>(s: seq<T>, x: T): nat
  {
    if s == [] then 0 else (if s[0] == x then 1 else 0) + Count(s[1..], x)
  }

  /** `a.filter(e => e !== x)`: `s` with every occurrence of `x` removed, order kept. */
  function RemoveAll<T(==)>(s: seq<T>, x: T): (r: seq<T>)
    ensures x !in r
    ensures forall y :: y in r ==> y in s
  {
    if s == [] then [] else (if s[0] == x then [] else [s[0]]) + RemoveAll(s[1..], x)
  }

  /**
   * The filter keeps order: filtering a concatenation filters each part.
   * With `RemoveAllSingle` this fixes `RemoveAll(s, x)` as the subsequence of
   * `s` of the entries other than `x`.
   */
  lemma {:induction false} RemoveAllOrder<T>(a: seq<T>, b: seq<T>, x: T)
    ensures RemoveAll(a + b, x) == RemoveAll(a, x) + RemoveAll(b, x)
  {
    if a == [] {
      assert a + b == b;
    } else {
      var head := if a[0] == x then [] else [a[0]];
      assert (a + b)[0] == a[0];
      assert (a + b)[1..] == a[1..] + b;
      RemoveAllOrder(a[1..], b, x);
      assert RemoveAll(a + b, x) == head + (RemoveAll(a[1..], x) + RemoveAll(b, x));
    }
  }

  /** A single entry is kept exactly when it differs from `x`. */
  lemma RemoveAllSingle<T>(y: T, x: T)
    ensures RemoveAll([y], x) == if y == x then [] else [y]
  {
    assert [y][1..] == [];
  }

  lemma {:induction false} CountMultiset<T>(s: seq<T>, x: T)
    ensures Count(s, x) == multiset(s)[x]
  {
    if s != [] {
      CountMultiset(s[1..], x);
      assert s == [s[0]] + s[1..];
    }
  }

  /** Filtering `x` out removes exactly its occurrences and keeps every other entry's count. */
  lemma {:induction false} RemoveAllCounts<T>(s: seq<T>, x: T)
    ensures |RemoveAll(s, x)| == |s| - Count(s, x)
    ensures forall y :: y != x ==> Count(RemoveAll(s, x), y) == Count(s, y)
  {
    if s != [] {
      RemoveAllCounts(s[1..], x);
      var head := if s[0] == x then [] else [s[0]];
      forall y | y != x ensures Count(RemoveAll(s, x), y) == Count(s, y) {
        CountAppend(head, RemoveAll(s[1..], x), y);
      }
    }
  }

  /** Filtering out something that is absent changes nothing. */
  lemma {:induction false} RemoveAllAbsent<T>(s: seq<T>, x: T)
    requires x !in s
    ensures RemoveAll(s, x) == s
  {
    if s != [] {
      assert x !in s[1..];
      RemoveAllAbsent(s[1..], x);
    }
  }

  lemma {:induction false} CountAppend<T>(a: seq<T>, b: seq<T>, x: T)
    ensures Count(a + b, x) == Count(a, x) + Count(b, x)
  {
    if a == [] {
      assert a + b == b;
    } else {
      assert (a + b)[1..] == a[1..] + b;
      CountAppend(a[1..], b, x);
    }
  }

  // ---------------------------------------------------------------------------
  // Multiset bookkeeping used by the conservation proofs
  // ---------------------------------------------------------------------------

  lemma MultisetCancel<T>(a: multiset<T>, b: multiset<T>, m: multiset<T>)
    requires a + m == b + m
    ensures a == b
  {
    forall x ensures a[x] == b[x] {
      assert (a + m)[x] == (b + m)[x];
    }
  }

  /** Replacing a part `s` of a total by `s` minus `x` takes `x` out of the total. */
  lemma TakeOutStep<T>(m0: multiset<T>, m1: multiset<T>, s: multiset<T>, s': multiset<T>, x: T)
    requires m1 + s == m0 + s' && s' + multiset{x} == s
    ensures m1 + multiset{x} == m0
  {
    assert (m1 + multiset{x}) + s' == m0 + s';
    MultisetCancel(m1 + multiset{x}, m0, s');
  }

  /** Replacing a part `s` of a total by `s` plus `x` puts `x` into the total. */
  lemma PutInStep<T>(m1: multiset<T>, m2: multiset<T>, s: multiset<T>, s': multiset<T>, x: T)
    requires m2 + s == m1 + s' && s' == s + multiset{x}
    ensures m2 == m1 + multiset{x}
  {
    assert m2 + s == (m1 + multiset{x}) + s;
    MultisetCancel(m2, m1 + multiset{x}, s);
  }
}
