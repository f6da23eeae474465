/** Failure-carrying wrappers shared by every module. */
module Wrappers {
  datatype Option<+T> = None | Some(value: T)

  datatype Result<+T, +E> = Ok(value: T) | Err(error: E)
}

/** String helpers with JavaScript's meaning: `\s`, `trim`, ASCII case folding,
    `includes`, `startsWith` and decimal formatting of counters. */
module Text {

  /** The characters JavaScript's `\s` class and `String.prototype.trim` treat as white space. */
  predicate IsSpace(c: char)
  {
    c == ' ' || c == '\t' || c == '\n' || c == '\r' || c == '\U{000B}' || c == '\U{000C}'
    || c == '\U{00A0}' || c == '\U{1680}' || ('\U{2000}' <= c <= '\U{200A}')
    || c == '\U{2028}' || c == '\U{2029}' || c == '\U{202F}' || c == '\U{205F}'
    || c == '\U{3000}' || c == '\U{FEFF}'
  }

  predicate AllSpace(s: string)
  {
    forall i :: 0 <= i < |s| ==> IsSpace(s[i])
  }

  function TrimStart(s: string): string
  {
    if s == [] || !IsSpace(s[0]) then s else TrimStart(s[1..])
  }

  function TrimEnd(s: string): string
  {
    if s == [] || !IsSpace(s[|s| - 1]) then s else TrimEnd(s[..|s| - 1])
  }

  /** Leading white space, and only white space, is dropped. */
  lemma {:induction false} TrimStartFacts(s: string)
    ensures var r := TrimStart(s);
      && |r| <= |s| && r == s[|s| - |r|..] && AllSpace(s[..|s| - |r|]) && (r == [] || !IsSpace(r[0]))
  {
    if s != [] && IsSpace(s[0]) {
      TrimStartFacts(s[1..]);
      var r := TrimStart(s);
      assert s[1..][|s| - 1 - |r|..] == s[|s| - |r|..];
    }
  }

  /** Trailing white space, and only white space, is dropped. */
  lemma {:induction false} TrimEndFacts(s: string)
    ensures var r := TrimEnd(s);
      && |r| <= |s| && r == s[..|r|] && AllSpace(s[|r|..]) && (r == [] || !IsSpace(r[|r| - 1]))
  {
    if s != [] && IsSpace(s[|s| - 1]) {
      var init := s[..|s| - 1];
      TrimEndFacts(init);
      var r := TrimEnd(s);
      assert init[..|r|] == s[..|r|];
      assert forall k :: |r| <= k < |s| - 1 ==> s[k] == init[k];
    }
  }

  /** `String.prototype.trim`. */
  function Trim(s: string): string
  {
    TrimEnd(TrimStart(s))
  }

  /** Trimming keeps the longest infix with no white space at either end. */
  lemma TrimCharacterised(s: string)
    ensures var r := Trim(s);
      && (exists i, j :: 0 <= i <= j <= |s| && r == s[i..j] && AllSpace(s[..i]) && AllSpace(s[j..]))
      && (r == [] || (!IsSpace(r[0]) && !IsSpace(r[|r| - 1])))
  {
    var t := TrimStart(s);
    var r := TrimEnd(t);
    TrimStartFacts(s);
    TrimEndFacts(t);
    var i := |s| - |t|;
    var j := i + |r|;
    assert r == s[i..j];
    assert s[j..] == t[|r|..];
    assert AllSpace(s[..i]) && AllSpace(s[j..]);
    if r != [] {
      assert r[0] == t[0];
    }
  }

  function LowerChar(c: char): char
  {
    if 'A' <= c <= 'Z' then (c as int + 32) as char else c
  }

  /** Case folding as a case-insensitive regular expression over ASCII letters sees it. */
  function ToLower(s: string): (r: string)
    ensures |r| == |s|
    ensures forall i :: 0 <= i < |s| ==> r[i] == LowerChar(s[i])
  {
    seq(|s|, i requires 0 <= i < |s| => LowerChar(s[i]))
  }

  /** `String.prototype.includes`. */
  predicate Contains(s: string, part: string)
  {
    exists i | 0 <= i <= |s| - |part| :: OccursAt(s, part, i)
  }

  predicate OccursAt(s: string, part: string, i: int)
  {
    0 <= i <= |s| - |part| && s[i..i + |part|] == part
  }

  /** `String.prototype.startsWith`. */
  predicate StartsWith(s: string, prefix: string)
  {
    |prefix| <= |s| && s[..|prefix|] == prefix
  }

  function DigitChar(d: nat): char
    requires d < 10
  {
    ('0' as int + d) as char
  }

  /** The decimal text JavaScript prints for a non-negative integer. */
  function NatToString(n: nat): (r: string)
    ensures |r| >= 1
    ensures forall i :: 0 <= i < |r| ==> '0' <= r[i] <= '9'
    ensures r[0] == '0' ==> n == 0
  {
    if n < 10 then [DigitChar(n)] else NatToString(n / 10) + [DigitChar(n % 10)]
  }
}

/** First-occurrence deduplication, the idiom `[...new Set(xs)]` and the
    `seen`-set filter, shared by every component that removes repeats. */
module Seqs {
  import opened Wrappers

  lemma Regroup<T>(a: seq<T>, b: seq<T>, c: seq<T>)
    ensures (a + b) + c == a + (b + c)
  {
  }

  /** `a` is `b` with some elements left out, in the same order. */
  ghost predicate IsSubsequence<T>(a: seq<T>, b: seq<T>)
    decreases |b|
  {
    |a| == 0 || (|b| > 0 && if a[0] == b[0] then IsSubsequence(a[1..], b[1..]) else IsSubsequence(a, b[1..]))
  }

  /** One step of `filter(p)`: given what the filter of the tail keeps, prepending
      the head exactly when it passes keeps the members and the copies of each
      element that passes, and nothing else. */
  lemma FilterStep<T>(xs: seq<T>, rest: seq<T>, p: T -> bool)
    requires xs != []
    requires forall u :: u in rest <==> u in xs[1..] && p(u)
    requires forall u :: multiset(rest)[u] == if p(u) then multiset(xs[1..])[u] else 0
    ensures var r := if p(xs[0]) then [xs[0]] + rest else rest;
      && (forall u :: u in r <==> u in xs && p(u))
      && forall u :: multiset(r)[u] == if p(u) then multiset(xs)[u] else 0
  {
    assert xs == [xs[0]] + xs[1..];
    assert multiset(xs) == multiset{xs[0]} + multiset(xs[1..]);
    if p(xs[0]) {
      assert multiset([xs[0]] + rest) == multiset{xs[0]} + multiset(rest);
    }
  }

  /** `xs.filter(p)`: the elements that pass, each as often as it occurs, in order. */
  function Filter<T(!new)>(xs: seq<T>, p: T -> bool): (r: seq<T>)
    ensures |r| <= |xs|
    ensures forall u :: u in r <==> u in xs && p(u)
    ensures forall u :: multiset(r)[u] == if p(u) then multiset(xs)[u] else 0
    ensures IsSubsequence(r, xs)
  {
    if xs == [] then []
    else
      var rest := Filter(xs[1..], p);
      FilterStep(xs, rest, p);
      if p(xs[0]) then
        assert ([xs[0]] + rest)[1..] == rest;
        [xs[0]] + rest
      else
        SubsequenceOfTail(rest, xs);
        rest
  }

  /** The index of the first element of `xs` whose key is `k` (`findIndex`). */
  function FirstIndex<T, K(==)>(xs: seq<T>, key: T -> K, k: K): (r: Option<nat>)
    ensures r.Some? ==> r.value < |xs| && key(xs[r.value]) == k && forall j :: 0 <= j < r.value ==> key(xs[j]) != k
    ensures r.None? ==> forall j :: 0 <= j < |xs| ==> key(xs[j]) != k
  {
    if xs == [] then None
    else if key(xs[0]) == k then Some(0)
    else
      match FirstIndex(xs[1..], key, k)
      case None => None
      case Some(i) => Some(i + 1)
  }

  /** Lists whose elements have the same keys, position by position, have the
      same first index for every key. */
  lemma {:induction false} FirstIndexByKeys<T, K>(a: seq<T>, b: seq<T>, key: T -> K, k: K)
    requires |a| == |b| && forall j :: 0 <= j < |a| ==> key(a[j]) == key(b[j])
    ensures FirstIndex(a, key, k) == FirstIndex(b, key, k)
  {
    if a != [] && key(a[0]) != k {
      FirstIndexByKeys(a[1..], b[1..], key, k);
    }
  }

  /** The key of every element, in order (`xs.map(key)`). */
  function KeySeq<T, K>(xs: seq<T>, key: T -> K): (r: seq<K>)
    ensures |r| == |xs| && forall i :: 0 <= i < |xs| ==> r[i] == key(xs[i])
  {
    seq(|xs|, i requires 0 <= i < |xs| => key(xs[i]))
  }

  /** The first element of `xs` whose key is `k`. */
  function FirstWith<T, K(==)>(xs: seq<T>, key: T -> K, k: K): Option<T>
  {
    if xs == [] then None
    else if key(xs[0]) == k then Some(xs[0])
    else FirstWith(xs[1..], key, k)
  }

  function KeySet<T, K>(xs: seq<T>, key: T -> K): set<K>
  {
    set i | 0 <= i < |xs| :: key(xs[i])
  }

  predicate KeysDistinct<T, K(==)>(xs: seq<T>, key: T -> K)
  {
    forall i, j :: 0 <= i < j < |xs| ==> key(xs[i]) != key(xs[j])
  }

  /** Keeps an element when no earlier element (and nothing in `seen`) had its key. */
  function DedupFrom<T, K(==)>(xs: seq<T>, key: T -> K, seen: set<K>): seq<T>
  {
    if xs == [] then []
    else if key(xs[0]) in seen then DedupFrom(xs[1..], key, seen)
    else [xs[0]] + DedupFrom(xs[1..], key, seen + {key(xs[0])})
  }

  function DedupBy<T, K(==)>(xs: seq<T>, key: T -> K): seq<T>
  {
    DedupFrom(xs, key, {})
  }

  function Id<T>(x: T): T
  {
    x
  }

  /** `[...new Set(xs)]`. */
  function Distinct<T(==)>(xs: seq<T>): seq<T>
  {
    DedupBy(xs, Id)
  }

  lemma {:induction false} DedupFromKeys<T, K>(xs: seq<T>, key: T -> K, seen: set<K>)
    ensures var r := DedupFrom(xs, key, seen);
      KeysDistinct(r, key) && KeySet(r, key) == KeySet(xs, key) - seen
  {
    if xs != [] {
      var r := DedupFrom(xs, key, seen);
      if key(xs[0]) in seen {
        DedupFromKeys(xs[1..], key, seen);
        assert KeySet(xs, key) == {key(xs[0])} + KeySet(xs[1..], key) by {
          forall k | k in KeySet(xs, key) ensures k in {key(xs[0])} + KeySet(xs[1..], key) {
            var i :| 0 <= i < |xs| && key(xs[i]) == k;
            if i > 0 { assert xs[1..][i - 1] == xs[i]; }
          }
        }
      } else {
        var seen' := seen + {key(xs[0])};
        var rest := DedupFrom(xs[1..], key, seen');
        DedupFromKeys(xs[1..], key, seen');
        assert r == [xs[0]] + rest;
        assert KeySet(r, key) == {key(xs[0])} + KeySet(rest, key) by {
          forall k | k in KeySet(r, key) ensures k in {key(xs[0])} + KeySet(rest, key) {
            var i :| 0 <= i < |r| && key(r[i]) == k;
            if i > 0 { assert rest[i - 1] == r[i]; }
          }
          assert key(r[0]) in KeySet(r, key);
          forall k | k in KeySet(rest, key) ensures k in KeySet(r, key) {
            var i :| 0 <= i < |rest| && key(rest[i]) == k;
            assert r[i + 1] == rest[i];
          }
        }
        assert KeySet(xs, key) == {key(xs[0])} + KeySet(xs[1..], key) by {
          forall k | k in KeySet(xs, key) ensures k in {key(xs[0])} + KeySet(xs[1..], key) {
            var i :| 0 <= i < |xs| && key(xs[i]) == k;
            if i > 0 { assert xs[1..][i - 1] == xs[i]; }
          }
        }
        forall i, j | 0 <= i < j < |r| ensures key(r[i]) != key(r[j]) {
          if i > 0 {
            assert r[i] == rest[i - 1] && r[j] == rest[j - 1];
          } else {
            assert r[j] == rest[j - 1];
            assert key(rest[j - 1]) in KeySet(rest, key);
          }
        }
      }
    }
  }

  lemma {:induction false} DedupFromOrder<T, K>(xs: seq<T>, key: T -> K, seen: set<K>)
    ensures IsSubsequence(DedupFrom(xs, key, seen), xs)
  {
    if xs != [] {
      if key(xs[0]) in seen {
        DedupFromOrder(xs[1..], key, seen);
        SubsequenceOfTail(DedupFrom(xs[1..], key, seen), xs);
      } else {
        DedupFromOrder(xs[1..], key, seen + {key(xs[0])});
      }
    }
  }

  lemma {:induction false} SubsequenceOfTail<T>(a: seq<T>, b: seq<T>)
    requires |b| > 0 && IsSubsequence(a, b[1..])
    ensures IsSubsequence(a, b)
    decreases |a| + |b|
  {
    if |a| > 0 && a[0] == b[0] {
      DropFirst(a, b[1..]);
    }
  }

  lemma {:induction false} DropFirst<T>(a: seq<T>, b: seq<T>)
    requires |a| > 0 && IsSubsequence(a, b)
    ensures IsSubsequence(a[1..], b)
    decreases |a| + |b|
  {
    if a[0] == b[0] {
      SubsequenceOfTail(a[1..], b);
    } else {
      DropFirst(a, b[1..]);
      SubsequenceOfTail(a[1..], b);
    }
  }

  lemma {:induction false} DedupFromFirst<T, K>(xs: seq<T>, key: T -> K, seen: set<K>)
    ensures forall y :: y in DedupFrom(xs, key, seen) ==> FirstWith(xs, key, key(y)) == Some(y)
  {
    if xs != [] {
      var r := DedupFrom(xs, key, seen);
      if key(xs[0]) in seen {
        var rest := DedupFrom(xs[1..], key, seen);
        DedupFromFirst(xs[1..], key, seen);
        DedupFromKeys(xs[1..], key, seen);
        forall y | y in r ensures FirstWith(xs, key, key(y)) == Some(y) {
          var i :| 0 <= i < |rest| && rest[i] == y;
          assert key(y) in KeySet(rest, key);
        }
      } else {
        var seen' := seen + {key(xs[0])};
        var rest := DedupFrom(xs[1..], key, seen');
        DedupFromFirst(xs[1..], key, seen');
        DedupFromKeys(xs[1..], key, seen');
        forall y | y in r ensures FirstWith(xs, key, key(y)) == Some(y) {
          if y != xs[0] {
            assert y in rest;
            var i :| 0 <= i < |rest| && rest[i] == y;
            assert key(y) in KeySet(rest, key);
          }
        }
      }
    }
  }

  /** `r` lists elements in the order in which their keys first occur in `xs`. */
  predicate InFirstOccurrenceOrder<T, K(==)>(r: seq<T>, xs: seq<T>, key: T -> K)
  {
    && (forall i :: 0 <= i < |r| ==> FirstIndex(xs, key, key(r[i])).Some?)
    && forall i, j :: 0 <= i < j < |r| ==>
         FirstIndex(xs, key, key(r[i])).value < FirstIndex(xs, key, key(r[j])).value
  }

  /** Survivors come in the order in which their keys first occur in the input. */
  lemma {:induction false} DedupFromFirstOrder<T, K>(xs: seq<T>, key: T -> K, seen: set<K>)
    ensures InFirstOccurrenceOrder(DedupFrom(xs, key, seen), xs, key)
  {
    if xs != [] {
      var r := DedupFrom(xs, key, seen);
      if key(xs[0]) in seen {
        DedupFromFirstOrder(xs[1..], key, seen);
        DedupFromKeys(xs[1..], key, seen);
        forall i | 0 <= i < |r|
          ensures FirstIndex(xs, key, key(r[i])) == Some(FirstIndex(xs[1..], key, key(r[i])).value + 1)
        {
          assert key(r[i]) in KeySet(r, key);
        }
      } else {
        var seen' := seen + {key(xs[0])};
        var rest := DedupFrom(xs[1..], key, seen');
        DedupFromFirstOrder(xs[1..], key, seen');
        DedupFromKeys(xs[1..], key, seen');
        assert r == [xs[0]] + rest;
        forall i | 0 <= i < |rest|
          ensures FirstIndex(xs, key, key(rest[i])) == Some(FirstIndex(xs[1..], key, key(rest[i])).value + 1)
        {
          assert key(rest[i]) in KeySet(rest, key);
        }
        forall i | 0 < i < |r| ensures r[i] == rest[i - 1] { }
      }
    }
  }

  lemma KeySetCons<T, K>(xs: seq<T>, key: T -> K)
    requires xs != []
    ensures KeySet(xs, key) == {key(xs[0])} + KeySet(xs[1..], key)
  {
    forall k | k in KeySet(xs, key) ensures k in {key(xs[0])} + KeySet(xs[1..], key) {
      var i :| 0 <= i < |xs| && key(xs[i]) == k;
      if i > 0 { assert xs[1..][i - 1] == xs[i]; }
    }
    forall k | k in KeySet(xs[1..], key) ensures k in KeySet(xs, key) {
      var i :| 0 <= i < |xs[1..]| && key(xs[1..][i]) == k;
      assert xs[i + 1] == xs[1..][i];
    }
    assert key(xs[0]) in KeySet(xs, key);
  }

  /** Deduplicating one element more: it is kept exactly when its key is new. */
  lemma {:induction false} DedupFromSnoc<T, K>(xs: seq<T>, x: T, key: T -> K, seen: set<K>)
    ensures DedupFrom(xs + [x], key, seen)
      == DedupFrom(xs, key, seen) + (if key(x) in seen + KeySet(xs, key) then [] else [x])
  {
    if xs == [] {
      assert xs + [x] == [x];
      assert KeySet(xs, key) == {};
    } else {
      assert (xs + [x])[1..] == xs[1..] + [x];
      KeySetCons(xs, key);
      if key(xs[0]) in seen {
        DedupFromSnoc(xs[1..], x, key, seen);
      } else {
        DedupFromSnoc(xs[1..], x, key, seen + {key(xs[0])});
      }
    }
  }

  /** With pairwise distinct keys there are as many keys as elements. */
  lemma {:induction false} DistinctKeysCount<T, K>(xs: seq<T>, key: T -> K)
    requires KeysDistinct(xs, key)
    ensures |KeySet(xs, key)| == |xs|
  {
    if xs != [] {
      KeySetCons(xs, key);
      assert KeysDistinct(xs[1..], key) by {
        forall i, j | 0 <= i < j < |xs[1..]| ensures key(xs[1..][i]) != key(xs[1..][j]) {
          assert xs[1..][i] == xs[i + 1] && xs[1..][j] == xs[j + 1];
        }
      }
      DistinctKeysCount(xs[1..], key);
      forall i | 0 <= i < |xs[1..]| ensures key(xs[1..][i]) != key(xs[0]) {
        assert xs[1..][i] == xs[i + 1];
      }
      assert key(xs[0]) !in KeySet(xs[1..], key);
    }
  }

  /** The facts that pin `DedupBy` down: keys are pairwise distinct, no key is
      lost, each survivor is the first element with its key, and survivors come
      in the order in which their keys first occur. */
  lemma DedupByCharacterised<T, K>(xs: seq<T>, key: T -> K)
    ensures var r := DedupBy(xs, key);
      && KeysDistinct(r, key)
      && KeySet(r, key) == KeySet(xs, key)
      && IsSubsequence(r, xs)
      && (forall y :: y in r ==> FirstWith(xs, key, key(y)) == Some(y))
      && InFirstOccurrenceOrder(r, xs, key)
  {
    DedupFromKeys(xs, key, {});
    DedupFromOrder(xs, key, {});
    DedupFromFirst(xs, key, {});
    DedupFromFirstOrder(xs, key, {});
  }

  /** The element form of the same facts, for `Distinct`. */
  lemma DistinctCharacterised<T>(xs: seq<T>)
    ensures var r := Distinct(xs);
      && (forall i, j :: 0 <= i < j < |r| ==> r[i] != r[j])
      && (forall x :: x in xs <==> x in r)
      && IsSubsequence(r, xs)
      && InFirstOccurrenceOrder(r, xs, Id)
  {
    var r := Distinct(xs);
    DedupByCharacterised(xs, Id);
    forall x | x in xs ensures x in r {
      var i :| 0 <= i < |xs| && xs[i] == x;
      assert Id(xs[i]) in KeySet(xs, Id);
    }
    forall x | x in r ensures x in xs {
      var i :| 0 <= i < |r| && r[i] == x;
      assert Id(r[i]) in KeySet(r, Id);
    }
  }

  /** One element more: `Distinct` keeps it exactly when it is new. */
  lemma DistinctSnoc<T>(xs: seq<T>, x: T)
    ensures Distinct(xs + [x]) == Distinct(xs) + (if x in xs then [] else [x])
  {
    DedupFromSnoc(xs, x, Id, {});
    if x in xs {
      var i :| 0 <= i < |xs| && xs[i] == x;
      assert Id(xs[i]) in KeySet(xs, Id);
    } else {
      assert Id(x) !in KeySet(xs, Id);
    }
  }
}
