/** Small shared vocabulary: optional values, checked results, and the list operations that the
    repository's comprehensions use. */
module Common {

  datatype Option<+T> = None | Some(value: T)

  /** A computation of the source that either returns a value or raises. */
  datatype Result<+T> = Ok(value: T) | Err(error: string)

  /** An identifier the source keeps as text: an instrument code, a hash, a run id. Only its identity
      matters, never its characters. */
  datatype Id = Id(text: string)

  function Abs(x: real): (r: real) {
    if x < 0.0 then -x else x
  }

  function Max(x: real, y: real): real {
    if x >= y then x else y
  }

  function Square(x: real): (r: real)
    ensures r >= 0.0
  {
    x * x
  }

  /** `[x for x in xs if keep(x)]` */
  function Filter<T>(xs: seq<T>, keep: T -> bool): (r: seq<T>) {
    if xs == [] then []
    else
      var rest := Filter(xs[..|xs| - 1], keep);
      if keep(xs[|xs| - 1]) then rest + [xs[|xs| - 1]] else rest
  }

  /** `[f(x) for x in xs]` */
  function Map<T, U>(xs: seq<T>, f: T -> U): (r: seq<U>)
    ensures |r| == |xs|
    ensures forall i :: 0 <= i < |xs| ==> r[i] == f(xs[i])
  {
    seq(|xs|, i requires 0 <= i < |xs| => f(xs[i]))
  }

  lemma Regroup<T>(a: seq<T>, b: seq<T>, c: seq<T>)
    ensures a + b + c == a + (b + c)
  {
  }

  lemma MapSnoc<T, U>(xs: seq<T>, x: T, f: T -> U)
    ensures Map(xs + [x], f) == Map(xs, f) + [f(x)]
  {
  }

  /** `list(dict.fromkeys(xs))`: first occurrences, in order. */
  function Unique<T(==)>(xs: seq<T>): (r: seq<T>) {
    if xs == [] then []
    else
      var rest := Unique(xs[..|xs| - 1]);
      if xs[|xs| - 1] in rest then rest else rest + [xs[|xs| - 1]]
  }

  lemma DistinctSnoc<T>(xs: seq<T>, x: T)
    requires NoDuplicates(xs) && x !in xs
    ensures NoDuplicates(xs + [x])
  {
    SetOfSnoc(xs, x);
    assert x !in ToSet(xs);
    assert multiset(ToSet(xs) + {x}) == multiset(ToSet(xs)) + multiset{x};
  }

  lemma SetOfSnoc<T>(xs: seq<T>, x: T)
    ensures ToSet(xs + [x]) == ToSet(xs) + {x}
  {
  }

  lemma {:induction false} UniqueMembers<T>(xs: seq<T>)
    ensures ToSet(Unique(xs)) == ToSet(xs)
    ensures NoDuplicates(Unique(xs))
  {
    if xs != [] {
      var init, last := xs[..|xs| - 1], xs[|xs| - 1];
      UniqueMembers(init);
      assert xs == init + [last];
      SetOfSnoc(init, last);
      assert last in Unique(init) <==> last in ToSet(Unique(init));
      if last !in Unique(init) {
        SetOfSnoc(Unique(init), last);
        DistinctSnoc(Unique(init), last);
      }
    }
  }

  lemma InUnique<T>(xs: seq<T>, x: T)
    ensures x in Unique(xs) <==> x in xs
  {
    UniqueMembers(xs);
    assert x in Unique(xs) <==> x in ToSet(Unique(xs));
    assert x in xs <==> x in ToSet(xs);
  }

  lemma UniqueSnoc<T>(xs: seq<T>, y: T)
    ensures Unique(xs + [y]) == if y in xs then Unique(xs) else Unique(xs) + [y]
  {
    assert (xs + [y])[..|xs|] == xs;
    InUnique(xs, y);
  }

  lemma FilterSnoc<T>(xs: seq<T>, y: T, keep: T -> bool)
    ensures Filter(xs + [y], keep) == if keep(y) then Filter(xs, keep) + [y] else Filter(xs, keep)
  {
    assert (xs + [y])[..|xs|] == xs;
  }

  /** A table with a row replaced, possibly under a new primary key. */
  function Move<V>(rows: map<Id, V>, id: Id, newId: Id, row: V): map<Id, V> {
    (rows - {id})[newId := row]
  }

  function ToSet<T>(xs: seq<T>): set<T> {
    set x | x in xs
  }

  /** Scaling a non-negative number by a factor in [0, 1] keeps it between zero and itself. */
  lemma ScaleDown(factor: real, x: real)
    requires 0.0 <= factor <= 1.0 && x >= 0.0
    ensures 0.0 <= factor * x <= x
  {
    assert x - factor * x == (1.0 - factor) * x;
    assert (1.0 - factor) * x >= 0.0;
  }

  function Sum(xs: seq<real>): real {
    if xs == [] then 0.0 else Sum(xs[..|xs| - 1]) + xs[|xs| - 1]
  }

  /** No element is listed twice: counting with and without multiplicity agree. */
  ghost predicate NoDuplicates<T>(xs: seq<T>) {
    multiset(xs) == multiset(ToSet(xs))
  }

  lemma {:induction false} SubsetSize<T>(small: set<T>, large: set<T>)
    requires small <= large
    ensures |small| <= |large|
  {
    if small != {} {
      var x :| x in small;
      SubsetSize(small - {x}, large - {x});
    }
  }

  lemma DistinctSize<T>(xs: seq<T>)
    requires NoDuplicates(xs)
    ensures |ToSet(xs)| == |xs|
  {
    assert |multiset(xs)| == |xs|;
  }

  lemma DistinctInit<T>(xs: seq<T>, x: T)
    requires NoDuplicates(xs + [x])
    ensures NoDuplicates(xs) && x !in xs
  {
    assert multiset(xs + [x]) == multiset(xs) + multiset{x};
    assert multiset(xs + [x])[x] == 1;
    assert ToSet(xs + [x]) == ToSet(xs) + {x};
    assert x !in xs by {
      assert x in xs ==> x in multiset(xs);
    }
    assert multiset(ToSet(xs)) == multiset(ToSet(xs + [x])) - multiset{x};
    assert multiset(xs) == multiset(xs + [x]) - multiset{x};
  }

  lemma {:induction false} DistinctPrefix<T>(xs: seq<T>, n: nat)
    requires NoDuplicates(xs) && n <= |xs|
    ensures NoDuplicates(xs[..n])
    decreases |xs| - n
  {
    if n < |xs| {
      DistinctPrefix(xs, n + 1);
      assert xs[..n + 1] == xs[..n] + [xs[n]];
      DistinctInit(xs[..n], xs[n]);
    } else {
      assert xs[..n] == xs;
    }
  }

  lemma DistinctAt<T>(xs: seq<T>, i: nat, j: nat)
    requires NoDuplicates(xs) && i < |xs| && j < |xs|
    ensures xs[i] == xs[j] <==> i == j
  {
    if i != j {
      var lo, hi := if i < j then i else j, if i < j then j else i;
      DistinctPrefix(xs, hi + 1);
      assert xs[..hi + 1] == xs[..hi] + [xs[hi]];
      DistinctInit(xs[..hi], xs[hi]);
      assert xs[..hi][lo] == xs[lo];
    }
  }

  lemma {:induction false} UniqueOfDistinct<T>(xs: seq<T>)
    requires forall i, j :: 0 <= i < j < |xs| ==> xs[i] != xs[j]
    ensures Unique(xs) == xs
  {
    if xs != [] {
      var init, last := xs[..|xs| - 1], xs[|xs| - 1];
      UniqueOfDistinct(init);
      assert xs == init + [last];
    }
  }

  /** `len(xs) == len(set(xs))`: no two elements are equal. */
  lemma UniqueIff<T>(xs: seq<T>)
    ensures Unique(xs) == xs <==> forall i, j :: 0 <= i < j < |xs| ==> xs[i] != xs[j]
  {
    if Unique(xs) == xs {
      UniqueMembers(xs);
      forall i, j | 0 <= i < j < |xs| ensures xs[i] != xs[j] {
        DistinctAt(xs, i, j);
      }
    }
    if forall i, j :: 0 <= i < j < |xs| ==> xs[i] != xs[j] {
      UniqueOfDistinct(xs);
    }
  }

  lemma DistinctCons<T>(x: T, xs: seq<T>)
    requires NoDuplicates(xs) && x !in xs
    ensures NoDuplicates([x] + xs)
  {
    assert ToSet([x] + xs) == {x} + ToSet(xs);
    assert multiset({x} + ToSet(xs)) == multiset{x} + multiset(ToSet(xs));
  }

  lemma DistinctTail<T>(xs: seq<T>)
    requires NoDuplicates(xs) && xs != []
    ensures NoDuplicates(xs[1..]) && xs[0] !in xs[1..]
  {
    var x, rest := xs[0], xs[1..];
    assert xs == [x] + rest;
    assert multiset(rest + [x]) == multiset(xs);
    assert ToSet(rest + [x]) == ToSet(xs);
    DistinctInit(rest, x);
  }

  /** Two duplicate-free lists of the same members are permutations of one another. */
  lemma DistinctMembersPermute<T>(xs: seq<T>, ys: seq<T>)
    requires NoDuplicates(xs) && NoDuplicates(ys) && ToSet(xs) == ToSet(ys)
    ensures multiset(xs) == multiset(ys)
  {
  }

  lemma {:induction false} FilterMembers<T>(xs: seq<T>, keep: T -> bool)
    ensures forall x :: x in Filter(xs, keep) <==> x in xs && keep(x)
    ensures |Filter(xs, keep)| <= |xs|
  {
    if xs != [] {
      var init := xs[..|xs| - 1];
      FilterMembers(init, keep);
      assert xs == init + [xs[|xs| - 1]];
    }
  }

  lemma {:induction false} FilterConcat<T>(xs: seq<T>, ys: seq<T>, keep: T -> bool)
    ensures Filter(xs + ys, keep) == Filter(xs, keep) + Filter(ys, keep)
  {
    if ys == [] {
      assert xs + ys == xs;
    } else {
      var init := ys[..|ys| - 1];
      FilterConcat(xs, init, keep);
      assert (xs + ys)[..|xs + ys| - 1] == xs + init;
    }
  }

  /** Filtering sees a list only up to the order of its elements. */
  lemma {:induction false} FilterPermutation<T>(xs: seq<T>, ys: seq<T>, keep: T -> bool)
    requires multiset(xs) == multiset(ys)
    ensures multiset(Filter(xs, keep)) == multiset(Filter(ys, keep))
    ensures |Filter(xs, keep)| == |Filter(ys, keep)|
  {
    PermutationMembers(xs, ys);
    if xs != [] {
      var x := xs[|xs| - 1];
      assert x in ys;
      var j :| 0 <= j < |ys| && ys[j] == x;
      var init, before, after := xs[..|xs| - 1], ys[..j], ys[j + 1..];
      assert xs == init + [x];
      assert ys == before + [x] + after;
      assert multiset(xs) == multiset(init) + multiset{x};
      assert multiset(ys) == multiset(before + after) + multiset{x};
      assert multiset(init) == multiset(xs) - multiset{x};
      assert multiset(before + after) == multiset(ys) - multiset{x};
      FilterPermutation(init, before + after, keep);
      FilterConcat(before, after, keep);
      FilterConcat(before + [x], after, keep);
      FilterConcat(before, [x], keep);
      FilterConcat(init, [x], keep);
    }
    assert |multiset(Filter(xs, keep))| == |multiset(Filter(ys, keep))|;
  }

  /** Nothing survives a filter that rejects every element. */
  lemma {:induction false} FilterNone<T>(xs: seq<T>, keep: T -> bool)
    requires forall x :: x in xs ==> !keep(x)
    ensures Filter(xs, keep) == []
  {
    if xs != [] {
      FilterNone(xs[..|xs| - 1], keep);
    }
  }

  /** Everything survives a filter that accepts every element. */
  lemma {:induction false} FilterAll<T>(xs: seq<T>, keep: T -> bool)
    requires forall x :: x in xs ==> keep(x)
    ensures Filter(xs, keep) == xs
  {
    if xs != [] {
      FilterAll(xs[..|xs| - 1], keep);
      assert xs == xs[..|xs| - 1] + [xs[|xs| - 1]];
    }
  }

  lemma PermutationMembers<T>(xs: seq<T>, ys: seq<T>)
    requires multiset(xs) == multiset(ys)
    ensures forall x :: x in xs <==> x in ys
    ensures |xs| == |ys|
  {
    forall x ensures x in xs <==> x in ys {
      assert x in xs <==> x in multiset(xs);
    }
    assert |multiset(xs)| == |multiset(ys)|;
  }

  /** Lexicographic order on text. */
  predicate TextBefore(a: string, b: string) {
    if b == "" then false
    else if a == "" then true
    else if a[0] != b[0] then a[0] < b[0]
    else TextBefore(a[1..], b[1..])
  }

  lemma {:induction false} TextOrder(a: string, b: string, c: string)
    ensures !TextBefore(a, a)
    ensures a == b || TextBefore(a, b) || TextBefore(b, a)
    ensures TextBefore(a, b) && TextBefore(b, c) ==> TextBefore(a, c)
    decreases |a| + |b| + |c|
  {
    if a != "" && b != "" && c != "" {
      TextOrder(a[1..], b[1..], c[1..]);
      assert a == [a[0]] + a[1..] && b == [b[0]] + b[1..];
    } else if a != "" && b != "" {
      TextOrder(a[1..], b[1..], c);
      assert a == [a[0]] + a[1..] && b == [b[0]] + b[1..];
    } else if a != "" {
      TextOrder(a[1..], b, c);
    }
  }

  /** A proper prefix, or a smaller character at the first difference. */
  predicate ComesFirst(a: string, b: string) {
    (|a| < |b| && a == b[..|a|]) || exists k :: 0 <= k < |a| && k < |b| && a[..k] == b[..k] && a[k] < b[k]
  }

  lemma FirstDifferenceLater(a: string, b: string)
    requires a != "" && b != "" && a[0] == b[0]
    ensures ComesFirst(a, b) <==> ComesFirst(a[1..], b[1..])
  {
    assert a == [a[0]] + a[1..] && b == [b[0]] + b[1..];
    if |a| < |b| && a == b[..|a|] {
      assert a[1..] == b[1..][..|a| - 1];
    }
    if |a| < |b| && a[1..] == b[1..][..|a| - 1] {
      assert a == b[..|a|];
    }
    if k :| 0 <= k < |a| && k < |b| && a[..k] == b[..k] && a[k] < b[k] {
      assert a[1..][..k - 1] == a[1..k] == b[1..k] == b[1..][..k - 1];
      assert a[1..][k - 1] < b[1..][k - 1];
    }
    if k :| 0 <= k < |a| - 1 && k < |b| - 1 && a[1..][..k] == b[1..][..k] && a[1..][k] < b[1..][k] {
      assert a[..k + 1] == [a[0]] + a[1..][..k] && b[..k + 1] == [b[0]] + b[1..][..k];
      assert a[k + 1] < b[k + 1];
    }
  }

  /** Text is compared character by character. */
  lemma {:induction false} TextBeforeIff(a: string, b: string)
    ensures TextBefore(a, b) <==> ComesFirst(a, b)
  {
    if a != "" && b != "" {
      if a[0] == b[0] {
        TextBeforeIff(a[1..], b[1..]);
        FirstDifferenceLater(a, b);
      } else if a[0] < b[0] {
        assert a[..0] == b[..0];
      } else {
        assert forall k :: 0 < k < |a| && k < |b| && a[..k] == b[..k] ==> a[..k][0] == b[..k][0];
      }
    }
  }
}
