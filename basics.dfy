/** Shared wrappers: optional values, the exceptions the pipeline can raise, and results. */
module Basics {

  datatype Option<T> = None | Some(value: T)

  /** The exceptions of the report pipeline, by kind. */
  datatype Error =
    | MissingColumn(name: string)   // KeyError: a column (or row field) that is not there
    | ProbandNotFound(id: string)   // IndexError: no row carries the requested identity
    | TypeMismatch(column: string)  // TypeError: arithmetic on a value that is not a number
    | DuplicateHeader(name: string) // two headers that become the same name after normalisation

  datatype Result<T> = Ok(value: T) | Err(error: Error)

  /** Occurrences of `x` in `s`. */
  function Count<T(==)>(s: seq<T>, x: T): nat
  {
    if s == [] then 0 else Count(s[..|s| - 1], x) + (if s[|s| - 1] == x then 1 else 0)
  }

  /** No element occurs twice. */
  predicate Distinct<T(==)>(s: seq<T>)
  {
    forall i, j :: 0 <= i < j < |s| ==> s[i] != s[j]
  }

  /**
    `sub` keeps some of the elements of `s`, in the order they have in `s`: the
    last element of `s` is either the last one kept or dropped.
  */
  predicate Subsequence<T(==)>(sub: seq<T>, s: seq<T>)
  {
    || sub == []
    || (&& s != []
        && ((sub[|sub| - 1] == s[|s| - 1] && Subsequence(sub[..|sub| - 1], s[..|s| - 1])) || Subsequence(sub, s[..|s| - 1])))
  }

  /**
    The elements of `s` that satisfy `p`, in their order in `s` (FilterCount: as
    often as in `s`).
  */
  function Filter<T(==,!new)>(s: seq<T>, p: T -> bool): (r: seq<T>)
    ensures |r| <= |s|
    ensures forall x :: x in r <==> x in s && p(x)
    ensures Subsequence(r, s)
  {
    if s == [] then []
    else
      var init, last := s[..|s| - 1], s[|s| - 1];
      var kept := Filter(init, p);
      var r := kept + (if p(last) then [last] else []);
      assert Subsequence(r, s) by {
        if p(last) {
          assert r[..|r| - 1] == kept && r[|r| - 1] == last;
        } else {
          assert r == kept;
        }
      }
      r
  }

  /** Every element that passes occurs in the filtered sequence as often as in `s`, every other one not at all. */
  lemma {:induction false} FilterCount<T(!new)>(s: seq<T>, p: T -> bool)
    ensures forall x :: Count(Filter(s, p), x) == if p(x) then Count(s, x) else 0
  {
    if s != [] {
      var init, last := s[..|s| - 1], s[|s| - 1];
      FilterCount(init, p);
      var r := Filter(s, p);
      if p(last) {
        assert r[..|r| - 1] == Filter(init, p);
      } else {
        assert r == Filter(init, p);
      }
    }
  }

  /** Filtering a concatenation filters each part. */
  lemma {:induction false} FilterAppend<T(!new)>(a: seq<T>, b: seq<T>, p: T -> bool)
    ensures Filter(a + b, p) == Filter(a, p) + Filter(b, p)
    decreases |b|
  {
    if b == [] {
      assert a + b == a;
    } else {
      var init, last := b[..|b| - 1], b[|b| - 1];
      FilterAppend(a, init, p);
      assert (a + b)[..|a + b| - 1] == a + init;
      assert (a + b)[|a + b| - 1] == last;
      AppendAssoc(Filter(a, p), Filter(init, p), if p(last) then [last] else []);
    }
  }

  /** Keeping every element keeps the sequence. */
  lemma {:induction false} FilterAll<T(!new)>(s: seq<T>, p: T -> bool)
    requires forall x :: x in s ==> p(x)
    ensures Filter(s, p) == s
  {
    if s != [] {
      var init := s[..|s| - 1];
      FilterAll(init, p);
      assert s == init + [s[|s| - 1]];
    }
  }

  /** Two sequences of the same length that agree at every index are equal. */
  lemma SameElements<T>(a: seq<T>, b: seq<T>)
    requires |a| == |b| && forall k :: 0 <= k < |a| ==> a[k] == b[k]
    ensures a == b
  {
  }

  /** A non-empty sequence holds its first element. */
  lemma HeadMember<T>(s: seq<T>)
    requires s != []
    ensures s[0] in s
  {
  }

  /** Two tests that agree on every element of `s` keep the same elements. */
  lemma {:induction false} FilterCongruent<T(!new)>(s: seq<T>, p: T -> bool, q: T -> bool)
    requires forall x :: x in s ==> p(x) == q(x)
    ensures Filter(s, p) == Filter(s, q)
  {
    if s != [] {
      FilterCongruent(s[..|s| - 1], p, q);
    }
  }

  lemma {:induction false} FilterDistinct<T(!new)>(s: seq<T>, p: T -> bool)
    requires Distinct(s)
    ensures Distinct(Filter(s, p))
  {
    if s != [] {
      var init := s[..|s| - 1];
      FilterDistinct(init, p);
      assert s[|s| - 1] !in init;
    }
  }

  lemma {:induction false} CountAbsent<T>(s: seq<T>, x: T)
    ensures x !in s <==> Count(s, x) == 0
  {
    if s != [] {
      CountAbsent(s[..|s| - 1], x);
      assert s == s[..|s| - 1] + [s[|s| - 1]];
    }
  }

  lemma {:induction false} CountAppend<T>(s: seq<T>, y: T, x: T)
    ensures Count(s + [y], x) == Count(s, x) + (if y == x then 1 else 0)
  {
    assert (s + [y])[..|s + [y]| - 1] == s;
  }

  /** Dropping the head of `a + b` drops the head of `a`. */
  lemma TailOfAppend<T>(a: seq<T>, b: seq<T>)
    requires a != []
    ensures (a + b)[0] == a[0] && (a + b)[1..] == a[1..] + b
  {
  }

  lemma EmptyAppend<T>(a: seq<T>, b: seq<T>)
    requires a == []
    ensures a + b == b
  {
  }

  lemma AppendAssoc<T>(a: seq<T>, b: seq<T>, c: seq<T>)
    ensures a + (b + c) == (a + b) + c
  {
  }

  /**
    The values of a list of results, or the error of the first one that failed: what a
    loop computes that stops at the first exception.
  */
  function Collect<T>(rs: seq<Result<T>>): (r: Result<seq<T>>)
    ensures r.Ok? <==> forall k :: 0 <= k < |rs| ==> rs[k].Ok?
    ensures r.Ok? ==> |r.value| == |rs| && forall k :: 0 <= k < |rs| ==> rs[k] == Ok(r.value[k])
  {
    if rs == [] then Ok([])
    else
      var n := |rs| - 1;
      match Collect(rs[..n])
      case Err(e) => Err(e)
      case Ok(vs) =>
        match rs[n]
        case Err(e) => Err(e)
        case Ok(v) => Ok(vs + [v])
  }

  /** The error of a failed collection is that of the first result that failed. */
  lemma {:induction false} CollectFirstError<T>(rs: seq<Result<T>>)
    requires Collect(rs).Err?
    ensures exists k :: 0 <= k < |rs| && rs[k] == Err(Collect(rs).error) && forall j :: 0 <= j < k ==> rs[j].Ok?
  {
    var n := |rs| - 1;
    if Collect(rs[..n]).Err? {
      CollectFirstError(rs[..n]);
      var k :| 0 <= k < n && rs[..n][k] == Err(Collect(rs[..n]).error) && forall j :: 0 <= j < k ==> rs[..n][j].Ok?;
      assert Collect(rs).error == Collect(rs[..n]).error;
      assert rs[k] == rs[..n][k];
      assert forall j :: 0 <= j < k ==> rs[j] == rs[..n][j];
    } else {
      assert rs[n] == Err(Collect(rs).error);
      assert forall j :: 0 <= j < n ==> rs[j] == rs[..n][j];
    }
  }

  /** Collecting one more result. */
  lemma CollectAppend<T>(rs: seq<Result<T>>, x: Result<T>)
    ensures Collect(rs + [x]) == match Collect(rs)
      case Err(e) => Err(e)
      case Ok(vs) => (match x case Err(e) => Err(e) case Ok(v) => Ok(vs + [v]))
  {
    assert (rs + [x])[..|rs|] == rs;
  }

  /** Collecting one result more than a prefix. */
  lemma CollectStep<T>(rs: seq<Result<T>>, i: nat)
    requires i < |rs|
    ensures Collect(rs[..i + 1]) == match Collect(rs[..i])
      case Err(e) => Err(e)
      case Ok(vs) => (match rs[i] case Err(e) => Err(e) case Ok(v) => Ok(vs + [v]))
  {
    assert rs[..i + 1] == rs[..i] + [rs[i]];
    CollectAppend(rs[..i], rs[i]);
  }

  /** The first failure among the results is the error of the whole list. */
  lemma {:induction false} CollectStepError<T>(rs: seq<Result<T>>, i: nat)
    requires i < |rs| && Collect(rs[..i]).Ok? && rs[i].Err?
    ensures Collect(rs) == Err(rs[i].error)
    decreases |rs|
  {
    var n := |rs| - 1;
    var init := rs[..n];
    if i == n {
      assert init == rs[..i];
    } else {
      assert init[..i] == rs[..i] && init[i] == rs[i];
      CollectStepError(init, i);
    }
  }

  /** A failed prefix decides the collection of the whole list. */
  lemma {:induction false} CollectPrefixError<T>(a: seq<Result<T>>, b: seq<Result<T>>)
    requires Collect(a).Err?
    ensures Collect(a + b) == Collect(a)
  {
    if b != [] {
      var n := |b| - 1;
      CollectPrefixError(a, b[..n]);
      assert (a + b)[..|a| + n] == a + b[..n];
    } else {
      assert a + b == a;
    }
  }
}
