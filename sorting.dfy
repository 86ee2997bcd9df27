/** A stable insertion sort of records by a string key, ascending or
    descending. It stands for the three orderings the system applies:
    transactions newest-first by date, day keys newest-first and plans by
    ascending due date. */
module Sorting {

  import opened IsoDates
  import opened Seqs

  /** Key ka belongs strictly before key kb in the requested direction. */
  predicate Ahead(ka: string, kb: string, desc: bool) {
    if desc then LexLt(kb, ka) else LexLt(ka, kb)
  }

  lemma AheadIrreflexive(k: string, desc: bool)
    ensures !Ahead(k, k, desc)
  {
    LexLtIrreflexive(k);
  }

  lemma AheadTransitive(a: string, b: string, c: string, desc: bool)
    requires Ahead(a, b, desc) && Ahead(b, c, desc)
    ensures Ahead(a, c, desc)
  {
    if desc { LexLtTransitive(c, b, a); } else { LexLtTransitive(a, b, c); }
  }

  lemma AheadTotal(a: string, b: string, desc: bool)
    requires a != b
    ensures Ahead(a, b, desc) || Ahead(b, a, desc)
  {
    LexLtTotal(a, b);
  }

  /** "Not strictly ahead" is transitive: the order is total. */
  lemma NotAheadTransitive(a: string, b: string, c: string, desc: bool)
    requires !Ahead(c, b, desc) && !Ahead(b, a, desc)
    ensures !Ahead(c, a, desc)
  {
    if Ahead(c, a, desc) {
      if c == b || b == a {
      } else {
        AheadTotal(b, c, desc);
        AheadTotal(a, b, desc);
        AheadTransitive(a, b, c, desc);
        AheadTransitive(c, a, c, desc);
        AheadIrreflexive(c, desc);
      }
    }
  }

  /** No later element belongs strictly before an earlier one. */
  predicate SortedBy<T>(s: seq<T>, key: T -> string, desc: bool) {
    forall i, j :: 0 <= i < j < |s| ==> !Ahead(key(s[j]), key(s[i]), desc)
  }

  /** Places x before the first element that is not strictly ahead of it,
      so x precedes the elements with an equal key. */
  function Insert<T>(x: T, s: seq<T>, key: T -> string, desc: bool): seq<T> {
    if s == [] then [x]
    else if Ahead(key(s[0]), key(x), desc) then [s[0]] + Insert(x, s[1..], key, desc)
    else [x] + s
  }

  /** A head that no later element is strictly ahead of keeps the list sorted. */
  lemma SortedCons<T>(y: T, r: seq<T>, key: T -> string, desc: bool)
    requires SortedBy(r, key, desc)
    requires forall z :: z in r ==> !Ahead(key(z), key(y), desc)
    ensures SortedBy([y] + r, key, desc)
  {
    var q := [y] + r;
    forall i, j | 0 <= i < j < |q|
      ensures !Ahead(key(q[j]), key(q[i]), desc)
    {
      assert q[j] == r[j - 1];
      if i > 0 {
        assert q[i] == r[i - 1];
      }
    }
  }

  lemma {:induction false} InsertMultiset<T>(x: T, s: seq<T>, key: T -> string, desc: bool)
    ensures multiset(Insert(x, s, key, desc)) == multiset(s) + multiset{x}
  {
    if s != [] && Ahead(key(s[0]), key(x), desc) {
      InsertMultiset(x, s[1..], key, desc);
      assert s == [s[0]] + s[1..];
    }
  }

  lemma {:induction false} InsertSorted<T>(x: T, s: seq<T>, key: T -> string, desc: bool)
    requires SortedBy(s, key, desc)
    ensures SortedBy(Insert(x, s, key, desc), key, desc)
    ensures multiset(Insert(x, s, key, desc)) == multiset(s) + multiset{x}
  {
    InsertMultiset(x, s, key, desc);
    if s == [] {
    } else if Ahead(key(s[0]), key(x), desc) {
      var rest := Insert(x, s[1..], key, desc);
      InsertSorted(x, s[1..], key, desc);
      forall y | y in rest
        ensures !Ahead(key(y), key(s[0]), desc)
      {
        assert y in multiset(rest);
        if y == x {
          if Ahead(key(x), key(s[0]), desc) {
            AheadTransitive(key(s[0]), key(x), key(s[0]), desc);
            AheadIrreflexive(key(s[0]), desc);
          }
        } else {
          assert y in multiset(s[1..]);
          var j :| 0 <= j < |s[1..]| && s[1..][j] == y;
          assert s[j + 1] == y;
        }
      }
      SortedCons(s[0], rest, key, desc);
    } else {
      forall z | z in s
        ensures !Ahead(key(z), key(x), desc)
      {
        var j :| 0 <= j < |s| && s[j] == z;
        if j > 0 {
          NotAheadTransitive(key(x), key(s[0]), key(s[j]), desc);
        }
      }
      SortedCons(x, s, key, desc);
    }
  }

  /** Sorts s by key: the result is ordered and is a permutation of s. */
  function SortBy<T>(s: seq<T>, key: T -> string, desc: bool): (r: seq<T>)
    ensures SortedBy(r, key, desc)
    ensures multiset(r) == multiset(s)
  {
    if s == [] then []
    else
      var rest := SortBy(s[1..], key, desc);
      InsertSorted(s[0], rest, key, desc);
      assert s == [s[0]] + s[1..];
      assert multiset(s) == multiset(s[1..]) + multiset{s[0]};
      Insert(s[0], rest, key, desc)
  }

  lemma {:induction false} InsertDistinct<T>(x: T, s: seq<T>, key: T -> string, desc: bool)
    requires Distinct(s) && x !in s
    ensures Distinct(Insert(x, s, key, desc))
  {
    if s == [] {
    } else if Ahead(key(s[0]), key(x), desc) {
      HeadNotInTail(s);
      DistinctTail(s);
      InsertDistinct(x, s[1..], key, desc);
      var rest := Insert(x, s[1..], key, desc);
      InsertMultiset(x, s[1..], key, desc);
      assert s[0] !in multiset(rest);
      ConsDistinct(s[0], rest);
    } else {
      ConsDistinct(x, s);
    }
  }

  lemma DistinctTail<T>(s: seq<T>)
    requires s != [] && Distinct(s)
    ensures Distinct(s[1..])
  {
    forall i, j | 0 <= i < j < |s[1..]| ensures s[1..][i] != s[1..][j] {
      assert s[1..][i] == s[i + 1] && s[1..][j] == s[j + 1];
    }
  }

  /** A new head in front of a list without repeats gives a list without repeats. */
  lemma ConsDistinct<T>(y: T, r: seq<T>)
    requires Distinct(r) && y !in r
    ensures Distinct([y] + r)
  {
    var q := [y] + r;
    forall i, j | 0 <= i < j < |q| ensures q[i] != q[j] {
      assert q[j] == r[j - 1];
      if i > 0 {
        assert q[i] == r[i - 1];
      }
    }
  }

  lemma HeadNotInTail<T>(s: seq<T>)
    requires s != [] && Distinct(s)
    ensures s[0] !in s[1..]
  {
    forall j | 0 <= j < |s[1..]| ensures s[1..][j] != s[0] {
      assert s[1..][j] == s[j + 1];
    }
  }

  /** Sorting a list without repeats gives a list without repeats. */
  lemma {:induction false} SortDistinct<T>(s: seq<T>, key: T -> string, desc: bool)
    requires Distinct(s)
    ensures Distinct(SortBy(s, key, desc))
  {
    if s != [] {
      SortDistinct(s[1..], key, desc);
      var rest := SortBy(s[1..], key, desc);
      HeadNotInTail(s);
      assert s[0] !in multiset(rest);
      InsertDistinct(s[0], rest, key, desc);
    }
  }

  /** In a sorted list without repeated keys, every earlier key is strictly ahead. */
  lemma StrictlySorted<T>(s: seq<T>, key: T -> string, desc: bool)
    requires SortedBy(s, key, desc) && UniqueBy(s, key)
    ensures forall i, j :: 0 <= i < j < |s| ==> Ahead(key(s[i]), key(s[j]), desc)
  {
    forall i, j | 0 <= i < j < |s| ensures Ahead(key(s[i]), key(s[j]), desc) {
      AheadTotal(key(s[i]), key(s[j]), desc);
    }
  }

  /** The first k elements of a sorted list are the top k: nothing left
      out is strictly ahead of anything kept. */
  lemma PrefixIsTop<T>(s: seq<T>, k: nat, key: T -> string, desc: bool)
    requires SortedBy(s, key, desc) && k <= |s|
    ensures multiset(s) == multiset(s[..k]) + multiset(s[k..])
    ensures forall t, u :: t in multiset(s) - multiset(s[..k]) && u in s[..k] ==> !Ahead(key(t), key(u), desc)
  {
    assert s == s[..k] + s[k..];
    forall t, u | t in multiset(s) - multiset(s[..k]) && u in s[..k]
      ensures !Ahead(key(t), key(u), desc)
    {
      assert t in s[k..];
      var j :| 0 <= j < |s[k..]| && s[k..][j] == t;
      var i :| 0 <= i < k && s[..k][i] == u;
      assert s[i] == u && s[k + j] == t;
    }
  }
}
