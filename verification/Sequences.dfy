/** Facts about finite sequences used by the queue, the float printer and the JSON code. */
module Sequences {

  ghost predicate NoDup<T>(s: seq<T>) {
    forall i, j :: 0 <= i < j < |s| ==> s[i] != s[j]
  }

  lemma NoDupTail<T>(s: seq<T>)
    requires NoDup(s) && s != []
    ensures NoDup(s[1..]) && s[0] !in s[1..]
  {
  }

  lemma NoDupAppend<T>(s: seq<T>, x: T)
    requires NoDup(s) && x !in s
    ensures NoDup(s + [x])
  {
  }

  function Insert<T>(s: seq<T>, k: nat, x: T): (r: seq<T>)
    requires k <= |s|
    ensures |r| == |s| + 1
  {
    s[..k] + [x] + s[k..]
  }

  lemma InsertMembers<T>(s: seq<T>, k: nat, x: T)
    requires k <= |s|
    ensures forall y :: y in Insert(s, k, x) <==> y == x || y in s
    ensures Insert(s, k, x)[0] == if k == 0 then x else s[0]
  {
    assert s == s[..k] + s[k..];
  }

  lemma InsertNoDup<T(!new)>(s: seq<T>, k: nat, x: T)
    requires NoDup(s) && x !in s && k <= |s|
    ensures NoDup(Insert(s, k, x))
  {
    assert s == s[..k] + s[k..];
  }

  lemma Associative<T>(a: seq<T>, b: seq<T>, c: seq<T>)
    ensures (a + b) + c == a + (b + c)
  {
  }

  lemma PrefixOfCons<T>(s: seq<T>, k: nat)
    requires 0 < k <= |s|
    ensures s[..k] == [s[0]] + s[1..][..k - 1]
    ensures s[k..] == s[1..][k - 1..]
  {
  }

  /** The sequence without the first occurrence of x. */
  function Remove<T(==)>(s: seq<T>, x: T): (r: seq<T>)
    ensures x !in s ==> r == s
  {
    if s == [] then [] else if s[0] == x then s[1..] else [s[0]] + Remove(s[1..], x)
  }

  function Filter<T(!new)>(s: seq<T>, f: T -> bool): (r: seq<T>)
    ensures |r| <= |s|
  {
    if s == [] then [] else (if f(s[0]) then [s[0]] else []) + Filter(s[1..], f)
  }

  function Reverse<T(!new)>(s: seq<T>): (r: seq<T>)
    ensures |r| == |s|
  {
    if s == [] then [] else Reverse(s[1..]) + [s[0]]
  }

  /** Total length of a list of queues. */
  function Total<T>(qs: seq<seq<T>>): nat {
    if qs == [] then 0 else |qs[0]| + Total(qs[1..])
  }

  lemma {:induction false} TotalUpdate<T>(qs: seq<seq<T>>, p: nat, q: seq<T>)
    requires p < |qs|
    ensures Total(qs[p := q]) == Total(qs) - |qs[p]| + |q|
  {
    if p == 0 {
      assert qs[p := q][1..] == qs[1..];
    } else {
      assert qs[p := q][1..] == qs[1..][p - 1 := q];
      TotalUpdate(qs[1..], p - 1, q);
    }
  }

  lemma {:induction false} TotalZero<T>(qs: seq<seq<T>>)
    ensures Total(qs) == 0 <==> forall p :: 0 <= p < |qs| ==> qs[p] == []
  {
    if qs != [] {
      TotalZero(qs[1..]);
      if Total(qs) == 0 {
        forall p | 0 <= p < |qs| ensures qs[p] == [] {
          if p > 0 { assert qs[p] == qs[1..][p - 1]; }
        }
      }
    }
  }

  lemma {:induction false} RemoveFacts<T(!new)>(s: seq<T>, x: T)
    requires NoDup(s)
    ensures NoDup(Remove(s, x))
    ensures forall y :: y in Remove(s, x) <==> y in s && y != x
    ensures |Remove(s, x)| == if x in s then |s| - 1 else |s|
  {
    if s != [] {
      assert s == [s[0]] + s[1..];
      RemoveFacts(s[1..], x);
      if s[0] == x {
        forall y ensures y in Remove(s, x) <==> y in s && y != x {
          if y in s[1..] { assert y != x; }
        }
      } else {
        var r := Remove(s[1..], x);
        assert s[0] !in r;
        assert NoDup([s[0]] + r);
      }
    }
  }

  lemma {:induction false} RemoveLast<T>(s: seq<T>)
    requires NoDup(s) && s != []
    ensures Remove(s, s[|s| - 1]) == s[..|s| - 1]
  {
    if |s| > 1 {
      RemoveLast(s[1..]);
      assert s[1..][..|s| - 2] == s[1..|s| - 1];
    }
  }

  lemma FilterCons<T(!new)>(x: T, s: seq<T>, f: T -> bool)
    ensures Filter([x] + s, f) == (if f(x) then [x] else []) + Filter(s, f)
  {
    assert ([x] + s)[1..] == s;
  }

  lemma {:induction false} FilterConcat<T(!new)>(a: seq<T>, b: seq<T>, f: T -> bool)
    ensures Filter(a + b, f) == Filter(a, f) + Filter(b, f)
  {
    if a == [] {
      assert a + b == b;
    } else {
      FilterConcat(a[1..], b, f);
      var c, h := a + b, if f(a[0]) then [a[0]] else [];
      assert c[1..] == a[1..] + b && c[0] == a[0];
      assert Filter(c, f) == h + Filter(c[1..], f);
      assert h + (Filter(a[1..], f) + Filter(b, f)) == (h + Filter(a[1..], f)) + Filter(b, f);
    }
  }

  lemma FilterNext<T(!new)>(s: seq<T>, i: nat, f: T -> bool)
    requires i < |s|
    ensures Filter(s[..i + 1], f) == Filter(s[..i], f) + if f(s[i]) then [s[i]] else []
    ensures s[i] in s
  {
    assert s[..i + 1] == s[..i] + [s[i]];
    FilterConcat(s[..i], [s[i]], f);
    FilterCons(s[i], [], f);
  }

  lemma {:induction false} FilterCongruent<T(!new)>(s: seq<T>, f: T -> bool, g: T -> bool)
    requires forall x :: x in s ==> f(x) == g(x)
    ensures Filter(s, f) == Filter(s, g)
  {
    if s != [] {
      assert forall x :: x in s[1..] ==> x in s;
      FilterCongruent(s[1..], f, g);
    }
  }

  lemma {:induction false} FilterAll<T(!new)>(s: seq<T>, f: T -> bool)
    requires forall x :: x in s ==> f(x)
    ensures Filter(s, f) == s
  {
    if s != [] { FilterAll(s[1..], f); }
  }

  lemma {:induction false} ReverseConcat<T(!new)>(a: seq<T>, b: seq<T>)
    ensures Reverse(a + b) == Reverse(b) + Reverse(a)
  {
    if a == [] {
      assert a + b == b;
    } else {
      ReverseConcat(a[1..], b);
      assert (a + b)[1..] == a[1..] + b;
    }
  }
}
