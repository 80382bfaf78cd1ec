/** The order in which `std::map<std::string, ...>` visits its keys. */
module Keys {
  import opened Sequences

  /** Byte-wise lexicographic order: `std::less<std::string>`. */
  predicate Less(a: string, b: string) {
    if b == "" then false
    else if a == "" then true
    else if a[0] != b[0] then a[0] < b[0]
    else Less(a[1..], b[1..])
  }

  lemma {:induction false} LessTotal(a: string, b: string)
    ensures Less(a, b) || a == b || Less(b, a)
    ensures !(Less(a, b) && (Less(b, a) || a == b))
  {
    if a != "" && b != "" && a[0] == b[0] {
      LessTotal(a[1..], b[1..]);
      assert a == [a[0]] + a[1..] && b == [b[0]] + b[1..];
    }
  }

  lemma {:induction false} LessTransitive(a: string, b: string, c: string)
    requires Less(a, b) && Less(b, c)
    ensures Less(a, c)
  {
    if a != "" && a[0] == b[0] == c[0] {
      LessTransitive(a[1..], b[1..], c[1..]);
    }
  }

  /** b goes on behind a, or has the larger character where they first differ. */
  ghost predicate Precedes(a: string, b: string) {
    exists n: nat :: n <= |a| && n < |b| && a[..n] == b[..n] && (n == |a| || (n < |a| && a[n] < b[n]))
  }

  lemma {:induction false} LessIs(a: string, b: string)
    ensures Less(a, b) <==> Precedes(a, b)
  {
    if a != "" && b != "" && a[0] == b[0] {
      LessIs(a[1..], b[1..]);
      if n: nat :| n <= |a| && n < |b| && a[..n] == b[..n] && (n == |a| || (n < |a| && a[n] < b[n])) {
        assert n > 0;
        assert a[1..][..n - 1] == a[..n][1..] && b[1..][..n - 1] == b[..n][1..];
      }
      if n: nat :| n <= |a[1..]| && n < |b[1..]| && a[1..][..n] == b[1..][..n] && (n == |a[1..]| || (n < |a[1..]| && a[1..][n] < b[1..][n])) {
        assert a[..n + 1] == [a[0]] + a[1..][..n] && b[..n + 1] == [b[0]] + b[1..][..n];
      }
    } else if Less(a, b) {
      assert a[..0] == b[..0];
    }
  }

  predicate IsFirst(k: string, ks: set<string>) {
    k in ks && forall x :: x in ks && x != k ==> Less(k, x)
  }

  lemma {:induction false} FirstExists(ks: set<string>)
    requires ks != {}
    ensures exists k :: IsFirst(k, ks)
    decreases |ks|
  {
    var x :| x in ks;
    if ks == {x} {
      assert IsFirst(x, ks);
    } else {
      assert ks - {x} != {};
      FirstExists(ks - {x});
      var k :| IsFirst(k, ks - {x});
      LessTotal(x, k);
      if Less(k, x) {
        assert IsFirst(k, ks);
      } else {
        forall y | y in ks && y != x ensures Less(x, y) {
          if y != k { LessTransitive(x, k, y); }
        }
        assert IsFirst(x, ks);
      }
    }
  }

  lemma FirstUnique(ks: set<string>, a: string, b: string)
    requires IsFirst(a, ks) && IsFirst(b, ks)
    ensures a == b
  {
    LessTotal(a, b);
  }

  function First(ks: set<string>): (k: string)
    requires ks != {}
    ensures IsFirst(k, ks)
  {
    FirstExists(ks);
    assert forall a, b | IsFirst(a, ks) && IsFirst(b, ks) :: a == b by {
      forall a, b | IsFirst(a, ks) && IsFirst(b, ks) ensures a == b { FirstUnique(ks, a, b); }
    }
    var k :| k in ks && IsFirst(k, ks);
    k
  }

  ghost predicate Ascending(s: seq<string>) {
    forall i, j :: 0 <= i < j < |s| ==> Less(s[i], s[j])
  }

  /** The keys of a map in iteration order. */
  function Sorted(ks: set<string>): (s: seq<string>)
    ensures |s| == |ks|
    ensures forall k :: k in s <==> k in ks
    ensures Ascending(s)
    decreases |ks|
  {
    if ks == {} then [] else [First(ks)] + Sorted(ks - {First(ks)})
  }

  lemma SortedNoDup(ks: set<string>)
    ensures NoDup(Sorted(ks))
  {
    var s := Sorted(ks);
    forall i, j | 0 <= i < j < |s| ensures s[i] != s[j] {
      LessTotal(s[i], s[j]);
      assert Less(s[i], s[j]);
    }
  }
}
