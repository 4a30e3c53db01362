/** Device identifiers and the byte order `sort.Strings` sorts them by. */
module Ids {

  /** A device id. The empty string stands for "no device", as in the source. */
  type Id = string

  /** Strict lexicographic order. */
  predicate Less(a: Id, b: Id)
  {
    if b == "" then false
    else if a == "" then true
    else a[0] < b[0] || (a[0] == b[0] && Less(a[1..], b[1..]))
  }

  predicate Leq(a: Id, b: Id)
  {
    a == b || Less(a, b)
  }

  /** One id comes before another when it is a proper prefix, or smaller where they first differ. */
  lemma {:induction false} LessIff(a: Id, b: Id)
    ensures Less(a, b) <==>
      exists i :: 0 <= i <= |a| && i < |b| && a[..i] == b[..i] && (i == |a| || a[i] < b[i])
  {
    if a != "" && b != "" && a[0] == b[0] {
      LessIff(a[1..], b[1..]);
      if Less(a, b) {
        var i :| 0 <= i <= |a[1..]| && i < |b[1..]| && a[1..][..i] == b[1..][..i]
                 && (i == |a[1..]| || a[1..][i] < b[1..][i]);
        assert a[..i + 1] == [a[0]] + a[1..][..i] && b[..i + 1] == [b[0]] + b[1..][..i];
        assert a[..i + 1] == b[..i + 1] && (i + 1 == |a| || a[i + 1] < b[i + 1]);
      }
      if i :| 0 <= i <= |a| && i < |b| && a[..i] == b[..i] && (i == |a| || a[i] < b[i]) {
        assert i > 0;
        assert a[1..][..i - 1] == a[..i][1..] && b[1..][..i - 1] == b[..i][1..];
        assert i - 1 == |a[1..]| || a[1..][i - 1] < b[1..][i - 1];
      }
    } else if Less(a, b) {
      assert a[..0] == b[..0] && (0 == |a| || a[0] < b[0]);
    } else {
      forall i | 0 <= i <= |a| && i < |b|
        ensures a[..i] == b[..i] ==> !(i == |a| || a[i] < b[i])
      {
        PrefixHead(a, b, i);
      }
    }
  }

  lemma PrefixHead(a: Id, b: Id, i: nat)
    requires 0 < i ==> i <= |a| && i <= |b|
    ensures 0 < i && a[..i] == b[..i] ==> a[0] == b[0]
  {
    if 0 < i { assert a[..i][0] == a[0] && b[..i][0] == b[0]; }
  }

  lemma {:induction false} LessTotal(a: Id, b: Id)
    ensures a == b || Less(a, b) || Less(b, a)
  {
    if a != "" && b != "" && a[0] == b[0] {
      LessTotal(a[1..], b[1..]);
      assert a == [a[0]] + a[1..] && b == [b[0]] + b[1..];
    }
  }

  lemma {:induction false} LessTransitive(a: Id, b: Id, c: Id)
    requires Less(a, b) && Less(b, c)
    ensures Less(a, c)
  {
    if a != "" && a[0] == b[0] && b[0] == c[0] {
      LessTransitive(a[1..], b[1..], c[1..]);
    }
  }

  lemma {:induction false} LessAsymmetric(a: Id, b: Id)
    requires Less(a, b)
    ensures a != b && !Less(b, a)
  {
    if a != "" && a[0] == b[0] {
      LessAsymmetric(a[1..], b[1..]);
    }
  }

  ghost predicate IsLeast(m: Id, s: set<Id>)
  {
    m in s && forall x :: x in s ==> Leq(m, x)
  }

  lemma {:induction false} LeastExists(s: set<Id>) returns (m: Id)
    requires s != {}
    ensures IsLeast(m, s)
  {
    var x :| x in s;
    m := x;
    var rest := s - {x};
    if rest != {} {
      var k := LeastExists(rest);
      LessTotal(x, k);
      if Less(k, x) {
        m := k;
      } else {
        forall y | y in rest
          ensures Leq(x, y)
        {
          assert Leq(k, y);
          if x != k && k != y { LessTransitive(x, k, y); }
        }
      }
    }
    assert forall y :: y in s ==> y == x || y in rest;
  }

  lemma LeastUnique(a: Id, b: Id, s: set<Id>)
    requires IsLeast(a, s) && IsLeast(b, s)
    ensures a == b
  {
    if a != b { LessAsymmetric(a, b); }
  }

  /** Strictly ascending, hence free of duplicates. */
  ghost predicate Ascending(r: seq<Id>)
  {
    forall i, j :: 0 <= i < j < |r| ==> Less(r[i], r[j])
  }

  lemma LeastIsThere(s: set<Id>)
    requires s != {}
    ensures exists m :: IsLeast(m, s)
  {
    var m := LeastExists(s);
  }

  ghost function LeastOf(s: set<Id>): (m: Id)
    requires s != {}
    ensures IsLeast(m, s)
  {
    LeastIsThere(s);
    var m :| IsLeast(m, s);
    m
  }

  /** The members of a set in order. */
  ghost function Sorted(s: set<Id>): seq<Id>
  {
    if s == {} then [] else [LeastOf(s)] + Sorted(s - {LeastOf(s)})
  }

  /** `sort.Strings` on the distinct members of a set. */
  method SortIds(s: set<Id>) returns (r: seq<Id>)
    ensures r == Sorted(s)
    ensures Ascending(r)
    ensures forall x :: x in r <==> x in s
  {
    r := [];
    var rest := s;
    while rest != {}
      invariant r + Sorted(rest) == Sorted(s)
      invariant rest <= s
      invariant Ascending(r)
      invariant forall x :: x in r <==> x in s - rest
      invariant forall x, y :: x in r && y in rest ==> Less(x, y)
      decreases rest
    {
      var m := Least(rest);
      LeastUnique(m, LeastOf(rest), rest);
      forall y | y in rest - {m}
        ensures Less(m, y)
      {
        assert Leq(m, y);
      }
      r := r + [m];
      rest := rest - {m};
    }
  }

  method Least(s: set<Id>) returns (m: Id)
    requires s != {}
    ensures IsLeast(m, s)
  {
    m :| m in s;
    var rest := s - {m};
    while rest != {}
      invariant rest <= s && m in s && m !in rest
      invariant forall x :: x in s - rest ==> Leq(m, x)
      decreases rest
    {
      var x :| x in rest;
      LessTotal(m, x);
      if Less(x, m) {
        forall y | y in s - rest
          ensures Leq(x, y)
        {
          assert Leq(m, y);
          if m != y { LessTransitive(x, m, y); }
        }
        m := x;
      }
      rest := rest - {x};
    }
  }
}
