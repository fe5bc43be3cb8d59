/** The order of strings that `sort.Strings` uses, and strictly sorted lists. */
module Order {

  /** Lexicographic order; on UTF-8 it is Go's byte-wise `<`. */
  predicate Less(a: string, b: string) {
    b != "" && (a == "" || a[0] < b[0] || (a[0] == b[0] && Less(a[1..], b[1..])))
  }

  /** The strings agree up to `k`, where `a` ends or has the smaller character. */
  predicate SmallerAt(a: string, b: string, k: nat) {
    k <= |a| && k < |b| && a[..k] == b[..k] && (k == |a| || a[k] < b[k])
  }

  /** What the order is: at the first difference the character decides, and a proper prefix
      comes first. */
  lemma {:induction false} LessIff(a: string, b: string)
    ensures Less(a, b) <==> exists k: nat :: SmallerAt(a, b, k)
  {
    if a == "" || b == "" || a[0] != b[0] {
      forall k: nat ensures SmallerAt(a, b, k) ==> k == 0 {
        if 0 < k <= |a| && k < |b| {
          assert a[..k][0] == a[0] && b[..k][0] == b[0];
        }
      }
      assert Less(a, b) <==> SmallerAt(a, b, 0);
    } else {
      LessIff(a[1..], b[1..]);
      if k: nat :| SmallerAt(a[1..], b[1..], k) {
        assert a[..k + 1] == [a[0]] + a[1..][..k] && b[..k + 1] == [b[0]] + b[1..][..k];
        assert SmallerAt(a, b, k + 1);
      }
      if k: nat :| SmallerAt(a, b, k) {
        assert k > 0;
        assert a[1..][..k - 1] == a[..k][1..] && b[1..][..k - 1] == b[..k][1..];
        assert SmallerAt(a[1..], b[1..], k - 1);
      }
    }
  }

  predicate Sorted(names: seq<string>) {
    forall i, j :: 0 <= i < j < |names| ==> Less(names[i], names[j])
  }

  lemma {:induction false} LessTransitive(a: string, b: string, c: string)
    requires Less(a, b) && Less(b, c)
    ensures Less(a, c)
  {
    if a != "" && a[0] == b[0] == c[0] {
      LessTransitive(a[1..], b[1..], c[1..]);
    }
  }

  lemma {:induction false} LessAsymmetric(a: string, b: string)
    requires Less(a, b)
    ensures a != b && !Less(b, a)
  {
    if a != "" && a[0] == b[0] {
      LessAsymmetric(a[1..], b[1..]);
    }
  }

  lemma {:induction false} LessTotal(a: string, b: string)
    ensures a == b || Less(a, b) || Less(b, a)
  {
    if a != "" && b != "" && a[0] == b[0] {
      LessTotal(a[1..], b[1..]);
      if a[1..] == b[1..] {
        assert a == [a[0]] + a[1..] && b == [b[0]] + b[1..];
      }
    }
  }

  /** There is only one way to list a set of names in order. */
  lemma {:induction false} SortedUnique(xs: seq<string>, ys: seq<string>)
    requires Sorted(xs) && Sorted(ys)
    requires forall n :: n in xs <==> n in ys
    ensures xs == ys
  {
    if xs == [] {
      assert forall j :: 0 <= j < |ys| ==> ys[j] in ys;
    } else {
      assert xs[0] in ys;
      assert ys[0] in xs;
      if xs[0] != ys[0] {
        var i :| 0 <= i < |ys| && ys[i] == xs[0];
        var j :| 0 <= j < |xs| && xs[j] == ys[0];
        LessAsymmetric(ys[0], ys[i]);
        assert false;
      }
      forall n ensures n in xs[1..] <==> n in ys[1..] {
        TailMembers(xs, n);
        TailMembers(ys, n);
      }
      SortedUnique(xs[1..], ys[1..]);
      assert xs == [xs[0]] + xs[1..] && ys == [ys[0]] + ys[1..];
    }
  }

  lemma TailMembers(xs: seq<string>, n: string)
    requires xs != [] && Sorted(xs)
    ensures n in xs[1..] <==> n in xs && n != xs[0]
  {
    if n in xs[1..] {
      var i :| 1 <= i < |xs| && xs[i] == n;
      LessAsymmetric(xs[0], xs[i]);
    }
  }

  /** Where `name` goes in a sorted list that does not hold it. */
  method Insert(sorted: seq<string>, name: string) returns (r: seq<string>)
    requires Sorted(sorted) && name !in sorted
    ensures Sorted(r)
    ensures multiset(r) == multiset(sorted) + multiset{name}
  {
    var i := 0;
    while i < |sorted| && Less(sorted[i], name)
      invariant 0 <= i <= |sorted|
      invariant forall j :: 0 <= j < i ==> Less(sorted[j], name)
    {
      i := i + 1;
    }
    Inserted(sorted, name, i);
    r := sorted[..i] + [name] + sorted[i..];
  }

  lemma Inserted(sorted: seq<string>, name: string, i: nat)
    requires Sorted(sorted) && name !in sorted && i <= |sorted|
    requires forall j :: 0 <= j < i ==> Less(sorted[j], name)
    requires i < |sorted| ==> !Less(sorted[i], name)
    ensures var r := sorted[..i] + [name] + sorted[i..];
      Sorted(r) && multiset(r) == multiset(sorted) + multiset{name}
  {
    hide Less;
    if i < |sorted| {
      LessTotal(sorted[i], name);
    }
    forall j | i <= j < |sorted| ensures Less(name, sorted[j]) {
      if j > i { LessTransitive(name, sorted[i], sorted[j]); }
    }
    assert sorted == sorted[..i] + sorted[i..];
  }

  /** `sort.Strings` on a list of distinct names. */
  method SortStrings(names: seq<string>) returns (r: seq<string>)
    requires forall i, j :: 0 <= i < j < |names| ==> names[i] != names[j]
    ensures Sorted(r)
    ensures multiset(r) == multiset(names)
    ensures forall n :: n in r <==> n in names
  {
    r := [];
    for i := 0 to |names|
      invariant Sorted(r)
      invariant multiset(r) == multiset(names[..i])
    {
      assert names[i] !in names[..i];
      assert forall n :: n in r ==> n in multiset(r);
      r := Insert(r, names[i]);
      assert names[..i + 1] == names[..i] + [names[i]];
    }
    assert names[..|names|] == names;
    forall n ensures n in r <==> n in names {
      assert n in multiset(r) <==> n in multiset(names);
    }
  }
}
