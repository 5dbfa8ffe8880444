/** The order Python sorts strings by. */
module Strings {
  predicate Less(a: string, b: string) {
    if b == "" then false
    else if a == "" then true
    else a[0] < b[0] || (a[0] == b[0] && Less(a[1..], b[1..]))
  }

  /** b goes on where a ends, or has the greater character where they first differ. */
  ghost predicate DifferAt(a: string, b: string, k: nat) {
    && k <= |a| && k < |b| && a[..k] == b[..k]
    && (k == |a| || a[k] < b[k])
  }

  lemma {:induction false} LessIs(a: string, b: string)
    ensures Less(a, b) <==> exists k :: DifferAt(a, b, k)
  {
    if a != "" && b != "" && a[0] == b[0] {
      LessIs(a[1..], b[1..]);
      if k: nat :| DifferAt(a[1..], b[1..], k) { DifferLater(a, b, k); }
    } else if b != "" && (a == "" || a[0] < b[0]) {
      assert DifferAt(a, b, 0);
    }
    if k: nat :| DifferAt(a, b, k) && k > 0 { DifferEarlier(a, b, k); }
  }

  lemma {:induction false} DifferLater(a: string, b: string, k: nat)
    requires a != "" && b != "" && a[0] == b[0] && DifferAt(a[1..], b[1..], k)
    ensures DifferAt(a, b, k + 1)
  {
    assert a[..k + 1] == [a[0]] + a[1..][..k] && b[..k + 1] == [b[0]] + b[1..][..k];
  }

  lemma {:induction false} DifferEarlier(a: string, b: string, k: nat)
    requires DifferAt(a, b, k) && k > 0
    ensures a[0] == b[0] && DifferAt(a[1..], b[1..], k - 1)
  {
    assert a[..k][0] == b[..k][0];
    assert a[1..][..k - 1] == a[..k][1..] && b[1..][..k - 1] == b[..k][1..];
  }

  lemma {:induction false} Irreflexive(a: string)
    ensures !Less(a, a)
  {
    if a != "" { Irreflexive(a[1..]); }
  }

  lemma {:induction false} Transitive(a: string, b: string, c: string)
    requires Less(a, b) && Less(b, c)
    ensures Less(a, c)
  {
    if a != "" && a[0] == b[0] && b[0] == c[0] { Transitive(a[1..], b[1..], c[1..]); }
  }

  lemma {:induction false} Total(a: string, b: string)
    ensures a == b || Less(a, b) || Less(b, a)
  {
    if a != "" && b != "" && a[0] == b[0] {
      Total(a[1..], b[1..]);
      assert a == [a[0]] + a[1..] && b == [b[0]] + b[1..];
    }
  }

  // ----- sorting a set of names -----

  ghost predicate IsLeast(k: string, keys: set<string>) {
    k in keys && forall n :: n in keys ==> n == k || Less(k, n)
  }

  lemma {:induction false} LeastExists(keys: set<string>)
    requires keys != {}
    ensures exists k :: IsLeast(k, keys)
  {
    var a :| a in keys;
    var rest := keys - {a};
    assert keys == rest + {a};
    if rest == {} {
      assert IsLeast(a, keys);
    } else {
      LeastExists(rest);
      var b :| IsLeast(b, rest);
      Total(a, b);
      if Less(a, b) {
        forall n | n in keys
          ensures n == a || Less(a, n)
        {
          if n != a && n != b { Transitive(a, b, n); }
        }
        assert IsLeast(a, keys);
      } else {
        assert IsLeast(b, keys);
      }
    }
  }

  lemma {:induction false} LeastUnique(j: string, k: string, keys: set<string>)
    requires IsLeast(j, keys) && IsLeast(k, keys)
    ensures j == k
  {
    if j != k {
      Transitive(j, k, j);
      Irreflexive(j);
    }
  }

  /** sorted(keys) */
  ghost function Sorted(keys: set<string>): seq<string>
    decreases |keys|
  {
    if keys == {} then []
    else
      LeastExists(keys);
      var k :| IsLeast(k, keys);
      [k] + Sorted(keys - {k})
  }

  lemma {:induction false} SortedHasKeys(keys: set<string>)
    ensures |Sorted(keys)| == |keys| && forall k :: k in Sorted(keys) <==> k in keys
    decreases |keys|
  {
    if keys != {} {
      LeastExists(keys);
      var k := Sorted(keys)[0];
      SortedHasKeys(keys - {k});
      assert keys == {k} + (keys - {k});
    }
  }

  /** Every key once, in increasing order. */
  lemma {:induction false} SortedIsSorted(keys: set<string>)
    ensures |Sorted(keys)| == |keys| && forall k :: k in Sorted(keys) <==> k in keys
    ensures forall i, j :: 0 <= i < j < |Sorted(keys)| ==> Less(Sorted(keys)[i], Sorted(keys)[j])
    decreases |keys|
  {
    SortedHasKeys(keys);
    if keys != {} {
      LeastExists(keys);
      var k := Sorted(keys)[0];
      assert IsLeast(k, keys);
      var rest := Sorted(keys - {k});
      SortedIsSorted(keys - {k});
      SortedHasKeys(keys - {k});
      assert Sorted(keys) == [k] + rest;
      forall i, j | 0 <= i < j < |Sorted(keys)|
        ensures Less(Sorted(keys)[i], Sorted(keys)[j])
      {
        assert rest[j - 1] in rest;
      }
    }
  }

  /** sorted(keys), by repeatedly taking the least key that is left. */
  method Sort(keys: set<string>) returns (ks: seq<string>)
    ensures ks == Sorted(keys)
  {
    var rest := keys;
    ks := [];
    assert [] + Sorted(keys) == Sorted(keys);
    while rest != {}
      invariant ks + Sorted(rest) == Sorted(keys)
      decreases |rest|
    {
      var least := FindLeast(rest);
      SortedStep(rest, least);
      assert ks + ([least] + Sorted(rest - {least})) == (ks + [least]) + Sorted(rest - {least});
      ks := ks + [least];
      rest := rest - {least};
    }
  }

  method FindLeast(keys: set<string>) returns (least: string)
    requires keys != {}
    ensures IsLeast(least, keys)
  {
    least :| least in keys;
    var rest := keys - {least};
    while rest != {}
      invariant rest < keys && least in keys - rest
      invariant forall n :: n in keys - rest ==> n == least || Less(least, n)
      decreases |rest|
    {
      var k :| k in rest;
      if Less(k, least) {
        forall n | n in keys - rest
          ensures n == k || Less(k, n)
        {
          if n != least { Transitive(k, least, n); }
        }
        least := k;
      } else {
        Total(least, k);
      }
      rest := rest - {k};
    }
  }

  lemma {:induction false} SortedStep(keys: set<string>, least: string)
    requires IsLeast(least, keys)
    ensures Sorted(keys) == [least] + Sorted(keys - {least})
  {
    LeastExists(keys);
    var k := Sorted(keys)[0];
    assert IsLeast(k, keys);
    LeastUnique(k, least, keys);
  }
}
