/** The iteration order of a `BTreeMap` or `BTreeSet` keyed by text. */
module BTree {

  /** Lexicographic order by code point, which is also the byte order of UTF-8. */
  predicate Less(a: string, b: string) {
    if b == "" then false
    else if a == "" then true
    else if a[0] != b[0] then a[0] < b[0]
    else Less(a[1..], b[1..])
  }

  lemma {:induction false} LessTotal(a: string, b: string)
    ensures Less(a, b) || a == b || Less(b, a)
  {
    if a != "" && b != "" && a[0] == b[0] {
      LessTotal(a[1..], b[1..]);
      assert a == [a[0]] + a[1..] && b == [b[0]] + b[1..];
    }
  }

  lemma {:induction false} LessTransitive(a: string, b: string, c: string)
    requires Less(a, b) && Less(b, c)
    ensures Less(a, c)
  {
    if a != "" && a[0] == b[0] == c[0] {
      LessTransitive(a[1..], b[1..], c[1..]);
    }
  }

  lemma {:induction false} LessIrreflexive(a: string)
    ensures !Less(a, a)
  {
    if a != "" {
      LessIrreflexive(a[1..]);
    }
  }

  predicate IsLeast(k: string, keys: set<string>) {
    k in keys && forall o :: o in keys ==> o == k || Less(k, o)
  }

  lemma LeastWith(x: string, k: string, keys: set<string>)
    requires IsLeast(k, keys)
    ensures IsLeast(if Less(x, k) then x else k, keys + {x})
  {
    LessTotal(x, k);
    if Less(x, k) {
      forall o | o in keys
        ensures o == x || Less(x, o)
      {
        if o != x && o != k {
          LessTransitive(x, k, o);
        }
      }
    }
  }

  lemma {:induction false} LeastExists(keys: set<string>)
    requires keys != {}
    ensures exists k :: IsLeast(k, keys)
  {
    var x :| x in keys;
    if keys == {x} {
      assert IsLeast(x, keys);
    } else {
      LeastExists(keys - {x});
      var k :| IsLeast(k, keys - {x});
      LeastWith(x, k, keys - {x});
      assert keys - {x} + {x} == keys;
    }
  }

  lemma LeastUnique(keys: set<string>, a: string, b: string)
    requires IsLeast(a, keys) && IsLeast(b, keys)
    ensures a == b
  {
    if a != b {
      LessTransitive(a, b, a);
      LessIrreflexive(a);
    }
  }

  function Least(keys: set<string>): (k: string)
    requires keys != {}
    ensures IsLeast(k, keys)
  {
    LeastExists(keys);
    assert forall a, b :: IsLeast(a, keys) && IsLeast(b, keys) ==> a == b by {
      forall a, b | IsLeast(a, keys) && IsLeast(b, keys)
        ensures a == b
      {
        LeastUnique(keys, a, b);
      }
    }
    var k :| k in keys && IsLeast(k, keys);
    k
  }

  /** The keys in iteration order: each exactly once, in increasing order. */
  function InOrder(keys: set<string>): (s: seq<string>)
    ensures forall k :: k in s <==> k in keys
    ensures forall i, j :: 0 <= i < j < |s| ==> Less(s[i], s[j])
    ensures forall i, j :: 0 <= i < j < |s| ==> s[i] != s[j]
    decreases keys
  {
    if keys == {} then []
    else
      var k := Least(keys);
      [k] + InOrder(keys - {k})
  }
}
