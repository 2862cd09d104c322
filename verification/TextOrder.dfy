/** The order in which a `BTreeMap` with texts as keys is read. */
module TextOrder {

  /** Lexicographic order on texts. */
  predicate AtMost(a: string, b: string) {
    a == [] || (b != [] && (a[0] < b[0] || (a[0] == b[0] && AtMost(a[1..], b[1..]))))
  }

  lemma {:induction false} AtMostIsTotal(a: string, b: string)
    ensures AtMost(a, b) || AtMost(b, a)
    ensures AtMost(a, b) && AtMost(b, a) ==> a == b
  {
    if a != [] && b != [] {
      AtMostIsTotal(a[1..], b[1..]);
      assert a == [a[0]] + a[1..] && b == [b[0]] + b[1..];
    }
  }

  lemma {:induction false} AtMostIsTransitive(a: string, b: string, c: string)
    requires AtMost(a, b) && AtMost(b, c)
    ensures AtMost(a, c)
  {
    if a != [] {
      if a[0] == b[0] == c[0] {
        AtMostIsTransitive(a[1..], b[1..], c[1..]);
      }
    }
  }

  predicate IsLeast(key: string, keys: set<string>) {
    key in keys && forall other :: other in keys ==> AtMost(key, other)
  }

  /** The first key of a non-empty set, found as the map finds it. */
  method FindLeast(keys: set<string>) returns (least: string)
    requires keys != {}
    ensures IsLeast(least, keys)
  {
    least :| least in keys;
    var rest := keys;
    AtMostIsTotal(least, least);
    while rest != {}
      invariant least in keys && rest <= keys
      invariant forall other :: other in keys && other !in rest ==> AtMost(least, other)
      decreases |rest|
    {
      var key :| key in rest;
      AtMostIsTotal(least, key);
      if !AtMost(least, key) {
        forall other | other in keys && other !in rest ensures AtMost(key, other) {
          AtMostIsTransitive(key, least, other);
        }
        least := key;
        AtMostIsTotal(key, key);
      }
      rest := rest - {key};
    }
  }

  lemma {:induction false} LeastExists(keys: set<string>)
    requires keys != {}
    ensures exists key :: IsLeast(key, keys)
  {
    var key :| key in keys;
    AtMostIsTotal(key, key);
    var rest := keys - {key};
    if rest == {} {
      assert keys == {key};
      assert IsLeast(key, keys);
    } else {
      LeastExists(rest);
      var other :| IsLeast(other, rest);
      AtMostIsTotal(key, other);
      if AtMost(key, other) {
        forall x | x in keys ensures AtMost(key, x) {
          if x != key {
            AtMostIsTransitive(key, other, x);
          }
        }
        assert IsLeast(key, keys);
      } else {
        assert IsLeast(other, keys);
      }
    }
  }

  lemma LeastIsUnique(keys: set<string>, key: string)
    requires IsLeast(key, keys)
    ensures forall other :: IsLeast(other, keys) ==> other == key
  {
    forall other | IsLeast(other, keys) ensures other == key {
      AtMostIsTotal(key, other);
    }
  }

  /** The values of a set of keys, in key order. */
  ghost function InOrder<V>(m: map<string, V>, keys: set<string>): (r: seq<V>)
    requires keys <= m.Keys
    ensures |r| == |keys|
    decreases |keys|
  {
    if keys == {} then []
    else
      LeastExists(keys);
      var key :| IsLeast(key, keys);
      [m[key]] + InOrder(m, keys - {key})
  }

  lemma InOrderStep<V>(m: map<string, V>, keys: set<string>, key: string)
    requires keys <= m.Keys && IsLeast(key, keys)
    ensures InOrder(m, keys) == [m[key]] + InOrder(m, keys - {key})
  {
    LeastIsUnique(keys, key);
  }

  /** A common front does not matter to the order. */
  lemma {:induction false} PrefixKeepsOrder(p: string, a: string, b: string)
    ensures AtMost(p + a, p + b) <==> AtMost(a, b)
  {
    if p == [] {
      assert p + a == a && p + b == b;
    } else {
      assert (p + a)[1..] == p[1..] + a && (p + b)[1..] == p[1..] + b;
      PrefixKeepsOrder(p[1..], a, b);
    }
  }
}
