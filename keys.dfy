/** Small stock wrapper used throughout the model. */
module Options {
  datatype Option<+T> = None | Some(value: T)
}

/** Small helpers on sequences shared by the store contract and the client. */
module Seqs {
  /** No element occurs twice. */
  predicate Distinct<T(==)>(xs: seq<T>) {
    forall i, j :: 0 <= i < j < |xs| ==> xs[i] != xs[j]
  }
}

/**
  Keys and values of the metadata key-value store are byte strings. The store
  returns entries in ascending byte-wise lexicographic order of their keys,
  and a prefix scan selects the same keys as the half-open range
  [prefix, end-of-prefix).
*/
module Keys {

  newtype Byte = b: int | 0 <= b < 256

  type Key = seq<Byte>

  /** Strict byte-wise lexicographic order; a proper prefix sorts first. */
  predicate Less(a: Key, b: Key)
    decreases |b|
  {
    |b| > 0 && (|a| == 0 || a[0] < b[0] || (a[0] == b[0] && Less(a[1..], b[1..])))
  }

  predicate LessEq(a: Key, b: Key) {
    a == b || Less(a, b)
  }

  lemma {:induction false} LessIrreflexive(a: Key)
    ensures !Less(a, a)
    decreases |a|
  {
    if |a| > 0 {
      LessIrreflexive(a[1..]);
    }
  }

  lemma {:induction false} LessTransitive(a: Key, b: Key, c: Key)
    requires Less(a, b) && Less(b, c)
    ensures Less(a, c)
    decreases |a|
  {
    if |a| > 0 && a[0] == b[0] && b[0] == c[0] {
      LessTransitive(a[1..], b[1..], c[1..]);
    }
  }

  lemma {:induction false} LessTotal(a: Key, b: Key)
    ensures a == b || Less(a, b) || Less(b, a)
    decreases |a|
  {
    if |a| > 0 && |b| > 0 && a[0] == b[0] {
      LessTotal(a[1..], b[1..]);
      if a[1..] == b[1..] {
        assert a == [a[0]] + a[1..] && b == [b[0]] + b[1..];
      }
    }
  }

  lemma LessAsymmetric(a: Key, b: Key)
    requires Less(a, b)
    ensures !Less(b, a) && a != b
  {
    LessIrreflexive(a);
    if Less(b, a) {
      LessTransitive(a, b, a);
    }
  }

  /** The smallest key of a non-empty set, found by one pass over the set. */
  method MinKey(keys: set<Key>) returns (k: Key)
    requires keys != {}
    ensures k in keys
    ensures forall x :: x in keys && x != k ==> Less(k, x)
  {
    k :| k in keys;
    var rest := keys - {k};
    while rest != {}
      invariant rest <= keys && k in keys && k !in rest
      invariant forall x :: x in keys - rest && x != k ==> Less(k, x)
      decreases rest
    {
      var x :| x in rest;
      LessTotal(x, k);
      if Less(x, k) {
        forall y | y in keys - rest && y != x
          ensures Less(x, y)
        {
          if y != k {
            LessTransitive(x, k, y);
          }
        }
        k := x;
      }
      rest := rest - {x};
    }
  }

  // ---------------------------------------------------------------------------
  // Prefixes

  /** `k` starts with `p` (Dafny's `<=` on sequences is the prefix relation). */
  predicate HasPrefix(k: Key, p: Key) {
    p <= k
  }

  /** Every byte is 0xff: such a prefix has no finite exclusive upper bound. */
  predicate AllMax(p: Key) {
    forall i :: 0 <= i < |p| ==> p[i] == 255
  }

  /**
    The least key greater than every key that starts with `p`: drop trailing
    0xff bytes and increment the last remaining one.
  */
  function PrefixEnd(p: Key): Key
    requires !AllMax(p)
    decreases |p|
  {
    var last := p[|p| - 1];
    if last == 255 then
      assert !AllMax(p[..|p| - 1]) by {
        var i :| 0 <= i < |p| && p[i] != 255;
        assert p[..|p| - 1][i] == p[i];
      }
      PrefixEnd(p[..|p| - 1])
    else
      p[..|p| - 1] + [last + 1]
  }

  /** A key sorts at or after an all-0xff prefix exactly when it starts with it. */
  lemma {:induction false} AllMaxPrefix(s: Key, k: Key)
    requires AllMax(s)
    ensures HasPrefix(k, s) <==> LessEq(s, k)
    decreases |s|
  {
    if |s| > 0 && |k| > 0 {
      assert AllMax(s[1..]) by {
        forall i | 0 <= i < |s[1..]| ensures s[1..][i] == 255 {
          assert s[1..][i] == s[i + 1];
        }
      }
      AllMaxPrefix(s[1..], k[1..]);
      assert s == [s[0]] + s[1..] && k == [k[0]] + k[1..];
      assert s <= k <==> k[0] == s[0] && s[1..] <= k[1..];
    }
  }

  /** The inductive core of PrefixAsRange, with the split of PrefixEnd made explicit. */
  lemma {:induction false} SplitPrefixBounds(q: Key, x: Byte, s: Key, k: Key)
    requires x < 255 && AllMax(s)
    ensures HasPrefix(k, q + [x] + s) <==> LessEq(q + [x] + s, k) && Less(k, q + [x + 1])
    decreases |q|
  {
    var p := q + [x] + s;
    var e := q + [x + 1];
    if |k| == 0 {
      assert !Less(p, k);
    } else if q == [] {
      assert p == [x] + s && p[0] == x && p[1..] == s;
      assert e == [x + 1] && e[1..] == [];
      AllMaxPrefix(s, k[1..]);
      assert k == [k[0]] + k[1..];
      assert p <= k <==> k[0] == x && s <= k[1..];
    } else {
      var q' := q[1..];
      assert p == [q[0]] + (q' + [x] + s) && p[0] == q[0] && p[1..] == q' + [x] + s;
      assert e == [q[0]] + (q' + [x + 1]) && e[0] == q[0] && e[1..] == q' + [x + 1];
      SplitPrefixBounds(q', x, s, k[1..]);
      assert k == [k[0]] + k[1..];
      assert p <= k <==> k[0] == q[0] && p[1..] <= k[1..];
    }
  }

  /** Every prefix that is not all 0xff splits as q + [x] + s with PrefixEnd = q + [x + 1]. */
  lemma {:induction false} PrefixEndSplit(p: Key) returns (q: Key, x: Byte, s: Key)
    requires !AllMax(p)
    ensures p == q + [x] + s && x < 255 && AllMax(s)
    ensures PrefixEnd(p) == q + [x + 1]
    decreases |p|
  {
    var init := p[..|p| - 1];
    var last := p[|p| - 1];
    assert p == init + [last];
    if last == 255 {
      assert !AllMax(init) by {
        var i :| 0 <= i < |p| && p[i] != 255;
        assert init[i] == p[i];
      }
      q, x, s := PrefixEndSplit(init);
      s := s + [last];
    } else {
      q, x, s := init, last, [];
    }
  }

  /**
    A prefix selects exactly the keys of the half-open range [p, PrefixEnd(p)),
    and, when p is all 0xff, exactly the keys from p upwards.
  */
  lemma PrefixAsRange(p: Key, k: Key)
    ensures !AllMax(p) ==> (HasPrefix(k, p) <==> LessEq(p, k) && Less(k, PrefixEnd(p)))
    ensures AllMax(p) ==> (HasPrefix(k, p) <==> LessEq(p, k))
  {
    if AllMax(p) {
      AllMaxPrefix(p, k);
    } else {
      var q, x, s := PrefixEndSplit(p);
      SplitPrefixBounds(q, x, s, k);
    }
  }
}
