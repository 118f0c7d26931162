/** Byte strings with the order `Vec<u8>` compares by, sorted key lists, and the
    optional values used across the model. */
module ByteStrings {

  type Byte = b: int | 0 <= b < 256
  type Bytes = seq<Byte>

  datatype Option<+T> = None | Some(value: T)

  // ---- Lexicographic order ----

  predicate Less(a: Bytes, b: Bytes) {
    b != [] && (a == [] || a[0] < b[0] || (a[0] == b[0] && Less(a[1..], b[1..])))
  }

  predicate LessEq(a: Bytes, b: Bytes) {
    a == b || Less(a, b)
  }

  lemma LessIrreflexive(a: Bytes)
    ensures !Less(a, a)
  {
  }

  lemma {:induction false} LessTransitive(a: Bytes, b: Bytes, c: Bytes)
    requires Less(a, b) && Less(b, c)
    ensures Less(a, c)
  {
    if a != [] && a[0] == b[0] == c[0] {
      LessTransitive(a[1..], b[1..], c[1..]);
    }
  }

  lemma {:induction false} LessTotal(a: Bytes, b: Bytes)
    ensures Less(a, b) || a == b || Less(b, a)
  {
    if a != [] && b != [] && a[0] == b[0] {
      LessTotal(a[1..], b[1..]);
      assert a == [a[0]] + a[1..] && b == [b[0]] + b[1..];
    }
  }

  lemma LessAsymmetric(a: Bytes, b: Bytes)
    requires Less(a, b)
    ensures !Less(b, a) && a != b
  {
  }

  // ---- Prefixes ----

  predicate HasPrefix(s: Bytes, p: Bytes) {
    |p| <= |s| && s[..|p|] == p
  }

  lemma {:induction false} PrefixNotGreater(s: Bytes, p: Bytes)
    requires HasPrefix(s, p)
    ensures LessEq(p, s)
  {
    if p != [] {
      assert HasPrefix(s[1..], p[1..]);
      PrefixNotGreater(s[1..], p[1..]);
      assert p == [p[0]] + p[1..];
      if p[1..] == s[1..] {
        assert s == [s[0]] + s[1..];
      }
    }
  }

  /** The keys under a prefix are one contiguous run of the order. */
  lemma {:induction false} PrefixRunContiguous(mid: Bytes, hi: Bytes, p: Bytes)
    requires HasPrefix(hi, p) && LessEq(p, mid) && LessEq(mid, hi)
    ensures HasPrefix(mid, p)
  {
    if p != [] && mid != hi && p != mid {
      assert p[0] <= mid[0] <= hi[0] && hi[0] == p[0];
      assert Less(p[1..], mid[1..]) && Less(mid[1..], hi[1..]);
      assert HasPrefix(hi[1..], p[1..]);
      PrefixRunContiguous(mid[1..], hi[1..], p[1..]);
      assert mid == [mid[0]] + mid[1..] && p == [p[0]] + p[1..];
      assert mid[..|p|] == [mid[0]] + mid[1..][..|p| - 1];
    }
  }

  // ---- Sorted key lists ----

  predicate StrictlySorted(q: seq<Bytes>) {
    forall i, j :: 0 <= i < j < |q| ==> Less(q[i], q[j])
  }

  ghost predicate IsLeast(m: Bytes, s: set<Bytes>) {
    m in s && forall x :: x in s ==> LessEq(m, x)
  }

  lemma {:induction false} LeastExists(s: set<Bytes>)
    requires s != {}
    ensures exists m :: IsLeast(m, s)
    decreases |s|
  {
    var x :| x in s;
    var rest := s - {x};
    if rest == {} {
      assert s == {x};
      assert IsLeast(x, s);
    } else {
      LeastExists(rest);
      var m :| IsLeast(m, rest);
      LessTotal(m, x);
      if LessEq(m, x) {
        assert IsLeast(m, s);
      } else {
        forall y | y in s ensures LessEq(x, y) {
          if y != x && y != m {
            assert y in rest;
            LessTransitive(x, m, y);
          }
        }
        assert IsLeast(x, s);
      }
    }
  }

  lemma LeastUnique(s: set<Bytes>)
    ensures forall m, n :: IsLeast(m, s) && IsLeast(n, s) ==> m == n
  {
    forall m, n | IsLeast(m, s) && IsLeast(n, s) ensures m == n {
      if m != n {
        assert LessEq(m, n) && LessEq(n, m);
        LessAsymmetric(m, n);
      }
    }
  }

  function Least(s: set<Bytes>): (m: Bytes)
    requires s != {}
    ensures IsLeast(m, s)
  {
    LeastExists(s);
    LeastUnique(s);
    assert exists m :: m in s && forall x :: x in s ==> LessEq(m, x) by {
      var m :| IsLeast(m, s);
      assert m in s && forall x :: x in s ==> LessEq(m, x);
    }
    assert forall m, n :: (m in s && forall x :: x in s ==> LessEq(m, x)) && (n in s && forall x :: x in s ==> LessEq(n, x)) ==> m == n by {
      forall m, n | (m in s && forall x :: x in s ==> LessEq(m, x)) && (n in s && forall x :: x in s ==> LessEq(n, x)) ensures m == n {
        assert IsLeast(m, s) && IsLeast(n, s);
      }
    }
    var m :| m in s && forall x :: x in s ==> LessEq(m, x);
    m
  }

  ghost predicate IsGreatest(m: Bytes, s: set<Bytes>) {
    m in s && forall x :: x in s ==> LessEq(x, m)
  }

  /** The last key of a BTreeMap. */
  function Greatest(s: set<Bytes>): (m: Bytes)
    requires s != {}
    ensures IsGreatest(m, s)
    decreases |s|
  {
    var x := Least(s);
    if s == {x} then x else
      var m := Greatest(s - {x});
      assert s - {x} != {};
      assert forall y :: y in s ==> y == x || y in s - {x};
      m
  }

  /** The elements of `s` in ascending order: the iteration order of a BTreeMap. */
  function Sorted(s: set<Bytes>): (q: seq<Bytes>)
    ensures StrictlySorted(q)
    ensures forall k :: k in q <==> k in s
    decreases |s|
  {
    if s == {} then [] else
      var m := Least(s);
      var rest := Sorted(s - {m});
      assert forall i :: 0 <= i < |rest| ==> rest[i] in s - {m};
      assert forall k :: k in s ==> k == m || k in s - {m};
      [m] + rest
  }

  lemma {:induction false} SortedSize(s: set<Bytes>)
    ensures |Sorted(s)| == |s|
    decreases |s|
  {
    if s != {} {
      SortedSize(s - {Least(s)});
    }
  }

  /** A strictly sorted list is determined by its elements. */
  lemma {:induction false} SortedUnique(p: seq<Bytes>, q: seq<Bytes>)
    requires StrictlySorted(p) && StrictlySorted(q)
    requires forall k :: k in p <==> k in q
    ensures p == q
  {
    if p == [] {
      assert forall i :: 0 <= i < |q| ==> q[i] in p;
    } else {
      assert p[0] in q && q != [] && q[0] in p;
      assert p[0] == q[0] by {
        if p[0] != q[0] {
          var i :| 0 <= i < |p| && p[i] == q[0];
          var j :| 0 <= j < |q| && q[j] == p[0];
          assert Less(p[0], p[i]) && Less(q[0], q[j]);
          LessAsymmetric(p[0], q[0]);
        }
      }
      forall k | k in p[1..] ensures k in q[1..] { TailMember(p, q, k); }
      forall k | k in q[1..] ensures k in p[1..] { TailMember(q, p, k); }
      SortedUnique(p[1..], q[1..]);
      assert p == [p[0]] + p[1..] && q == [q[0]] + q[1..];
    }
  }

  lemma TailMember(p: seq<Bytes>, q: seq<Bytes>, k: Bytes)
    requires StrictlySorted(p) && p != [] && q != [] && p[0] == q[0]
    requires forall k :: k in p <==> k in q
    requires k in p[1..]
    ensures k in q[1..]
  {
    var i :| 0 <= i < |p[1..]| && p[1..][i] == k;
    assert Less(p[0], p[i + 1]);
    LessIrreflexive(k);
    assert k in p && k in q;
    var j :| 0 <= j < |q| && q[j] == k;
    assert j != 0;
    assert q[1..][j - 1] == k;
  }

  /** The pairs of a map in key order. */
  function PairsOf<V>(m: map<Bytes, V>): (r: seq<(Bytes, V)>)
    ensures |r| == |Sorted(m.Keys)|
    ensures forall i :: 0 <= i < |r| ==> r[i].0 == Sorted(m.Keys)[i] && r[i].0 in m && r[i].1 == m[r[i].0]
  {
    var keys := Sorted(m.Keys);
    seq(|keys|, i requires 0 <= i < |keys| => assert keys[i] in keys; (keys[i], m[keys[i]]))
  }
}
