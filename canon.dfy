/**
 * `_canonicalize_cycle`: rotate a cycle so that its smallest account id comes
 * first, keeping the direction of travel.
 */
module Canon {
  import opened Types
  import opened StrOrder

  /** `c` rotated left by `k` places. */
  function Rotate(c: seq<Account>, k: nat): (r: seq<Account>)
    requires k <= |c|
    ensures |r| == |c| && multiset(r) == multiset(c)
  {
    assert c == c[..k] + c[k..];
    c[k..] + c[..k]
  }

  lemma RotateAt(c: seq<Account>, k: nat, i: nat)
    requires k <= |c| && i < |c|
    ensures Rotate(c, k)[i] == if i + k < |c| then c[i + k] else c[i + k - |c|]
  {
  }

  /** Some rotation of `c` equals `r`. */
  predicate IsRotation(c: seq<Account>, r: seq<Account>)
  {
    exists k :: 0 <= k <= |c| && r == Rotate(c, k)
  }

  /**
   * `cyc.index(min(cyc))`: the first position holding the smallest id.
   */
  function MinIndex(c: seq<Account>): (m: nat)
    requires |c| > 0
    ensures m < |c|
    ensures forall j :: 0 <= j < |c| ==> LessEq(c[m], c[j])
    ensures forall j :: 0 <= j < m ==> c[j] != c[m]
  {
    if |c| == 1 then 0
    else
      var m := MinIndex(c[..|c| - 1]);
      var last := c[|c| - 1];
      if Less(last, c[m]) then
        assert forall j :: 0 <= j < |c| - 1 ==> Less(last, c[j]) by {
          forall j | 0 <= j < |c| - 1
            ensures Less(last, c[j])
          {
            assert c[..|c| - 1][j] == c[j];
            Transitive(last, c[m], c[j]);
          }
        }
        forall j | 0 <= j < |c| - 1 ensures c[j] != last {
          Irreflexive(last);
        }
        Irreflexive(last);
        |c| - 1
      else
        Total(last, c[m]);
        assert forall j :: 0 <= j < |c| - 1 ==> c[..|c| - 1][j] == c[j];
        m
  }

  /** `_canonicalize_cycle`. */
  function Canonicalize(c: seq<Account>): (r: seq<Account>)
    requires |c| > 0
    ensures |r| == |c| && multiset(r) == multiset(c)
    ensures IsRotation(c, r)
    ensures forall x :: x in c ==> LessEq(r[0], x)
  {
    var m := MinIndex(c);
    var r := Rotate(c, m);
    assert r[0] == c[m];
    r
  }

  /** Canonicalising twice changes nothing. */
  lemma CanonicalizeIdempotent(c: seq<Account>)
    requires |c| > 0
    ensures Canonicalize(Canonicalize(c)) == Canonicalize(c)
  {
    var r := Canonicalize(c);
    var m := MinIndex(r);
    assert r[m] in multiset(c);
    assert LessEq(r[0], r[m]) && LessEq(r[m], r[0]);
    LessEqAntisymmetric(r[0], r[m]);
    assert m == 0;
    assert Rotate(r, 0) == r;
  }

  lemma RotateDistinct(c: seq<Account>, k: nat)
    requires k <= |c| && Distinct(c)
    ensures Distinct(Rotate(c, k))
  {
    var d := Rotate(c, k);
    forall i, j | 0 <= i < j < |d| ensures d[i] != d[j] {
      RotateAt(c, k, i);
      RotateAt(c, k, j);
    }
  }

  /** Where the minimum of `c` lands after rotating left by `k`. */
  lemma MinIndexOfRotation(c: seq<Account>, k: nat)
    requires 0 < |c| && k <= |c| && Distinct(c)
    ensures MinIndex(Rotate(c, k)) == if MinIndex(c) >= k then MinIndex(c) - k else MinIndex(c) - k + |c|
  {
    var n := |c|;
    var d := Rotate(c, k);
    var p := MinIndex(c);
    var q: nat := if p >= k then p - k else p - k + n;
    var q' := MinIndex(d);
    var j := if q' + k < n then q' + k else q' + k - n;
    RotateAt(c, k, q);
    RotateAt(c, k, q');
    assert LessEq(c[p], c[j]) && LessEq(d[q'], d[q]);
    LessEqAntisymmetric(c[p], c[j]);
  }

  /** Rotating by `k` and then by `q` is one rotation by `k + q`, modulo the length. */
  lemma RotateRotate(c: seq<Account>, k: nat, q: nat)
    requires k <= |c| && q < |c|
    ensures Rotate(Rotate(c, k), q) == Rotate(c, if k + q < |c| then k + q else k + q - |c|)
  {
    var n := |c|;
    var m := if k + q < n then k + q else k + q - n;
    forall i | 0 <= i < n ensures Rotate(Rotate(c, k), q)[i] == Rotate(c, m)[i] {
      RotateAt(Rotate(c, k), q, i);
      RotateAt(c, m, i);
      RotateAt(c, k, if i + q < n then i + q else i + q - n);
    }
  }

  /** All rotations of a cycle without repeated accounts canonicalise alike. */
  lemma RotationsCanonicalizeAlike(c: seq<Account>, k: nat)
    requires 0 < |c| && k <= |c| && Distinct(c)
    ensures Canonicalize(Rotate(c, k)) == Canonicalize(c)
  {
    var d := Rotate(c, k);
    MinIndexOfRotation(c, k);
    RotateRotate(c, k, MinIndex(d));
    assert Canonicalize(d) == Rotate(d, MinIndex(d));
  }

  /** A canonical form starts with its minimum, so it is its own canonical form. */
  lemma CanonicalHasMinFirst(c: seq<Account>)
    requires |c| > 0
    ensures MinIndex(Canonicalize(c)) == 0
  {
    CanonicalizeIdempotent(c);
    var r := Canonicalize(c);
    var m := MinIndex(r);
    assert r[m] in multiset(c);
    LessEqAntisymmetric(r[0], r[m]);
  }
}
