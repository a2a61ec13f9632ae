/** The least rotation of a list of names, which the cycle search uses as a cycle's name. */
module Rotations {
  import opened Graphs

  /** Lexicographic order, as Python compares lists and strings; le compares elements. */
  predicate LexLe<T(==)>(a: seq<T>, b: seq<T>, le: (T, T) -> bool) {
    a == [] || (b != [] && (if a[0] == b[0] then LexLe(a[1..], b[1..], le) else le(a[0], b[0])))
  }

  ghost predicate TotalOrder<T(!new)>(le: (T, T) -> bool) {
    && (forall x, y :: le(x, y) || le(y, x))
    && (forall x, y :: le(x, y) && le(y, x) ==> x == y)
    && (forall x, y, z :: le(x, y) && le(y, z) ==> le(x, z))
  }

  lemma {:induction false} LexTotal<T(!new)>(a: seq<T>, b: seq<T>, le: (T, T) -> bool)
    requires TotalOrder(le)
    ensures LexLe(a, b, le) || LexLe(b, a, le)
    ensures LexLe(a, b, le) && LexLe(b, a, le) ==> a == b
  {
    if a != [] && b != [] && a[0] == b[0] {
      LexTotal(a[1..], b[1..], le);
      assert a == [a[0]] + a[1..] && b == [b[0]] + b[1..];
    }
  }

  lemma {:induction false} LexTransitive<T(!new)>(a: seq<T>, b: seq<T>, c: seq<T>, le: (T, T) -> bool)
    requires TotalOrder(le) && LexLe(a, b, le) && LexLe(b, c, le)
    ensures LexLe(a, c, le)
  {
    if a != [] && a[0] == b[0] == c[0] {
      LexTransitive(a[1..], b[1..], c[1..], le);
    }
  }

  predicate CharLe(x: char, y: char) { x <= y }

  predicate NameLe(a: Name, b: Name) { LexLe(a, b, CharLe) }

  predicate ListLe(a: seq<Name>, b: seq<Name>) { LexLe(a, b, NameLe) }

  lemma NameOrder()
    ensures TotalOrder(NameLe)
  {
    forall x, y ensures NameLe(x, y) || NameLe(y, x) { LexTotal(x, y, CharLe); }
    forall x, y | NameLe(x, y) && NameLe(y, x) ensures x == y { LexTotal(x, y, CharLe); }
    forall x, y, z | NameLe(x, y) && NameLe(y, z) ensures NameLe(x, z) { LexTransitive(x, y, z, CharLe); }
  }

  function Rotate(c: seq<Name>, k: nat): seq<Name>
    requires k <= |c|
  {
    c[k..] + c[..k]
  }

  ghost predicate IsRotation(c: seq<Name>, r: seq<Name>) {
    exists k: nat :: k <= |c| && r == Rotate(c, k)
  }

  /** The least of the rotations by 0, ..., n - 1, keeping the earlier one on a tie. */
  function Least(c: seq<Name>, n: nat): seq<Name>
    requires n <= |c|
  {
    if n <= 1 then c
    else
      var best := Least(c, n - 1);
      if ListLe(best, Rotate(c, n - 1)) then best else Rotate(c, n - 1)
  }

  function Canonical(c: seq<Name>): seq<Name> {
    Least(c, |c|)
  }

  lemma {:induction false} LeastIs(c: seq<Name>, n: nat)
    requires n <= |c|
    ensures IsRotation(c, Least(c, n))
    ensures forall k :: 0 <= k < n ==> ListLe(Least(c, n), Rotate(c, k))
  {
    NameOrder();
    if n <= 1 {
      assert c == Rotate(c, 0);
      LexTotal(c, c, NameLe);
    } else {
      LeastIs(c, n - 1);
      RotationIs(c, n - 1);
      hide Rotate, IsRotation;
      var best, r := Least(c, n - 1), Rotate(c, n - 1);
      LexTotal(best, r, NameLe);
      forall k | 0 <= k < n ensures ListLe(Least(c, n), Rotate(c, k)) {
        if k < n - 1 && !ListLe(best, r) { LexTransitive(r, best, Rotate(c, k), NameLe); }
        LexTotal(r, r, NameLe);
      }
    }
  }

  lemma RotateAt(c: seq<Name>, k: nat, i: nat)
    requires k <= |c| && i < |c|
    ensures |Rotate(c, k)| == |c| && Rotate(c, k)[i] == if i + k < |c| then c[i + k] else c[i + k - |c|]
  {
  }

  lemma RotateRotate(c: seq<Name>, j: nat, k: nat)
    requires j <= |c| && k <= |c|
    ensures |Rotate(c, j)| == |c|
    ensures Rotate(Rotate(c, j), k) == if j + k <= |c| then Rotate(c, j + k) else Rotate(c, j + k - |c|)
  {
    var r := Rotate(c, j);
    var m := if j + k <= |c| then j + k else j + k - |c|;
    assert |r| == |c| && |Rotate(r, k)| == |c| && |Rotate(c, m)| == |c|;
    hide Rotate;
    forall i | 0 <= i < |c| ensures Rotate(r, k)[i] == Rotate(c, m)[i] {
      RotateAt(r, k, i);
      RotateAt(c, j, if i + k < |c| then i + k else i + k - |c|);
      RotateAt(c, m, i);
    }
    assert Rotate(r, k) == Rotate(c, m);
  }

  lemma RotateBack(c: seq<Name>, j: nat)
    requires j <= |c|
    ensures |Rotate(c, j)| == |c| && Rotate(Rotate(c, j), |c| - j) == c
  {
    RotateRotate(c, j, |c| - j);
    RotateWhole(c);
  }

  lemma RotateWhole(c: seq<Name>)
    ensures Rotate(c, |c|) == c && Rotate(c, 0) == c
  {
  }

  lemma RotationIs(c: seq<Name>, k: nat)
    requires k <= |c|
    ensures IsRotation(c, Rotate(c, k))
  {
    hide Rotate;
  }

  lemma RotationBy(c: seq<Name>, r: seq<Name>) returns (k: nat)
    requires IsRotation(c, r)
    ensures k <= |c| && r == Rotate(c, k)
  {
    hide Rotate;
    k :| k <= |c| && r == Rotate(c, k);
  }

  /** Rotations compose, and can be undone. */
  lemma RotationsCompose(a: seq<Name>, b: seq<Name>, c: seq<Name>)
    requires IsRotation(a, b) && IsRotation(b, c)
    ensures IsRotation(a, c) && IsRotation(b, a)
  {
    hide *;
    var j := RotationBy(a, b);
    var k := RotationBy(b, c);
    RotateBack(a, j);
    RotateRotate(a, j, k);
    RotationIs(a, if j + k <= |a| then j + k else j + k - |a|);
    RotationIs(b, |a| - j);
  }

  /** A least rotation is below every rotation of the list. */
  lemma CanonicalLeast(c: seq<Name>, r: seq<Name>)
    requires IsRotation(c, r)
    ensures IsRotation(c, Canonical(c)) && ListLe(Canonical(c), r)
  {
    LeastIs(c, |c|);
    hide ListLe, Least, IsRotation;
    var k := RotationBy(c, r);
    if c == [] {
      EmptyLeast();
    } else if k == |c| {
      RotateWhole(c);
      assert ListLe(Least(c, |c|), Rotate(c, 0));
    } else {
      assert ListLe(Least(c, |c|), Rotate(c, k));
    }
  }

  lemma EmptyLeast()
    ensures Least([], 0) == [] && ListLe([], [])
  {
  }

  lemma CanonicalBelow(a: seq<Name>, b: seq<Name>)
    requires IsRotation(a, b)
    ensures ListLe(Canonical(a), Canonical(b)) && IsRotation(b, a)
  {
    hide Canonical, ListLe;
    CanonicalLeast(b, b) by { assert b == Rotate(b, 0); }
    RotationsCompose(a, b, Canonical(b));
    CanonicalLeast(a, Canonical(b));
  }

  /** Two lists have the same canonical form exactly when one is a rotation of the other. */
  lemma CanonicalDecides(a: seq<Name>, b: seq<Name>)
    ensures Canonical(a) == Canonical(b) <==> IsRotation(a, b)
  {
    hide Canonical, IsRotation;
    if IsRotation(a, b) {
      CanonicalBelow(a, b);
      CanonicalBelow(b, a);
      NameOrder();
      LexTotal(Canonical(a), Canonical(b), NameLe);
    }
    if Canonical(a) == Canonical(b) {
      SelfRotation(a);
      SelfRotation(b);
      RotationsCompose(b, Canonical(b), Canonical(b)) by { SelfRotation(Canonical(b)); }
      RotationsCompose(a, Canonical(a), b);
    }
  }

  lemma SelfRotation(c: seq<Name>)
    ensures IsRotation(c, c) && IsRotation(c, Canonical(c))
  {
    assert c == Rotate(c, 0);
    CanonicalLeast(c, c);
  }
}
