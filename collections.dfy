/** Types and small helpers shared by the other modules, including a series seen as its (label, value) rows. */
module Collections {

  /** A user of the listening log and of the monthly table. */
  type UserId = int

  /** An artist's name. */
  type Artist = string

  /** A value that may be missing, as pandas' NaN after a left merge. */
  datatype Option<+T> = None | Some(value: T)

  /** No element of `s` occurs twice. */
  predicate Distinct<T(==)>(s: seq<T>) {
    forall i, j :: 0 <= i < j < |s| ==> s[i] != s[j]
  }

  /** Appending a new element keeps a sequence free of repeats. */
  lemma DistinctSnoc<T>(s: seq<T>, x: T)
    requires Distinct(s) && x !in s
    ensures Distinct(s + [x])
  {
    var t := s + [x];
    forall i, j | 0 <= i < j < |t| ensures t[i] != t[j] {
      assert t[i] == s[i];
      if j < |s| {
        assert t[j] == s[j];
      }
    }
  }

  function MinNat(a: nat, b: nat): nat {
    if a <= b then a else b
  }

  /** The position of `x` in a sequence without duplicates. */
  function IndexOf<T(==)>(s: seq<T>, x: T): (i: nat)
    requires x in s
    ensures i < |s| && s[i] == x
    ensures Distinct(s) ==> forall j :: 0 <= j < |s| && s[j] == x ==> j == i
  {
    if s[0] == x then 0 else 1 + IndexOf(s[1..], x)
  }

  /** A part of a positive whole, as a share: in [0, 1], and positive when the part is. */
  lemma ShareWithinUnit(a: nat, b: nat)
    requires a <= b && 0 < b
    ensures 0.0 <= a as real / b as real <= 1.0
    ensures a > 0 ==> a as real / b as real > 0.0
  {
    var q := a as real / b as real;
    assert q * b as real == a as real;
  }

  /** The values of a series, in row order. */
  function Column<K(==)>(t: seq<(K, real)>): (v: seq<real>)
    ensures |v| == |t| && forall i :: 0 <= i < |t| ==> v[i] == t[i].1
  {
    seq(|t|, i requires 0 <= i < |t| => t[i].1)
  }

  /** The labels of a table of (label, value) rows, whatever the values. */
  function Labels<K(==), V>(t: seq<(K, V)>): set<K> {
    set i | 0 <= i < |t| :: t[i].0
  }

  /** No label occurs on two rows (true of dict items and of a groupby result). */
  predicate UniqueLabels<K(==), V>(t: seq<(K, V)>) {
    forall i, j :: 0 <= i < j < |t| ==> t[i].0 != t[j].0
  }

  lemma LabelsAppend<K, V>(a: seq<(K, V)>, b: seq<(K, V)>)
    ensures Labels(a + b) == Labels(a) + Labels(b)
    ensures UniqueLabels(a) && UniqueLabels(b) && Labels(a) !! Labels(b) ==> UniqueLabels(a + b)
  {
    var c := a + b;
    forall k | k in Labels(c) ensures k in Labels(a) + Labels(b) {
      var i :| 0 <= i < |c| && c[i].0 == k;
      if i >= |a| {
        assert b[i - |a|].0 == k;
      }
    }
    forall k | k in Labels(a) ensures k in Labels(c) {
      var i :| 0 <= i < |a| && a[i].0 == k;
      assert c[i].0 == k;
    }
    forall k | k in Labels(b) ensures k in Labels(c) {
      var i :| 0 <= i < |b| && b[i].0 == k;
      assert c[i + |a|].0 == k;
    }
    if UniqueLabels(a) && UniqueLabels(b) && Labels(a) !! Labels(b) {
      forall i, j | 0 <= i < j < |c| ensures c[i].0 != c[j].0 {
        if i < |a| && j >= |a| {
          assert c[j].0 == b[j - |a|].0;
          assert c[j].0 in Labels(b);
        }
      }
    }
  }

  /** The labels of a table are those of all but its last row, plus the last row's. */
  lemma LabelsSnoc<K, V>(ps: seq<(K, V)>)
    requires ps != []
    ensures Labels(ps) == Labels(ps[..|ps| - 1]) + {ps[|ps| - 1].0}
  {
    var init := ps[..|ps| - 1];
    forall k | k in Labels(ps) ensures k in Labels(init) + {ps[|ps| - 1].0} {
      var i :| 0 <= i < |ps| && ps[i].0 == k;
      if i < |init| {
        assert init[i].0 == k;
      }
    }
    forall k | k in Labels(init) ensures k in Labels(ps) {
      var i :| 0 <= i < |init| && init[i].0 == k;
      assert ps[i].0 == k;
    }
  }
}
