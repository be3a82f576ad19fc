/** Small generic vocabulary shared by the models: optional values and sorted id lists. */
module Commons {

  datatype Option<+T> = None | Some(value: T)

  predicate IsAscending(q: seq<nat>) {
    forall i, j | 0 <= i < j < |q| :: q[i] < q[j]
  }

  predicate Distinct<T(==)>(q: seq<T>) {
    forall i, j | 0 <= i < j < |q| :: q[i] != q[j]
  }

  function Elements<T(==)>(q: seq<T>): set<T> {
    set x | x in q
  }

  lemma HasMinimum(s: set<nat>)
    requires s != {}
    ensures exists m :: m in s && forall x | x in s :: m <= x
  {
    var y :| y in s;
    var rest := s - {y};
    var least := y;
    if rest != {} {
      HasMinimum(rest);
      var m :| m in rest && forall x | x in rest :: m <= x;
      least := if y < m then y else m;
    }
    forall x | x in s ensures least <= x {
      assert x == y || x in rest;
    }
    assert least in s;
  }

  function Minimum(s: set<nat>): (m: nat)
    requires s != {}
    ensures m in s && forall x | x in s :: m <= x
  {
    HasMinimum(s);
    var m :| m in s && forall x | x in s :: m <= x;
    m
  }

  /** The elements of `s` in ascending order: what `ORDER BY id` returns. */
  function Ascending(s: set<nat>): (q: seq<nat>)
    ensures IsAscending(q) && |q| == |s|
    ensures forall x :: x in q <==> x in s
  {
    if s == {} then [] else
      var m := Minimum(s);
      [m] + Ascending(s - {m})
  }

  lemma Greatest(s: set<nat>) returns (m: nat)
    requires s != {}
    ensures m in s && forall x | x in s :: x <= m
  {
    var q := Ascending(s);
    m := q[|q| - 1];
    assert m in q;
    forall x | x in s ensures x <= m {
      assert x in q;
    }
  }

  /** An ascending sequence is determined by its elements. */
  lemma {:induction false} AscendingUnique(p: seq<nat>, q: seq<nat>)
    requires IsAscending(p) && IsAscending(q)
    requires forall x :: x in p <==> x in q
    ensures p == q
    decreases |p|
  {
    if p != [] {
      HasElement(p);
    }
    if q != [] {
      HasElement(q);
    }
    if p != [] {
      assert p[0] in q;
      assert q[0] in p;
      assert p[0] == q[0];
      TailElements(p);
      TailElements(q);
      AscendingUnique(p[1..], q[1..]);
      assert p == [p[0]] + p[1..] && q == [q[0]] + q[1..];
    }
  }

  lemma AscendingAppend(p: seq<nat>, q: seq<nat>)
    requires IsAscending(p) && IsAscending(q)
    requires forall x, y | x in p && y in q :: x < y
    ensures IsAscending(p + q)
  {
    forall i, j | 0 <= i < j < |p + q| ensures (p + q)[i] < (p + q)[j] {
      if i < |p| <= j {
        assert p[i] in p && q[j - |p|] in q;
      }
    }
  }

  lemma HasElement(q: seq<nat>)
    requires q != []
    ensures exists x :: x in q
  {
    assert q[0] in q;
  }

  lemma TailElements(p: seq<nat>)
    requires IsAscending(p) && p != []
    ensures IsAscending(p[1..])
    ensures forall x :: x in p[1..] <==> x in p && x != p[0]
  {
    forall x | x in p && x != p[0] ensures x in p[1..] {
      var i :| 0 <= i < |p| && p[i] == x;
      assert p[1..][i - 1] == x;
    }
    forall x | x in p[1..] ensures x != p[0] {
      var i :| 0 <= i < |p[1..]| && p[1..][i] == x;
      assert x == p[i + 1];
    }
  }

  lemma SubsetSize(a: set<nat>, b: set<nat>)
    requires a <= b
    ensures |a| <= |b| && (a != b ==> |a| < |b|)
  {
    assert b == a + (b - a);
  }

  lemma DistinctCardinality<T>(q: seq<T>)
    requires Distinct(q)
    ensures |Elements(q)| == |q|
  {
    if q == [] {
      assert Elements(q) == {};
    } else {
      var rest := q[1..];
      assert q == [q[0]] + rest;
      DistinctCardinality(rest);
      assert Elements(q) == {q[0]} + Elements(rest);
    }
  }
}
