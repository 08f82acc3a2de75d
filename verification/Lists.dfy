/** Linked lists of utils/list.h as sequences, the option type, and facts on finite sets. */
module Lists {
  datatype Option<+T> = None | Some(value: T)

  ghost predicate NoDup<T>(q: seq<T>) {
    forall i, j :: 0 <= i < j < |q| ==> q[i] != q[j]
  }

  /** list_del: unlink `x`; nothing happens when it is not linked there. */
  function Del<T(==)>(q: seq<T>, x: T): seq<T> {
    if q == [] then [] else if q[0] == x then q[1..] else [q[0]] + Del(q[1..], x)
  }

  lemma {:induction false} DelFacts<T>(q: seq<T>, x: T)
    requires NoDup(q)
    ensures NoDup(Del(q, x))
    ensures forall y :: y in Del(q, x) <==> y in q && y != x
    ensures |Del(q, x)| >= |q| - 1
  {
    if q != [] {
      var t := q[1..];
      assert forall k :: 0 <= k < |t| ==> t[k] == q[k + 1];
      assert forall y :: y in q <==> y == q[0] || y in t;
      assert q[0] !in t;
      DelFacts(t, x);
    }
  }

  /** Unlinking the k-th entry. */
  lemma {:induction false} DelAt<T>(q: seq<T>, k: nat)
    requires NoDup(q) && k < |q|
    ensures Del(q, q[k]) == q[..k] + q[k + 1..]
  {
    if k > 0 {
      var t := q[1..];
      assert forall j :: 0 <= j < |t| ==> t[j] == q[j + 1];
      DelAt(t, k - 1);
      assert [q[0]] + (t[..k - 1] + t[k..]) == q[..k] + q[k + 1..];
    }
  }

  lemma {:induction false} DelAbsent<T>(q: seq<T>, x: T)
    requires x !in q
    ensures Del(q, x) == q
  {
    if q != [] { DelAbsent(q[1..], x); }
  }

  lemma ConsFacts<T>(q: seq<T>, x: T)
    requires NoDup(q) && x !in q
    ensures NoDup([x] + q)
    ensures forall y :: y in [x] + q <==> y == x || y in q
  {
  }

  lemma {:induction false} DelIs<T>(q: seq<T>, x: T) returns (k: nat)
    requires x in q
    ensures k < |q| && q[k] == x && Del(q, x) == q[..k] + q[k + 1..]
  {
    if q[0] == x {
      k := 0;
    } else {
      var t := q[1..];
      k := DelIs(t, x);
      assert t[..k] == q[1..k + 1] && t[k + 1..] == q[k + 2..];
      assert [q[0]] + q[1..k + 1] == q[..k + 1];
      k := k + 1;
    }
  }

  lemma DelOthers<T>(q: seq<T>, x: T)
    ensures forall y :: y in Del(q, x) ==> y in q
    ensures forall y :: y in q && y != x ==> y in Del(q, x)
  {
    if x in q {
      var k := DelIs(q, x);
      forall y | y in q && y != x ensures y in Del(q, x) {
        var j :| 0 <= j < |q| && q[j] == y;
        assert Del(q, x)[if j < k then j else j - 1] == y;
      }
    } else {
      DelAbsent(q, x);
    }
  }

  // ---------- finite sets ----------

  /** There is always an unused address left for a new object. */
  lemma {:induction false} Unused(s: set<nat>) returns (h: nat)
    ensures forall x :: x in s ==> x < h
    decreases |s|
  {
    if s == {} {
      h := 0;
    } else {
      var x :| x in s;
      var g := Unused(s - {x});
      h := g + x + 1;
      assert forall y :: y in s ==> y == x || y in s - {x};
    }
  }

  lemma {:induction false} CardLe<T>(a: set<T>, b: set<T>)
    requires a <= b
    ensures |a| <= |b|
    decreases |a|
  {
    if x :| x in a { CardLe(a - {x}, b - {x}); }
  }
}
