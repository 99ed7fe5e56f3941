/** The order in which a std::map is iterated: its keys, each once, ascending. */
module Ordering {

  ghost predicate TotalOrder<T(!new)>(leq: (T, T) -> bool) {
    && (forall a :: leq(a, a))
    && (forall a, b :: leq(a, b) || leq(b, a))
    && (forall a, b :: leq(a, b) && leq(b, a) ==> a == b)
    && (forall a, b, c :: leq(a, b) && leq(b, c) ==> leq(a, c))
  }

  ghost predicate IsLeast<T(!new)>(leq: (T, T) -> bool, s: set<T>, m: T) {
    m in s && forall x :: x in s ==> leq(m, x)
  }

  lemma {:induction false} LeastExists<T(!new)>(leq: (T, T) -> bool, s: set<T>) returns (m: T)
    requires TotalOrder(leq) && s != {}
    ensures IsLeast(leq, s, m)
    decreases |s|
  {
    var x :| x in s;
    if s == {x} {
      m := x;
    } else {
      var y := LeastExists(leq, s - {x});
      m := if leq(x, y) then x else y;
      assert forall z :: z in s ==> z == x || z in s - {x};
    }
  }

  lemma SomeLeast<T(!new)>(leq: (T, T) -> bool, s: set<T>)
    requires TotalOrder(leq) && s != {}
    ensures exists m :: IsLeast(leq, s, m)
  {
    var m := LeastExists(leq, s);
  }

  ghost function Least<T(!new)>(leq: (T, T) -> bool, s: set<T>): (m: T)
    requires TotalOrder(leq) && s != {}
    ensures IsLeast(leq, s, m)
  {
    SomeLeast(leq, s);
    var l :| IsLeast(leq, s, l);
    l
  }

  ghost function Ascending<T(!new)>(leq: (T, T) -> bool, s: set<T>): (r: seq<T>)
    requires TotalOrder(leq)
    decreases |s|
  {
    if s == {} then [] else
      var m := Least(leq, s);
      [m] + Ascending(leq, s - {m})
  }

  /** The enumeration holds every element exactly once, in ascending order. */
  lemma {:induction false} AscendingSpec<T(!new)>(leq: (T, T) -> bool, s: set<T>)
    requires TotalOrder(leq)
    ensures var r := Ascending(leq, s);
      && |r| == |s|
      && (forall x :: x in r <==> x in s)
      && (forall i, j :: 0 <= i < j < |r| ==> leq(r[i], r[j]) && r[i] != r[j])
    decreases |s|
  {
    if s != {} {
      var m := Least(leq, s);
      AscendingSpec(leq, s - {m});
      var tail := Ascending(leq, s - {m});
      forall x ensures x in [m] + tail <==> x in s {
        assert x in s <==> x == m || x in s - {m};
      }
    }
  }

  /** Taking the least element off a set takes the first element off its enumeration. */
  lemma AscendingUncons<T(!new)>(leq: (T, T) -> bool, s: set<T>, m: T)
    requires TotalOrder(leq) && IsLeast(leq, s, m)
    ensures Ascending(leq, s) == [m] + Ascending(leq, s - {m})
  {
    assert Least(leq, s) == m;
  }

  // ---- Strings compare byte by byte, as std::string does ------------------------------------

  predicate StringLeq(a: string, b: string) {
    a == [] || (b != [] && (a[0] < b[0] || (a[0] == b[0] && StringLeq(a[1..], b[1..]))))
  }

  lemma {:induction false} StringLeqReflexive(a: string)
    ensures StringLeq(a, a)
  {
    if a != [] {
      StringLeqReflexive(a[1..]);
    }
  }

  lemma {:induction false} StringLeqTotal(a: string, b: string)
    ensures StringLeq(a, b) || StringLeq(b, a)
  {
    if a != [] && b != [] && a[0] == b[0] {
      StringLeqTotal(a[1..], b[1..]);
    }
  }

  lemma {:induction false} StringLeqAntisymmetric(a: string, b: string)
    requires StringLeq(a, b) && StringLeq(b, a)
    ensures a == b
  {
    if a != [] && b != [] {
      StringLeqAntisymmetric(a[1..], b[1..]);
      assert a == [a[0]] + a[1..] && b == [b[0]] + b[1..];
    }
  }

  lemma {:induction false} StringLeqTransitive(a: string, b: string, c: string)
    requires StringLeq(a, b) && StringLeq(b, c)
    ensures StringLeq(a, c)
  {
    if a != [] && a[0] == b[0] && b[0] == c[0] {
      StringLeqTransitive(a[1..], b[1..], c[1..]);
    }
  }

  lemma StringOrder()
    ensures TotalOrder(StringLeq)
  {
    forall a ensures StringLeq(a, a) { StringLeqReflexive(a); }
    forall a, b ensures StringLeq(a, b) || StringLeq(b, a) { StringLeqTotal(a, b); }
    forall a, b | StringLeq(a, b) && StringLeq(b, a) ensures a == b { StringLeqAntisymmetric(a, b); }
    forall a, b, c | StringLeq(a, b) && StringLeq(b, c) ensures StringLeq(a, c) {
      StringLeqTransitive(a, b, c);
    }
  }

  predicate IntLeq(a: int, b: int) {
    a <= b
  }

  lemma IntOrder()
    ensures TotalOrder(IntLeq)
  {
  }

  /** The users of a queue map, in the order the map is iterated. */
  ghost function Users(s: set<string>): seq<string> {
    StringOrder();
    Ascending(StringLeq, s)
  }

  /** Descriptors, in the order a map keyed by them is iterated. */
  ghost function Descriptors(s: set<int>): seq<int> {
    IntOrder();
    Ascending(IntLeq, s)
  }

  /** One step of iterating a map keyed by users. */
  method FirstUser(s: set<string>) returns (u: string)
    requires s != {}
    ensures u in s && Users(s) == [u] + Users(s - {u})
  {
    StringOrder();
    var _ := LeastExists(StringLeq, s);
    u :| u in s && forall v :: v in s ==> StringLeq(u, v);
    AscendingUncons(StringLeq, s, u);
  }

  /** One step of iterating a map keyed by descriptors. */
  method FirstDescriptor(s: set<int>) returns (fd: int)
    requires s != {}
    ensures fd in s && Descriptors(s) == [fd] + Descriptors(s - {fd})
  {
    IntOrder();
    var _ := LeastExists(IntLeq, s);
    fd :| fd in s && forall d :: d in s ==> IntLeq(fd, d);
    AscendingUncons(IntLeq, s, fd);
  }
}
