/** A stable sort by comparator, and why it does not matter which one is used. */
module Sorting {

  datatype Ordering = Less | Equal | Greater

  function Reverse(o: Ordering): Ordering {
    match o
    case Less => Greater
    case Equal => Equal
    case Greater => Less
  }

  type Comparator<!T> = (T, T) -> Ordering

  /** Insert x in front of the first row that is not smaller. */
  function Insert<T>(x: T, sorted: seq<T>, cmp: Comparator<T>): seq<T> {
    if sorted == [] then [x]
    else if cmp(x, sorted[0]).Greater? then [sorted[0]] + Insert(x, sorted[1..], cmp)
    else [x] + sorted
  }

  function SortBy<T>(rows: seq<T>, cmp: Comparator<T>): seq<T> {
    if rows == [] then [] else Insert(rows[0], SortBy(rows[1..], cmp), cmp)
  }

  /** `skip(offset).take(limit)`; no limit means everything. */
  function Page<T>(rows: seq<T>, offset: nat, limit: int): seq<T> {
    var from := if offset < |rows| then rows[offset..] else [];
    if 0 <= limit < |from| then from[..limit] else from
  }

  function Map<T, U>(rows: seq<T>, f: T -> U): (out: seq<U>)
    ensures |out| == |rows| && forall i | 0 <= i < |rows| :: out[i] == f(rows[i])
  {
    if rows == [] then [] else [f(rows[0])] + Map(rows[1..], f)
  }

  // ----- what a sort owes its caller -----

  ghost predicate TotalPreorder<T(!new)>(cmp: Comparator<T>) {
    && (forall a, b :: cmp(a, b) == Reverse(cmp(b, a)))
    && (forall a, b, c :: !cmp(a, b).Greater? && !cmp(b, c).Greater? ==> !cmp(a, c).Greater?)
  }

  ghost predicate Sorted<T>(rows: seq<T>, cmp: Comparator<T>) {
    forall i, j | 0 <= i < j < |rows| :: !cmp(rows[i], rows[j]).Greater?
  }

  /** The rows that tie with x, in their order. */
  ghost function Ties<T>(rows: seq<T>, x: T, cmp: Comparator<T>): seq<T> {
    if rows == [] then []
    else (if cmp(x, rows[0]).Equal? then [rows[0]] else []) + Ties(rows[1..], x, cmp)
  }

  /** Same rows, and rows that tie keep their order. */
  ghost predicate SameTies<T(!new)>(a: seq<T>, b: seq<T>, cmp: Comparator<T>) {
    forall x :: Ties(a, x, cmp) == Ties(b, x, cmp)
  }

  /** Sorted, nothing lost or added, ties in input order. */
  ghost predicate IsStableSort<T(!new)>(out: seq<T>, rows: seq<T>, cmp: Comparator<T>) {
    Sorted(out, cmp) && SameTies(out, rows, cmp)
  }

  lemma {:induction false} InsertMembers<T>(x: T, sorted: seq<T>, cmp: Comparator<T>)
    ensures forall y | y in Insert(x, sorted, cmp) :: y == x || y in sorted
  {
    if sorted != [] {
      InsertMembers(x, sorted[1..], cmp);
    }
  }

  lemma {:induction false} InsertSorted<T(!new)>(x: T, sorted: seq<T>, cmp: Comparator<T>)
    requires TotalPreorder(cmp) && Sorted(sorted, cmp)
    ensures Sorted(Insert(x, sorted, cmp), cmp)
  {
    if sorted == [] {
    } else if cmp(x, sorted[0]).Greater? {
      InsertSorted(x, sorted[1..], cmp);
      InsertMembers(x, sorted[1..], cmp);
      ConsSorted(sorted[0], Insert(x, sorted[1..], cmp), cmp);
    } else {
      forall y | y in sorted
        ensures !cmp(x, y).Greater?
      {
        var j :| 0 <= j < |sorted| && sorted[j] == y;
        assert cmp(sorted[0], sorted[0]).Equal?;
        assert j > 0 ==> !cmp(sorted[0], sorted[j]).Greater?;
      }
      ConsSorted(x, sorted, cmp);
    }
  }

  lemma ConsSorted<T>(x: T, rest: seq<T>, cmp: Comparator<T>)
    requires Sorted(rest, cmp) && forall y | y in rest :: !cmp(x, y).Greater?
    ensures Sorted([x] + rest, cmp)
  {
  }

  /** Inserting moves x only past smaller rows, so tie lists do not change. */
  lemma {:induction false} InsertKeepsTies<T(!new)>(x: T, sorted: seq<T>, y: T, cmp: Comparator<T>)
    requires TotalPreorder(cmp)
    ensures Ties(Insert(x, sorted, cmp), y, cmp) == Ties([x] + sorted, y, cmp)
  {
    if sorted != [] && cmp(x, sorted[0]).Greater? {
      hide Ties, TotalPreorder;
      var head, tail := sorted[0], sorted[1..];
      assert sorted == [head] + tail;
      InsertKeepsTies(x, tail, y, cmp);
      TiesCons(head, Insert(x, tail, cmp), y, cmp);
      TiesCons(head, tail, y, cmp);
      TiesCons(x, tail, y, cmp);
      TiesCons(x, sorted, y, cmp);
      NotBothTied(x, head, y, cmp);
    }
  }

  lemma TiesCons<T>(x: T, rest: seq<T>, y: T, cmp: Comparator<T>)
    ensures Ties([x] + rest, y, cmp) == (if cmp(y, x).Equal? then [x] else []) + Ties(rest, y, cmp)
  {
    assert ([x] + rest)[1..] == rest;
  }

  lemma NotBothTied<T(!new)>(x: T, head: T, y: T, cmp: Comparator<T>)
    requires TotalPreorder(cmp) && cmp(x, head).Greater?
    ensures !cmp(y, x).Equal? || !cmp(y, head).Equal?
  {
    assert cmp(x, y) == Reverse(cmp(y, x));
  }

  lemma {:induction false} SortIsStable<T(!new)>(rows: seq<T>, cmp: Comparator<T>)
    requires TotalPreorder(cmp)
    ensures IsStableSort(SortBy(rows, cmp), rows, cmp)
  {
    if rows != [] {
      var tail := SortBy(rows[1..], cmp);
      SortIsStable(rows[1..], cmp);
      InsertSorted(rows[0], tail, cmp);
      forall x
        ensures Ties(SortBy(rows, cmp), x, cmp) == Ties(rows, x, cmp)
      {
        InsertKeepsTies(rows[0], tail, x, cmp);
        TiesCons(rows[0], tail, x, cmp);
        assert Ties(tail, x, cmp) == Ties(rows[1..], x, cmp);
      }
    }
  }

  /** In a sorted list the first row's ties come first, so the first row is
      fixed by the tie lists. */
  lemma SameHead<T(!new)>(a: seq<T>, b: seq<T>, cmp: Comparator<T>)
    requires TotalPreorder(cmp) && Sorted(a, cmp) && Sorted(b, cmp) && SameTies(a, b, cmp)
    requires a != []
    ensures b != [] && a[0] == b[0]
    ensures SameTies(a[1..], b[1..], cmp)
  {
    var x := a[0];
    assert cmp(x, x).Equal?;
    assert Ties(a, x, cmp)[0] == x;
    assert Ties(b, x, cmp) == Ties(a, x, cmp);
    assert b != [];
    var y := b[0];
    assert cmp(y, y).Equal?;
    assert Ties(b, y, cmp)[0] == y;
    assert Ties(a, y, cmp) == Ties(b, y, cmp);
    var i := FirstTie(a, y, cmp);
    var j := FirstTie(b, x, cmp);
    assert !cmp(x, y).Greater? by {
      assert i > 0 ==> !cmp(a[0], a[i]).Greater?;
    }
    assert !cmp(y, x).Greater? by {
      assert j > 0 ==> !cmp(b[0], b[j]).Greater?;
    }
    assert Ties(b, x, cmp)[0] == y;
    forall z
      ensures Ties(a[1..], z, cmp) == Ties(b[1..], z, cmp)
    {
      assert Ties(a, z, cmp) == Ties(b, z, cmp);
      assert Ties(a[1..], z, cmp) == if cmp(z, x).Equal? then Ties(a, z, cmp)[1..] else Ties(a, z, cmp);
      assert Ties(b[1..], z, cmp) == if cmp(z, x).Equal? then Ties(b, z, cmp)[1..] else Ties(b, z, cmp);
    }
  }

  lemma {:induction false} FirstTie<T>(rows: seq<T>, x: T, cmp: Comparator<T>) returns (i: nat)
    requires Ties(rows, x, cmp) != []
    ensures i < |rows| && rows[i] == Ties(rows, x, cmp)[0] && cmp(x, rows[i]).Equal?
  {
    if cmp(x, rows[0]).Equal? {
      i := 0;
    } else {
      i := FirstTie(rows[1..], x, cmp);
      i := i + 1;
    }
  }

  lemma NoTiesNoRows<T(!new)>(rows: seq<T>, cmp: Comparator<T>)
    requires TotalPreorder(cmp) && forall x :: Ties(rows, x, cmp) == []
    ensures rows == []
  {
    if rows != [] {
      assert cmp(rows[0], rows[0]).Equal?;
      var ties := Ties(rows, rows[0], cmp);
    }
  }

  /** There is only one stable sort of a list. */
  lemma {:induction false} StableSortIsUnique<T(!new)>(a: seq<T>, b: seq<T>, cmp: Comparator<T>)
    requires TotalPreorder(cmp) && Sorted(a, cmp) && Sorted(b, cmp) && SameTies(a, b, cmp)
    ensures a == b
  {
    if a == [] {
      forall x
        ensures Ties(b, x, cmp) == []
      {
        assert Ties(a, x, cmp) == Ties(b, x, cmp);
      }
      NoTiesNoRows(b, cmp);
    } else {
      SameHead(a, b, cmp);
      StableSortIsUnique(a[1..], b[1..], cmp);
      assert a == [a[0]] + a[1..] && b == [b[0]] + b[1..];
    }
  }

  /** Sorting a list that was already sorted by something else first gives the
      same rows exactly when the first sort moved no row past a tie. */
  lemma ResortAgrees<T(!new)>(rows: seq<T>, first: seq<T>, cmp: Comparator<T>)
    requires TotalPreorder(cmp)
    ensures SortBy(first, cmp) == SortBy(rows, cmp) <==> SameTies(first, rows, cmp)
  {
    SortIsStable(first, cmp);
    SortIsStable(rows, cmp);
    if SameTies(first, rows, cmp) {
      StableSortIsUnique(SortBy(first, cmp), SortBy(rows, cmp), cmp);
    }
    if SortBy(first, cmp) == SortBy(rows, cmp) {
      forall x
        ensures Ties(first, x, cmp) == Ties(rows, x, cmp)
      {
        assert Ties(SortBy(first, cmp), x, cmp) == Ties(first, x, cmp);
        assert Ties(SortBy(rows, cmp), x, cmp) == Ties(rows, x, cmp);
      }
    }
  }

  // ----- sorting commutes with projection -----

  ghost predicate Agree<T, U>(rows: seq<T>, cmp: Comparator<T>, f: T -> U, cmpU: Comparator<U>) {
    forall a, b | a in rows && b in rows :: cmp(a, b) == cmpU(f(a), f(b))
  }

  lemma {:induction false} InsertCommutes<T, U>(x: T, sorted: seq<T>, cmp: Comparator<T>, f: T -> U,
      cmpU: Comparator<U>)
    requires Agree([x] + sorted, cmp, f, cmpU)
    ensures Map(Insert(x, sorted, cmp), f) == Insert(f(x), Map(sorted, f), cmpU)
    ensures forall y | y in Insert(x, sorted, cmp) :: y in [x] + sorted
  {
    if sorted == [] {
    } else if cmp(x, sorted[0]).Greater? {
      assert forall y | y in [x] + sorted[1..] :: y in [x] + sorted;
      InsertCommutes(x, sorted[1..], cmp, f, cmpU);
      assert x in [x] + sorted && sorted[0] in [x] + sorted;
      assert Map(sorted, f)[1..] == Map(sorted[1..], f);
    } else {
      assert x in [x] + sorted && sorted[0] in [x] + sorted;
    }
  }

  lemma {:induction false} SortCommutes<T, U>(rows: seq<T>, cmp: Comparator<T>, f: T -> U,
      cmpU: Comparator<U>)
    requires Agree(rows, cmp, f, cmpU)
    ensures Map(SortBy(rows, cmp), f) == SortBy(Map(rows, f), cmpU)
    ensures forall y | y in SortBy(rows, cmp) :: y in rows
  {
    if rows != [] {
      SortCommutes(rows[1..], cmp, f, cmpU);
      var tail := SortBy(rows[1..], cmp);
      assert forall y | y in [rows[0]] + tail :: y in rows;
      InsertCommutes(rows[0], tail, cmp, f, cmpU);
      assert Map(rows, f)[1..] == Map(rows[1..], f);
    }
  }

  lemma PageCommutes<T, U>(rows: seq<T>, f: T -> U, offset: nat, limit: int)
    ensures Map(Page(rows, offset, limit), f) == Page(Map(rows, f), offset, limit)
  {
  }

  /** Lists with the same pages are the same list. */
  lemma PagesDetermineRows<T(!new)>(a: seq<T>, b: seq<T>)
    ensures (forall offset: nat, limit :: Page(a, offset, limit) == Page(b, offset, limit)) <==> a == b
  {
    if forall offset: nat, limit :: Page(a, offset, limit) == Page(b, offset, limit) {
      assert Page(a, 0, -1) == a && Page(b, 0, -1) == b;
    }
  }

  // ----- lists without ties -----

  lemma {:induction false} InsertMultiset<T>(x: T, sorted: seq<T>, cmp: Comparator<T>)
    ensures multiset(Insert(x, sorted, cmp)) == multiset([x] + sorted)
  {
    if sorted != [] && cmp(x, sorted[0]).Greater? {
      InsertMultiset(x, sorted[1..], cmp);
      assert sorted == [sorted[0]] + sorted[1..];
    }
  }

  lemma {:induction false} SortMultiset<T>(rows: seq<T>, cmp: Comparator<T>)
    ensures multiset(SortBy(rows, cmp)) == multiset(rows)
  {
    if rows != [] {
      SortMultiset(rows[1..], cmp);
      InsertMultiset(rows[0], SortBy(rows[1..], cmp), cmp);
      assert rows == [rows[0]] + rows[1..];
    }
  }

  lemma {:induction false} TiesCount<T>(rows: seq<T>, x: T, y: T, cmp: Comparator<T>)
    ensures multiset(Ties(rows, x, cmp))[y]
         == if cmp(x, y).Equal? then multiset(rows)[y] else 0
  {
    if rows != [] {
      TiesCount(rows[1..], x, y, cmp);
      assert rows == [rows[0]] + rows[1..];
    }
  }

  ghost predicate NoTies<T(!new)>(rows: seq<T>, cmp: Comparator<T>) {
    forall x :: |Ties(rows, x, cmp)| <= 1
  }

  /** Where no two rows tie, it does not matter in which order rows arrive. */
  lemma NoTiesAnyOrder<T(!new)>(first: seq<T>, rows: seq<T>, cmp: Comparator<T>)
    requires multiset(first) == multiset(rows) && NoTies(rows, cmp)
    ensures SameTies(first, rows, cmp)
  {
    forall x
      ensures Ties(first, x, cmp) == Ties(rows, x, cmp)
    {
      var a, b := Ties(first, x, cmp), Ties(rows, x, cmp);
      forall y
        ensures multiset(a)[y] == multiset(b)[y]
      {
        TiesCount(first, x, y, cmp);
        TiesCount(rows, x, y, cmp);
      }
      assert multiset(a) == multiset(b) && |b| <= 1;
      SmallListsEqual(a, b);
    }
  }

  lemma SmallListsEqual<T>(a: seq<T>, b: seq<T>)
    requires multiset(a) == multiset(b) && |b| <= 1
    ensures a == b
  {
    assert |a| == |multiset(a)| && |b| == |multiset(b)|;
    if |b| == 1 {
      assert a[0] in multiset(b);
    }
  }
}
