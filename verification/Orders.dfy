/** Strict orders, insertion sort and ordered listings of sets.

    `Sort` stands for the standard library's stable sort and `Listing` for the iteration order
    of an ordered map or set. Both are pinned down by one fact, `SortedUnique`: a strictly
    ascending sequence is determined by its elements. */
module Orders {

  ghost predicate StrictOrderOn<T(!new)>(lt: (T, T) -> bool, s: set<T>) {
    && (forall x :: x in s ==> !lt(x, x))
    && (forall x, y, z :: x in s && y in s && z in s && lt(x, y) && lt(y, z) ==> lt(x, z))
    && (forall x, y :: x in s && y in s && x != y ==> lt(x, y) || lt(y, x))
  }

  ghost predicate Ascending<T>(s: seq<T>, lt: (T, T) -> bool) {
    forall i, j :: 0 <= i < j < |s| ==> lt(s[i], s[j])
  }

  ghost predicate NoDuplicates<T>(s: seq<T>) {
    forall i, j :: 0 <= i < j < |s| ==> s[i] != s[j]
  }

  function Elements<T>(s: seq<T>): set<T> {
    set x | x in s
  }

  function Insert<T(!new)>(x: T, s: seq<T>, lt: (T, T) -> bool): (r: seq<T>)
    ensures |r| == |s| + 1
    ensures forall y :: y in r <==> y == x || y in s
  {
    if s == [] then [x]
    else if lt(s[0], x) then [s[0]] + Insert(x, s[1..], lt)
    else [x] + s
  }

  function Sort<T(!new)>(s: seq<T>, lt: (T, T) -> bool): (r: seq<T>)
    ensures |r| == |s|
    ensures forall y :: y in r <==> y in s
  {
    if s == [] then []
    else
      assert s == [s[0]] + s[1..];
      Insert(s[0], Sort(s[1..], lt), lt)
  }

  lemma AscendingCons<T(!new)>(x: T, s: seq<T>, lt: (T, T) -> bool)
    requires Ascending(s, lt) && forall y :: y in s ==> lt(x, y)
    ensures Ascending([x] + s, lt)
  {
  }

  /** A value below the first element is below all of them. */
  lemma BelowAll<T(!new)>(x: T, s: seq<T>, lt: (T, T) -> bool)
    requires s != [] && Ascending(s, lt) && StrictOrderOn(lt, Elements(s) + {x}) && lt(x, s[0])
    ensures forall y :: y in s ==> lt(x, y)
  {
    forall y | y in s ensures lt(x, y) {
      var i :| 0 <= i < |s| && s[i] == y;
      assert s[0] in Elements(s) + {x} && s[i] in Elements(s) + {x};
      assert i > 0 ==> lt(s[0], s[i]);
    }
  }

  lemma TailAscending<T(!new)>(s: seq<T>, lt: (T, T) -> bool)
    requires s != [] && Ascending(s, lt)
    ensures Ascending(s[1..], lt) && forall y :: y in s[1..] ==> lt(s[0], y)
  {
  }

  lemma OrderOnSubset<T(!new)>(lt: (T, T) -> bool, s: set<T>, sub: set<T>)
    requires StrictOrderOn(lt, s) && sub <= s
    ensures StrictOrderOn(lt, sub)
  {
  }

  lemma {:induction false} InsertAscending<T(!new)>(x: T, s: seq<T>, lt: (T, T) -> bool)
    requires Ascending(s, lt) && x !in s && StrictOrderOn(lt, Elements(s) + {x})
    ensures Ascending(Insert(x, s, lt), lt)
  {
    if s != [] {
      assert s == [s[0]] + s[1..];
      assert s[0] in Elements(s) + {x} && x in Elements(s) + {x};
      if lt(s[0], x) {
        TailAscending(s, lt);
        OrderOnSubset(lt, Elements(s) + {x}, Elements(s[1..]) + {x});
        hide StrictOrderOn;
        InsertAscending(x, s[1..], lt);
        AscendingCons(s[0], Insert(x, s[1..], lt), lt);
      } else {
        assert lt(x, s[0]);
        BelowAll(x, s, lt);
        hide StrictOrderOn;
        AscendingCons(x, s, lt);
      }
    }
  }

  lemma {:induction false} SortAscending<T(!new)>(s: seq<T>, lt: (T, T) -> bool)
    requires NoDuplicates(s) && StrictOrderOn(lt, Elements(s))
    ensures Ascending(Sort(s, lt), lt)
  {
    if s != [] {
      assert forall y :: y in s[1..] ==> y in s;
      SortAscending(s[1..], lt);
      assert s[0] !in s[1..];
      assert Elements(Sort(s[1..], lt)) + {s[0]} <= Elements(s);
      InsertAscending(s[0], Sort(s[1..], lt), lt);
    }
  }

  /** Two strictly ascending sequences with the same elements are the same sequence. */
  lemma {:induction false} SortedUnique<T(!new)>(a: seq<T>, b: seq<T>, lt: (T, T) -> bool)
    requires Ascending(a, lt) && Ascending(b, lt)
    requires Elements(a) == Elements(b) && StrictOrderOn(lt, Elements(a))
    ensures a == b
    decreases |a|
  {
    if a == [] {
      NoElements(b);
    } else {
      assert a[0] in Elements(a);
      assert a[0] in Elements(b);
      FirstIsLeast(a, lt);
      FirstIsLeast(b, lt);
      assert b[0] in Elements(b);
      assert a[0] == b[0];
      TailElements(a, lt);
      TailElements(b, lt);
      SortedUnique(a[1..], b[1..], lt);
      assert a == [a[0]] + a[1..] && b == [b[0]] + b[1..];
    }
  }

  lemma NoElements<T>(b: seq<T>)
    ensures b != [] ==> Elements(b) != {}
  {
    if b != [] { assert b[0] in Elements(b); }
  }

  lemma InsertStep<T(!new)>(x: T, r: seq<T>, s: set<T>, lt: (T, T) -> bool)
    requires StrictOrderOn(lt, s) && Elements(r) <= s && x in s && x !in Elements(r) && Ascending(r, lt)
    ensures Ascending(Insert(x, r, lt), lt)
    ensures Elements(Insert(x, r, lt)) == Elements(r) + {x}
  {
    InsertAscending(x, r, lt);
  }

  lemma FirstIsLeast<T(!new)>(a: seq<T>, lt: (T, T) -> bool)
    requires a != [] && Ascending(a, lt)
    ensures forall y :: y in Elements(a) ==> y == a[0] || lt(a[0], y)
  {
  }

  lemma TailElements<T(!new)>(a: seq<T>, lt: (T, T) -> bool)
    requires a != [] && Ascending(a, lt) && StrictOrderOn(lt, Elements(a))
    ensures Elements(a[1..]) == Elements(a) - {a[0]}
  {
    assert a == [a[0]] + a[1..];
    forall k | 0 <= k < |a[1..]| ensures a[1..][k] != a[0] {
      assert a[0] in Elements(a) && a[k + 1] in Elements(a);
      assert lt(a[0], a[k + 1]);
    }
  }

  ghost function Pick<T>(s: set<T>): (x: T)
    requires s != {}
    ensures x in s
  {
    var x :| x in s;
    x
  }

  /** The elements of a finite set in ascending order. */
  ghost function Listing<T(!new)>(s: set<T>, lt: (T, T) -> bool): (r: seq<T>)
    ensures |r| == |s| && Elements(r) == s
  {
    if s == {} then []
    else
      var x := Pick(s);
      var rest := Listing(s - {x}, lt);
      var r := Insert(x, rest, lt);
      assert forall y :: y in Elements(r) <==> y == x || y in Elements(rest);
      r
  }

  lemma {:induction false} ListingAscending<T(!new)>(s: set<T>, lt: (T, T) -> bool)
    requires StrictOrderOn(lt, s)
    ensures Ascending(Listing(s, lt), lt)
    ensures NoDuplicates(Listing(s, lt))
  {
    if s != {} {
      var x := Pick(s);
      ListingAscending(s - {x}, lt);
      assert x !in Elements(Listing(s - {x}, lt));
      InsertAscending(x, Listing(s - {x}, lt), lt);
    }
    AscendingNoDuplicates(Listing(s, lt), lt);
  }

  lemma AscendingNoDuplicates<T(!new)>(r: seq<T>, lt: (T, T) -> bool)
    requires Ascending(r, lt) && StrictOrderOn(lt, Elements(r))
    ensures NoDuplicates(r)
  {
    forall i, j | 0 <= i < j < |r| ensures r[i] != r[j] {
      assert r[i] in Elements(r);
      assert lt(r[i], r[j]);
    }
  }

  /** Iterates an ordered set: picks the elements in any order and keeps them sorted. */
  method Collect<T(!new, ==)>(s: set<T>, lt: (T, T) -> bool) returns (r: seq<T>)
    requires StrictOrderOn(lt, s)
    ensures r == Listing(s, lt)
  {
    r := [];
    var rest := s;
    while rest != {}
      invariant rest <= s && Elements(r) == s - rest && Ascending(r, lt)
      decreases rest
    {
      var x :| x in rest;
      InsertStep(x, r, s, lt);
      r := Insert(x, r, lt);
      rest := rest - {x};
    }
    ListingAscending(s, lt);
    SortedUnique(r, Listing(s, lt), lt);
  }

  // ---- sorting with duplicates --------------------------------------------------------------

  ghost predicate WeaklyAscending<T>(s: seq<T>, lt: (T, T) -> bool) {
    forall i, j :: 0 <= i < j < |s| ==> !lt(s[j], s[i])
  }

  lemma WeakCons<T(!new)>(x: T, s: seq<T>, lt: (T, T) -> bool)
    requires WeaklyAscending(s, lt) && forall y :: y in s ==> !lt(y, x)
    ensures WeaklyAscending([x] + s, lt)
  {
  }

  lemma WeakFirst<T(!new)>(x: T, s: seq<T>, lt: (T, T) -> bool)
    requires s != [] && WeaklyAscending(s, lt) && StrictOrderOn(lt, Elements(s) + {x}) && !lt(s[0], x)
    ensures forall y :: y in s ==> !lt(y, x)
  {
    forall y | y in s ensures !lt(y, x) {
      var i :| 0 <= i < |s| && s[i] == y;
      assert s[0] in Elements(s) + {x} && s[i] in Elements(s) + {x} && x in Elements(s) + {x};
      assert i > 0 ==> !lt(s[i], s[0]);
    }
  }

  lemma {:induction false} InsertWeak<T(!new)>(x: T, s: seq<T>, lt: (T, T) -> bool)
    requires WeaklyAscending(s, lt) && StrictOrderOn(lt, Elements(s) + {x})
    ensures WeaklyAscending(Insert(x, s, lt), lt)
  {
    if s != [] {
      assert s == [s[0]] + s[1..];
      assert s[0] in Elements(s) + {x} && x in Elements(s) + {x};
      if lt(s[0], x) {
        OrderOnSubset(lt, Elements(s) + {x}, Elements(s[1..]) + {x});
        assert !lt(x, s[0]);
        assert forall y :: y in s[1..] ==> !lt(y, s[0]);
        hide StrictOrderOn;
        InsertWeak(x, s[1..], lt);
        WeakCons(s[0], Insert(x, s[1..], lt), lt);
      } else {
        WeakFirst(x, s, lt);
        hide StrictOrderOn;
        WeakCons(x, s, lt);
      }
    }
  }

  lemma {:induction false} SortWeak<T(!new)>(s: seq<T>, lt: (T, T) -> bool)
    requires StrictOrderOn(lt, Elements(s))
    ensures WeaklyAscending(Sort(s, lt), lt)
  {
    if s != [] {
      assert s == [s[0]] + s[1..];
      assert forall y :: y in s[1..] ==> y in s;
      OrderOnSubset(lt, Elements(s), Elements(s[1..]));
      SortWeak(s[1..], lt);
      OrderOnSubset(lt, Elements(s), Elements(Sort(s[1..], lt)) + {s[0]});
      InsertWeak(s[0], Sort(s[1..], lt), lt);
    }
  }

  /** Drops repetitions of neighbours. */
  function Dedup<T(==)>(s: seq<T>): (r: seq<T>)
    ensures s != [] ==> r != [] && r[0] == s[0]
  {
    if |s| <= 1 then s
    else if s[0] == s[1] then Dedup(s[1..])
    else [s[0]] + Dedup(s[1..])
  }

  lemma ElementsCons<T>(x: T, s: seq<T>)
    ensures Elements([x] + s) == {x} + Elements(s)
  {
    forall y ensures y in Elements([x] + s) <==> y in {x} + Elements(s) {
      assert y in [x] + s <==> y == x || y in s;
    }
  }

  lemma WeakTail<T(!new)>(s: seq<T>, lt: (T, T) -> bool)
    requires |s| > 1 && WeaklyAscending(s, lt) && StrictOrderOn(lt, Elements(s))
    ensures WeaklyAscending(s[1..], lt) && StrictOrderOn(lt, Elements(s[1..]))
    ensures s[0] != s[1] ==> lt(s[0], s[1])
    ensures Elements(s) == {s[0]} + Elements(s[1..])
  {
    assert s == [s[0]] + s[1..];
    ElementsCons(s[0], s[1..]);
    assert s[0] in Elements(s) && s[1] in Elements(s);
    OrderOnSubset(lt, Elements(s), Elements(s[1..]));
  }

  /** Deduplicating a sorted sequence leaves each element once, still sorted. */
  lemma {:induction false} DedupSorted<T(!new)>(s: seq<T>, lt: (T, T) -> bool)
    requires WeaklyAscending(s, lt) && StrictOrderOn(lt, Elements(s))
    ensures Ascending(Dedup(s), lt) && Elements(Dedup(s)) == Elements(s)
  {
    hide StrictOrderOn, Elements, WeaklyAscending;
    if |s| > 1 {
      WeakTail(s, lt);
      DedupSorted(s[1..], lt);
      var r := Dedup(s[1..]);
      assert r[0] == s[1];
      if s[0] != s[1] {
        ElementsCons(s[0], r);
        assert Elements(r) + {s[0]} == Elements(s);
        BelowAll(s[0], r, lt);
        AscendingCons(s[0], r, lt);
      } else {
        SecondInTail(s);
      }
    }
  }

  lemma SecondInTail<T>(s: seq<T>)
    requires |s| > 1 && s[0] == s[1]
    ensures s[0] in Elements(s[1..])
  {
    assert s[1..][0] == s[0];
  }

  // ---- text order -----------------------------------------------------------------------

  /** Lexicographic order by code point, which is also the byte order of the UTF-8 text. */
  predicate TextLt(a: string, b: string) {
    if b == [] then false
    else if a == [] then true
    else if a[0] != b[0] then a[0] < b[0]
    else TextLt(a[1..], b[1..])
  }

  lemma {:induction false} TextLtIrreflexive(a: string)
    ensures !TextLt(a, a)
  {
    if a != [] { TextLtIrreflexive(a[1..]); }
  }

  lemma {:induction false} TextLtTransitive(a: string, b: string, c: string)
    requires TextLt(a, b) && TextLt(b, c)
    ensures TextLt(a, c)
  {
    if a != [] && a[0] == b[0] == c[0] { TextLtTransitive(a[1..], b[1..], c[1..]); }
  }

  lemma {:induction false} TextLtTotal(a: string, b: string)
    requires a != b
    ensures TextLt(a, b) || TextLt(b, a)
  {
    if a != [] && b != [] && a[0] == b[0] {
      assert a == [a[0]] + a[1..] && b == [b[0]] + b[1..];
      TextLtTotal(a[1..], b[1..]);
    }
  }

  lemma TextOrder(s: set<string>)
    ensures StrictOrderOn(TextLt, s)
  {
    forall x | x in s ensures !TextLt(x, x) { TextLtIrreflexive(x); }
    forall x, y, z | x in s && y in s && z in s && TextLt(x, y) && TextLt(y, z) ensures TextLt(x, z) {
      TextLtTransitive(x, y, z);
    }
    forall x, y | x in s && y in s && x != y ensures TextLt(x, y) || TextLt(y, x) { TextLtTotal(x, y); }
  }

  /** `a` comes before `b`: at the first place where they differ it has the smaller character, or it
      ends there. */
  ghost predicate Before(a: string, b: string) {
    exists k :: 0 <= k <= |a| && k < |b| && a[..k] == b[..k] && (k == |a| || a[k] < b[k])
  }

  /** The order that listings and placements use is that of the first difference. */
  lemma {:induction false} TextLtMeans(a: string, b: string)
    ensures TextLt(a, b) <==> Before(a, b)
  {
    if a == [] {
      assert b != [] ==> a[..0] == b[..0];
    } else if b != [] && a[0] == b[0] {
      TextLtMeans(a[1..], b[1..]);
      if Before(a[1..], b[1..]) {
        var k :| 0 <= k <= |a[1..]| && k < |b[1..]| && a[1..][..k] == b[1..][..k]
          && (k == |a[1..]| || a[1..][k] < b[1..][k]);
        assert a[..k + 1] == [a[0]] + a[1..][..k] && b[..k + 1] == [b[0]] + b[1..][..k];
        assert k + 1 == |a| || a[k + 1] < b[k + 1];
      }
      if Before(a, b) {
        var k :| 0 <= k <= |a| && k < |b| && a[..k] == b[..k] && (k == |a| || a[k] < b[k]);
        assert k > 0;
        assert a[1..][..k - 1] == a[..k][1..] && b[1..][..k - 1] == b[..k][1..];
        assert k - 1 == |a[1..]| || a[1..][k - 1] < b[1..][k - 1];
      }
    } else if b != [] {
      if a[0] < b[0] {
        assert a[..0] == b[..0] && a[0] < b[0];
      }
      forall k | 0 < k <= |a| && k < |b| ensures a[..k] != b[..k] {
        assert a[..k][0] == a[0] && b[..k][0] == b[0];
      }
    }
  }
}
