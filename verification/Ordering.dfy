/**
 Stable sorting by a total preorder: the meaning given to the library sort that the ranking and the
 history reader call.
 */
module Ordering {

  ghost predicate TotalPreorder<T(!new)>(le: (T, T) -> bool) {
    && (forall x, y :: le(x, y) || le(y, x))
    && (forall x, y, z :: le(x, y) && le(y, z) ==> le(x, z))
  }

  ghost predicate Ordered<T>(s: seq<T>, le: (T, T) -> bool) {
    forall i, j :: 0 <= i < j < |s| ==> le(s[i], s[j])
  }

  predicate Same<T>(x: T, y: T, le: (T, T) -> bool) { le(x, y) && le(y, x) }

  function HeadTie<T>(y: T, x: T, le: (T, T) -> bool): seq<T> { if Same(y, x, le) then [y] else [] }

  /** The elements that tie with x, in the order they have in s. */
  function Ties<T>(s: seq<T>, x: T, le: (T, T) -> bool): seq<T> {
    if s == [] then [] else HeadTie(s[0], x, le) + Ties(s[1..], x, le)
  }

  /** How many elements of s come strictly before x. */
  function Below<T>(s: seq<T>, x: T, le: (T, T) -> bool): nat {
    if s == [] then 0 else (if le(x, s[0]) then 0 else 1) + Below(s[1..], x, le)
  }

  function Insert<T>(x: T, s: seq<T>, le: (T, T) -> bool): (r: seq<T>)
    ensures multiset(r) == multiset([x]) + multiset(s)
  {
    if s == [] || le(x, s[0]) then [x] + s
    else
      assert s == [s[0]] + s[1..];
      [s[0]] + Insert(x, s[1..], le)
  }

  function StableSort<T>(s: seq<T>, le: (T, T) -> bool): (r: seq<T>)
    ensures multiset(r) == multiset(s)
    ensures |r| == |s|
  {
    if s == [] then []
    else
      assert s == [s[0]] + s[1..];
      var r := Insert(s[0], StableSort(s[1..], le), le);
      assert |multiset(r)| == |r| && |multiset(s)| == |s|;
      r
  }

  lemma {:induction false} InsertOrdered<T(!new)>(x: T, s: seq<T>, le: (T, T) -> bool)
    requires TotalPreorder(le) && Ordered(s, le)
    ensures Ordered(Insert(x, s, le), le)
  {
    if s != [] && !le(x, s[0]) {
      var rest := Insert(x, s[1..], le);
      InsertOrdered(x, s[1..], le);
      forall i | 0 <= i < |rest| ensures le(s[0], rest[i]) {
        assert rest[i] in multiset(rest);
        if rest[i] in s[1..] {
          var j :| 1 <= j < |s| && s[j] == rest[i];
        } else {
          assert rest[i] in multiset([x]);
        }
      }
    }
  }

  lemma {:induction false} InsertTies<T(!new)>(x: T, s: seq<T>, e: T, le: (T, T) -> bool)
    requires TotalPreorder(le)
    ensures Ties(Insert(x, s, le), e, le) == HeadTie(x, e, le) + Ties(s, e, le)
  {
    if s == [] || le(x, s[0]) {
      assert ([x] + s)[1..] == s;
    } else {
      InsertTies(x, s[1..], e, le);
      assert ([s[0]] + Insert(x, s[1..], le))[1..] == Insert(x, s[1..], le);
    }
  }

  /** The result is in order and keeps tied elements in the order they came in. */
  lemma {:induction false} SortIsStable<T(!new)>(s: seq<T>, le: (T, T) -> bool)
    requires TotalPreorder(le)
    ensures Ordered(StableSort(s, le), le)
    ensures forall e :: Ties(StableSort(s, le), e, le) == Ties(s, e, le)
  {
    if s != [] {
      var rest := StableSort(s[1..], le);
      SortIsStable(s[1..], le);
      InsertOrdered(s[0], rest, le);
      forall e ensures Ties(StableSort(s, le), e, le) == Ties(s, e, le) {
        InsertTies(s[0], rest, e, le);
      }
    }
  }

  lemma TiesCons<T>(y: T, s: seq<T>, x: T, le: (T, T) -> bool)
    ensures Ties([y] + s, x, le) == HeadTie(y, x, le) + Ties(s, x, le)
  {
    assert ([y] + s)[1..] == s;
  }

  lemma {:induction false} TiesConcat<T>(a: seq<T>, b: seq<T>, x: T, le: (T, T) -> bool)
    ensures Ties(a + b, x, le) == Ties(a, x, le) + Ties(b, x, le)
  {
    if a == [] {
      assert a + b == b;
    } else {
      hide HeadTie;
      TiesConcat(a[1..], b, x, le);
      TiesCons(a[0], a[1..], x, le);
      TiesCons(a[0], a[1..] + b, x, le);
      assert a == [a[0]] + a[1..] && a + b == [a[0]] + (a[1..] + b);
    }
  }

  lemma {:induction false} TiesMember<T>(s: seq<T>, e: T, le: (T, T) -> bool)
    ensures Ties(s, e, le) != [] ==> exists i :: 0 <= i < |s| && Same(s[i], e, le)
  {
    if s != [] {
      TiesMember(s[1..], e, le);
      if Ties(s[1..], e, le) != [] {
        var i :| 0 <= i < |s[1..]| && Same(s[1..][i], e, le);
        assert Same(s[i + 1], e, le);
      }
    }
  }

  lemma OwnTie<T(!new)>(s: seq<T>, le: (T, T) -> bool)
    requires TotalPreorder(le) && s != []
    ensures Ties(s, s[0], le) != []
  {}

  lemma HeadBelow<T(!new)>(a: seq<T>, b: seq<T>, le: (T, T) -> bool)
    requires TotalPreorder(le) && Ordered(b, le) && a != [] && b != []
    requires Ties(a, a[0], le) == Ties(b, a[0], le)
    ensures le(b[0], a[0])
  {
    TiesMember(b, a[0], le);
    var i :| 0 <= i < |b| && Same(b[i], a[0], le);
    assert i == 0 || le(b[0], b[i]);
  }

  /** Order and the order among ties leave no freedom: there is one stable arrangement. */
  lemma {:induction false} ArrangementUnique<T(!new)>(a: seq<T>, b: seq<T>, le: (T, T) -> bool)
    requires TotalPreorder(le) && Ordered(a, le) && Ordered(b, le)
    requires forall e :: Ties(a, e, le) == Ties(b, e, le)
    ensures a == b
  {
    if a == [] {
      if b != [] { OwnTie(b, le); }
    } else {
      assert Ties(a, a[0], le) == Ties(b, a[0], le);
      assert b != [];
      assert Ties(a, b[0], le) == Ties(b, b[0], le);
      HeadBelow(a, b, le);
      HeadBelow(b, a, le);
      assert Ties(a, a[0], le)[0] == a[0] && Ties(b, a[0], le)[0] == b[0];
      forall e ensures Ties(a[1..], e, le) == Ties(b[1..], e, le) {
        TiesTail(a, b, e, le);
      }
      ArrangementUnique(a[1..], b[1..], le);
      assert a == [a[0]] + a[1..] && b == [b[0]] + b[1..];
    }
  }

  lemma TiesTail<T>(a: seq<T>, b: seq<T>, e: T, le: (T, T) -> bool)
    requires a != [] && b != [] && a[0] == b[0] && Ties(a, e, le) == Ties(b, e, le)
    ensures Ties(a[1..], e, le) == Ties(b[1..], e, le)
  {
    if Same(a[0], e, le) {
      assert Ties(a[1..], e, le) == Ties(a, e, le)[1..];
      assert Ties(b[1..], e, le) == Ties(b, e, le)[1..];
    } else {
      assert Ties(a[1..], e, le) == Ties(a, e, le);
      assert Ties(b[1..], e, le) == Ties(b, e, le);
    }
  }

  lemma {:induction false} InsertBelow<T>(x: T, s: seq<T>, e: T, le: (T, T) -> bool)
    ensures Below(Insert(x, s, le), e, le) == (if le(e, x) then 0 else 1) + Below(s, e, le)
  {
    if s == [] || le(x, s[0]) {
      assert ([x] + s)[1..] == s;
    } else {
      InsertBelow(x, s[1..], e, le);
      assert ([s[0]] + Insert(x, s[1..], le))[1..] == Insert(x, s[1..], le);
    }
  }

  lemma {:induction false} SortBelow<T>(s: seq<T>, e: T, le: (T, T) -> bool)
    ensures Below(StableSort(s, le), e, le) == Below(s, e, le)
  {
    if s != [] {
      SortBelow(s[1..], e, le);
      InsertBelow(s[0], StableSort(s[1..], le), e, le);
    }
  }

  lemma {:induction false} NoneBelow<T>(s: seq<T>, e: T, le: (T, T) -> bool)
    requires forall i :: 0 <= i < |s| ==> le(e, s[i])
    ensures Below(s, e, le) == 0
  {
    if s != [] { NoneBelow(s[1..], e, le); }
  }

  /** In an ordered list the elements before x come first, and x stands among its ties. */
  lemma {:induction false} PlaceOf<T(!new)>(s: seq<T>, p: nat, le: (T, T) -> bool)
    requires TotalPreorder(le) && Ordered(s, le) && p < |s|
    ensures Below(s, s[p], le) <= p < Below(s, s[p], le) + |Ties(s, s[p], le)|
  {
    var x, rest := s[p], s[1..];
    if p > 0 {
      PlaceOf(rest, p - 1, le);
      assert le(s[0], x);
    } else {
      NoneBelow(s, x, le);
    }
  }

  // ----- strings, by character code

  predicate LexLe(a: string, b: string) {
    a == [] || (b != [] && (a[0] < b[0] || (a[0] == b[0] && LexLe(a[1..], b[1..]))))
  }

  lemma {:induction false} LexTotal(a: string, b: string)
    ensures LexLe(a, b) || LexLe(b, a)
    ensures LexLe(a, b) && LexLe(b, a) ==> a == b
  {
    if a != [] && b != [] {
      LexTotal(a[1..], b[1..]);
      assert a == [a[0]] + a[1..] && b == [b[0]] + b[1..];
    }
  }

  lemma {:induction false} LexTransitive(a: string, b: string, c: string)
    requires LexLe(a, b) && LexLe(b, c)
    ensures LexLe(a, c)
  {
    if a != [] && a[0] == b[0] == c[0] { LexTransitive(a[1..], b[1..], c[1..]); }
  }

  /** Up to position k the strings agree, and there the first is smaller. */
  ghost predicate SmallerAt(a: string, b: string, k: int) {
    0 <= k < |a| && k < |b| && a[..k] == b[..k] && a[k] < b[k]
  }

  /** The order of names: a prefix comes first, and otherwise the first difference decides. */
  lemma {:induction false} LexOrderIs(a: string, b: string)
    ensures LexLe(a, b) <==> a <= b || exists k :: SmallerAt(a, b, k)
  {
    if a != [] && b != [] {
      LexOrderIs(a[1..], b[1..]);
      LexTails(a, b);
    }
  }

  lemma LexTails(a: string, b: string)
    requires a != [] && b != []
    ensures a <= b <==> a[0] == b[0] && a[1..] <= b[1..]
    ensures (exists k :: SmallerAt(a, b, k)) <==>
      a[0] < b[0] || (a[0] == b[0] && exists k :: SmallerAt(a[1..], b[1..], k))
  {
    assert a == [a[0]] + a[1..] && b == [b[0]] + b[1..];
    if k :| SmallerAt(a, b, k) {
      if k > 0 {
        assert a[0] == a[..k][0] == b[..k][0] == b[0];
        assert a[1..][..k - 1] == a[..k][1..] == b[..k][1..] == b[1..][..k - 1];
        assert SmallerAt(a[1..], b[1..], k - 1);
      }
    }
    if a[0] < b[0] { assert SmallerAt(a, b, 0); }
    if a[0] == b[0] {
      if k :| SmallerAt(a[1..], b[1..], k) {
        assert a[..k + 1] == [a[0]] + a[1..][..k] == [b[0]] + b[1..][..k] == b[..k + 1];
        assert SmallerAt(a, b, k + 1);
      }
    }
  }
}
