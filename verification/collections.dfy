/**
 A JavaScript `Set` as a sequence without duplicates. A `Set` remembers insertion
 order, and `Array.from` hands that order on, so a sequence is the faithful view.
 */
module Collections {

  predicate NoDuplicates<T(==)>(s: seq<T>)
  {
    forall i, j :: 0 <= i < j < |s| ==> s[i] != s[j]
  }

  /** `Set.prototype.delete`: every occurrence of `x` goes; `RemoveConcat` and
      `RemoveAt` show that the rest keeps its order. */
  function Remove<T(==,!new)>(s: seq<T>, x: T): (r: seq<T>)
    ensures forall y :: y in r <==> y in s && y != x
    ensures multiset(r) == multiset(s)[x := 0]
    ensures NoDuplicates(s) ==> NoDuplicates(r)
    ensures x !in s ==> r == s
  {
    if |s| == 0 then []
    else
      var rest := Remove(s[1..], x);
      assert s == [s[0]] + s[1..];
      assert multiset(s) == multiset{s[0]} + multiset(s[1..]);
      if s[0] == x then rest
      else
        assert NoDuplicates(s) ==> s[0] !in s[1..];
        var r := [s[0]] + rest;
        assert multiset(r) == multiset{s[0]} + multiset(rest);
        r
  }

  /** Removal distributes over concatenation: it keeps the order of what remains. */
  lemma {:induction false} RemoveConcat<T(!new)>(a: seq<T>, b: seq<T>, x: T)
    ensures Remove(a + b, x) == Remove(a, x) + Remove(b, x)
  {
    if |a| > 0 {
      assert (a + b)[1..] == a[1..] + b;
      RemoveConcat(a[1..], b, x);
    } else {
      assert a + b == b;
    }
  }

  /** In a sequence without duplicates, removing `x` cuts out just its one position. */
  lemma {:induction false} RemoveAt<T(!new)>(s: seq<T>, i: nat)
    requires NoDuplicates(s) && i < |s|
    ensures Remove(s, s[i]) == s[..i] + s[i + 1..]
  {
    var x, a, b := s[i], s[..i], s[i + 1..];
    assert s == a + ([x] + b);
    assert x !in a by {
      forall k | 0 <= k < |a| ensures a[k] != x {
        assert a[k] == s[k];
      }
    }
    assert x !in b by {
      forall k | 0 <= k < |b| ensures b[k] != x {
        assert b[k] == s[i + 1 + k];
      }
    }
    RemoveConcat(a, [x] + b, x);
    RemoveConcat([x], b, x);
    assert Remove([x], x) == [] by {
      assert [x][1..] == [];
    }
  }

  /** Removing an element just appended gives what removing it before would have. */
  lemma {:induction false} RemoveAppended<T(!new)>(s: seq<T>, x: T)
    ensures Remove(s + [x], x) == Remove(s, x)
  {
    if |s| > 0 {
      assert (s + [x])[1..] == s[1..] + [x];
      RemoveAppended(s[1..], x);
    }
  }

  /** In a sequence without duplicates each member occurs once. */
  lemma {:induction false} OccursOnce<T>(s: seq<T>, x: T)
    requires NoDuplicates(s) && x in s
    ensures multiset(s)[x] == 1
  {
    assert s == [s[0]] + s[1..];
    if s[0] == x {
      assert x !in s[1..];
    } else {
      OccursOnce(s[1..], x);
    }
  }

  /** `Set.prototype.add`: appends `x` unless it is already there. */
  function Add<T(==,!new)>(s: seq<T>, x: T): (r: seq<T>)
    ensures forall y :: y in r <==> y in s || y == x
    ensures NoDuplicates(s) ==> NoDuplicates(r)
    ensures x !in s ==> multiset(r) == multiset(s) + multiset{x}
    // a new element goes last; a present one keeps its place
    ensures x !in s ==> r == s + [x]
    ensures x in s ==> r == s
  {
    if x in s then s else s + [x]
  }
}
