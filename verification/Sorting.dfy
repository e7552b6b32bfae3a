/** Ordered results: what an ORDER BY clause or a sort promises, ties in any order. */
module Sorting {
  ghost predicate TotalPreorder<T(!new)>(le: (T, T) -> bool) {
    && (forall a, b :: le(a, b) || le(b, a))
    && (forall a, b, c :: le(a, b) && le(b, c) ==> le(a, c))
  }

  ghost predicate Sorted<T>(s: seq<T>, le: (T, T) -> bool) {
    forall i, j :: 0 <= i < j < |s| ==> le(s[i], s[j])
  }

  ghost predicate Distinct<T>(s: seq<T>) {
    forall i, j :: 0 <= i < j < |s| ==> s[i] != s[j]
  }

  /** Inserts x where the order wants it. */
  method Insert<T(!new)>(s: seq<T>, x: T, le: (T, T) -> bool) returns (out: seq<T>)
    requires TotalPreorder(le) && Sorted(s, le)
    ensures Sorted(out, le)
    ensures multiset(out) == multiset(s) + multiset{x}
    ensures forall y :: y in out <==> y == x || y in s
    ensures Distinct(s) && x !in s ==> Distinct(out)
  {
    var i := 0;
    while i < |s| && le(s[i], x)
      invariant 0 <= i <= |s|
      invariant forall j :: 0 <= j < i ==> le(s[j], x)
    {
      i := i + 1;
    }
    out := s[..i] + [x] + s[i..];
    assert forall j :: i <= j < |s| ==> le(x, s[j]) by {
      assert i < |s| ==> le(x, s[i]);
    }
    InsertedSorted(s, x, i, le);
    InsertedElements(s, x, i);
  }

  lemma InsertedSorted<T(!new)>(s: seq<T>, x: T, i: nat, le: (T, T) -> bool)
    requires i <= |s| && Sorted(s, le)
    requires forall j :: 0 <= j < i ==> le(s[j], x)
    requires forall j :: i <= j < |s| ==> le(x, s[j])
    ensures Sorted(s[..i] + [x] + s[i..], le)
  {
    var out := s[..i] + [x] + s[i..];
    forall a, b | 0 <= a < b < |out| ensures le(out[a], out[b]) {
      assert out[a] == if a < i then s[a] else if a == i then x else s[a - 1];
      assert out[b] == if b < i then s[b] else if b == i then x else s[b - 1];
    }
  }

  lemma InsertedElements<T>(s: seq<T>, x: T, i: nat)
    requires i <= |s|
    ensures var out := s[..i] + [x] + s[i..];
            && multiset(out) == multiset(s) + multiset{x}
            && (forall y :: y in out <==> y == x || y in s)
            && (Distinct(s) && x !in s ==> Distinct(out))
  {
    var out := s[..i] + [x] + s[i..];
    assert s == s[..i] + s[i..];
    forall y ensures y in out <==> y == x || y in s {
      assert y in s <==> y in s[..i] || y in s[i..];
    }
    if Distinct(s) && x !in s {
      forall a, b | 0 <= a < b < |out| ensures out[a] != out[b] {
        assert out[a] == if a < i then s[a] else if a == i then x else s[a - 1];
        assert out[b] == if b < i then s[b] else if b == i then x else s[b - 1];
      }
    }
  }

  lemma EmptyOrFirst<T>(s: seq<T>)
    ensures s == [] || s[0] in s
  {
  }
}
