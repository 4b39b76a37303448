/** The id lists `likedIds` and `followingIds` and the two edits the
    handlers make to them: `push` (append, no de-duplication) and
    `filter(x => x !== id)` (drop every occurrence). They are sequences,
    not sets: an id may occur more than once. */
module IdLists {
  import opened Common

  /** `list.includes(x)`: a left-to-right scan. */
  function Includes(list: seq<Id>, x: Id): (r: bool)
    ensures r <==> x in list
  {
    if |list| == 0 then false
    else list[0] == x || Includes(list[1..], x)
  }

  /** `list.filter((y) => y !== x)`. */
  function Without(list: seq<Id>, x: Id): (r: seq<Id>)
    ensures x !in r
    ensures forall y :: y != x ==> multiset(r)[y] == multiset(list)[y]
    ensures |r| <= |list|
  {
    if |list| == 0 then []
    else
      assert list == [list[0]] + list[1..];
      if list[0] == x then Without(list[1..], x)
      else [list[0]] + Without(list[1..], x)
  }

  /** The list a like or follow handler writes back: a copy of the stored
      list, with `x` pushed on POST and filtered out on DELETE. Afterwards
      `x` is present after POST and absent after DELETE, and whether any
      other id is present does not change. */
  function UpdatedIds(verb: string, list: seq<Id>, x: Id): (r: seq<Id>)
    ensures verb == POST ==> x in r
    ensures verb == DELETE ==> x !in r
    ensures verb != POST && verb != DELETE ==> r == list
    ensures forall y :: y != x ==> (y in r <==> y in list)
  {
    if verb == POST then list + [x]
    else if verb == DELETE then
      var r := Without(list, x);
      assert forall y :: y != x ==> (y in r <==> y in list) by {
        forall y | y != x
          ensures y in r <==> y in list
        {
          assert y in r <==> y in multiset(r);
          assert y in list <==> y in multiset(list);
        }
      }
      r
    else list
  }

  /** Filtering an absent id leaves the list as it was. */
  lemma {:induction false} WithoutAbsent(list: seq<Id>, x: Id)
    requires x !in list
    ensures Without(list, x) == list
  {
    if |list| > 0 {
      WithoutAbsent(list[1..], x);
    }
  }

  /** Filtering works element by element, so the survivors keep their order. */
  lemma {:induction false} WithoutConcat(a: seq<Id>, b: seq<Id>, x: Id)
    ensures Without(a + b, x) == Without(a, x) + Without(b, x)
  {
    if |a| == 0 {
      assert a + b == b;
    } else {
      assert (a + b)[1..] == a[1..] + b;
      WithoutConcat(a[1..], b, x);
    }
  }

  /** A push followed by a filter of the same absent id restores the list. */
  lemma PushThenFilter(list: seq<Id>, x: Id)
    requires x !in list
    ensures Without(list + [x], x) == list
  {
    WithoutConcat(list, [x], x);
    WithoutAbsent(list, x);
    assert Without([x], x) == [];
  }

  /** POST appends exactly one copy of `x` at the end, whether or not it
      was already there. */
  lemma PushAppendsOne(list: seq<Id>, x: Id)
    ensures |UpdatedIds(POST, list, x)| == |list| + 1
    ensures UpdatedIds(POST, list, x)[..|list|] == list
    ensures UpdatedIds(POST, list, x)[|list|] == x
    ensures multiset(UpdatedIds(POST, list, x))[x] == multiset(list)[x] + 1
  {
  }

  /** DELETE drops every copy of `x` and keeps every other id with its
      multiplicity; dropping an absent id changes nothing. */
  lemma FilterDropsAll(list: seq<Id>, x: Id, y: Id)
    requires y != x
    ensures x !in UpdatedIds(DELETE, list, x)
    ensures multiset(UpdatedIds(DELETE, list, x))[y] == multiset(list)[y]
    ensures x !in list ==> UpdatedIds(DELETE, list, x) == list
  {
    if x !in list {
      WithoutAbsent(list, x);
    }
  }

  /** Two pushes leave two copies: nothing prevents duplicates. */
  lemma PushTwiceDuplicates(list: seq<Id>, x: Id)
    ensures multiset(UpdatedIds(POST, UpdatedIds(POST, list, x), x))[x] == multiset(list)[x] + 2
  {
  }
}
