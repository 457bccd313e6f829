/**
 * The copy-then-update idiom every save and delete handler of the ledger
 * uses, over any record type with an id: find the position of an id
 * (`findIndex`), overwrite that position, append, or filter the id out.
 */
module Collections {

  /** The ids of a collection, in order. */
  function Keys<T>(s: seq<T>, key: T -> string): (ks: seq<string>)
    ensures |ks| == |s|
    ensures forall i :: 0 <= i < |s| ==> ks[i] == key(s[i])
  {
    seq(|s|, i requires 0 <= i < |s| => key(s[i]))
  }

  /** No two records of the collection share an id. */
  predicate UniqueKeys<T>(s: seq<T>, key: T -> string) {
    forall i, j :: 0 <= i < j < |s| ==> key(s[i]) != key(s[j])
  }

  /**
   * `findIndex(x => x.id === id)`: the first position holding `id`, or -1
   * exactly when no record has it.
   */
  function IndexOf<T>(s: seq<T>, key: T -> string, id: string): (i: int)
    ensures -1 <= i < |s|
    ensures i == -1 <==> forall j :: 0 <= j < |s| ==> key(s[j]) != id
    ensures 0 <= i ==> key(s[i]) == id && forall j :: 0 <= j < i ==> key(s[j]) != id
    decreases |s|
  {
    if s == [] then -1
    else if key(s[0]) == id then 0
    else
      var r := IndexOf(s[1..], key, id);
      if r == -1 then -1 else r + 1
  }

  /**
   * The edit path of a save handler: the record holding `x`'s id is
   * overwritten by `x`; when no record holds it, nothing changes.
   */
  function Replace<T>(s: seq<T>, key: T -> string, x: T): (r: seq<T>)
    ensures |r| == |s|
    ensures Keys(r, key) == Keys(s, key)
    ensures IndexOf(s, key, key(x)) == -1 ==> r == s
    ensures IndexOf(s, key, key(x)) >= 0 ==>
      r[IndexOf(s, key, key(x))] == x &&
      forall j :: 0 <= j < |s| && j != IndexOf(s, key, key(x)) ==> r[j] == s[j]
  {
    var i := IndexOf(s, key, key(x));
    if i == -1 then s else s[i := x]
  }

  /** `filter(x => x.id !== id)`: every record without that id, in order. */
  function RemoveById<T>(s: seq<T>, key: T -> string, id: string): (r: seq<T>)
    ensures |r| <= |s|
    ensures forall j :: 0 <= j < |r| ==> key(r[j]) != id
    ensures forall j :: 0 <= j < |r| ==> r[j] in s
    ensures forall j :: 0 <= j < |s| && key(s[j]) != id ==> s[j] in r
    decreases |s|
  {
    if s == [] then []
    else
      var rest := RemoveById(s[..|s| - 1], key, id);
      var last := s[|s| - 1];
      assert s == s[..|s| - 1] + [last];
      if key(last) != id then rest + [last] else rest
  }

  /** A single record survives the filter exactly when it has another id. */
  lemma RemoveByIdSingle<T>(x: T, key: T -> string, id: string)
    ensures RemoveById([x], key, id) == if key(x) != id then [x] else []
  {
    assert [x][..0] == [];
  }

  /**
   * Filtering a concatenation filters each part and keeps them in order; with
   * `RemoveByIdSingle` this pins the result down to the survivors in their
   * original order, each as often as it occurred.
   */
  lemma {:induction false} RemoveByIdAppend<T>(a: seq<T>, b: seq<T>, key: T -> string, id: string)
    ensures RemoveById(a + b, key, id) == RemoveById(a, key, id) + RemoveById(b, key, id)
    decreases |b|
  {
    if b == [] {
      assert a + b == a;
    } else {
      var init, last := b[..|b| - 1], b[|b| - 1];
      RemoveByIdAppend(a, init, key, id);
      assert (a + b)[..|a + b| - 1] == a + init;
      assert (a + b)[|a + b| - 1] == last;
    }
  }

  /** Filtering out an id that no record has leaves the collection as it was. */
  lemma {:induction false} RemoveAbsent<T>(s: seq<T>, key: T -> string, id: string)
    requires IndexOf(s, key, id) == -1
    ensures RemoveById(s, key, id) == s
    decreases |s|
  {
    if s != [] {
      var init := s[..|s| - 1];
      var last := s[|s| - 1];
      assert key(last) != id;
      assert IndexOf(init, key, id) == -1 by {
        forall j | 0 <= j < |init| ensures key(init[j]) != id {
          assert init[j] == s[j];
        }
      }
      RemoveAbsent(init, key, id);
      assert RemoveById(s, key, id) == init + [last];
      assert init + [last] == s;
    }
  }

  /** Removing a record keeps the survivors' ids distinct. */
  lemma {:induction false} RemoveKeepsUnique<T>(s: seq<T>, key: T -> string, id: string)
    requires UniqueKeys(s, key)
    ensures UniqueKeys(RemoveById(s, key, id), key)
    decreases |s|
  {
    if s != [] {
      var init := s[..|s| - 1];
      var last := s[|s| - 1];
      RemoveKeepsUnique(init, key, id);
      var rest := RemoveById(init, key, id);
      if key(last) != id {
        forall j | 0 <= j < |rest|
          ensures key(rest[j]) != key(last)
        {
          assert rest[j] in init;
          var k :| 0 <= k < |init| && init[k] == rest[j];
          assert init[k] == s[k];
        }
      }
    }
  }

  /** Appending a record with an unused id keeps the ids distinct. */
  lemma AppendFreshKeepsUnique<T>(s: seq<T>, key: T -> string, x: T)
    requires UniqueKeys(s, key)
    requires key(x) !in Keys(s, key)
    ensures UniqueKeys(s + [x], key)
  {
    forall i | 0 <= i < |s|
      ensures key(s[i]) != key(x)
    {
      assert Keys(s, key)[i] == key(s[i]);
    }
  }

  /** After an edit the edited record is found under its id. */
  lemma ReplaceThenFind<T>(s: seq<T>, key: T -> string, x: T)
    requires IndexOf(s, key, key(x)) >= 0
    ensures IndexOf(Replace(s, key, x), key, key(x)) == IndexOf(s, key, key(x))
    ensures Replace(s, key, x)[IndexOf(s, key, key(x))] == x
  {
    var r := Replace(s, key, x);
    var i := IndexOf(s, key, key(x));
    forall j | 0 <= j < |s|
      ensures key(r[j]) == key(s[j])
    {
      assert Keys(r, key)[j] == Keys(s, key)[j];
    }
  }

  /** Overwriting a record by one with the same id keeps the ids distinct. */
  lemma OverwriteKeepsUnique<T>(s: seq<T>, key: T -> string, i: int, x: T)
    requires UniqueKeys(s, key)
    requires 0 <= i < |s| && key(x) == key(s[i])
    ensures UniqueKeys(s[i := x], key)
  {
  }

  /** Appending a record under an unused id and filtering that id out gives the collection back. */
  lemma RemoveFreshAppended<T>(s: seq<T>, key: T -> string, x: T)
    requires key(x) !in Keys(s, key)
    ensures RemoveById(s + [x], key, key(x)) == s
  {
    forall j | 0 <= j < |s| ensures key(s[j]) != key(x) {
      assert Keys(s, key)[j] == key(s[j]);
    }
    assert (s + [x])[..|s|] == s;
    RemoveAbsent(s, key, key(x));
  }
}
