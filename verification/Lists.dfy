// Python lists and the key order of dictionaries.

module Lists {

  /** `list.remove`: the first equal element goes. */
  function Remove<T(==)>(xs: seq<T>, x: T): (r: seq<T>)
    requires x in xs
    ensures |r| == |xs| - 1
  {
    if xs[0] == x then xs[1..] else [xs[0]] + Remove(xs[1..], x)
  }

  lemma {:induction false} RemoveTakesOne<T>(xs: seq<T>, x: T)
    requires x in xs
    ensures multiset(Remove(xs, x)) == multiset(xs) - multiset{x}
  {
    assert xs == [xs[0]] + xs[1..];
    if xs[0] != x {
      RemoveTakesOne(xs[1..], x);
      var rest := Remove(xs[1..], x);
      assert multiset([xs[0]] + rest) == multiset{xs[0]} + multiset(rest);
      assert multiset(xs) == multiset{xs[0]} + multiset(xs[1..]);
    }
  }

  lemma Associates<T>(x: seq<T>, y: seq<T>, z: seq<T>)
    ensures (x + y) + z == x + (y + z)
  {
  }

  lemma InitAndLast<T>(xs: seq<T>)
    requires xs != []
    ensures xs == xs[..|xs| - 1] + [xs[|xs| - 1]]
  {
  }

  /** The insertion order of a dictionary after deleting a key. */
  function Without(order: seq<string>, key: string): seq<string>
  {
    if order == [] then []
    else Without(order[..|order| - 1], key) + (if order[|order| - 1] == key then [] else [order[|order| - 1]])
  }

  lemma {:induction false} WithoutKeeps(order: seq<string>, key: string)
    requires forall i, j :: 0 <= i < j < |order| ==> order[i] != order[j]
    ensures var w := Without(order, key);
            && (forall k :: k in w <==> k in order && k != key)
            && (forall i, j :: 0 <= i < j < |w| ==> w[i] != w[j])
  {
    if order != [] {
      var init, last := order[..|order| - 1], order[|order| - 1];
      WithoutKeeps(init, key);
      assert order == init + [last];
      assert last !in init;
    }
  }

  ghost predicate NoDuplicates<T>(xs: seq<T>)
  {
    forall i, j :: 0 <= i < j < |xs| ==> xs[i] != xs[j]
  }

  function Elements<T>(xs: seq<T>): set<T> { set x | x in xs }

  function Reverse<T>(xs: seq<T>): (r: seq<T>)
    ensures |r| == |xs| && forall i :: 0 <= i < |r| ==> r[i] == xs[|xs| - 1 - i]
  {
    if xs == [] then [] else [xs[|xs| - 1]] + Reverse(xs[..|xs| - 1])
  }

  lemma {:induction false} ReverseJoin<T>(xs: seq<T>, ys: seq<T>)
    ensures Reverse(xs + ys) == Reverse(ys) + Reverse(xs)
  {
    if ys == [] {
      assert xs + ys == xs;
    } else {
      ReverseJoin(xs, ys[..|ys| - 1]);
      assert (xs + ys)[..|xs + ys| - 1] == xs + ys[..|ys| - 1];
    }
  }

  /** Nothing but a list of one element at most reads the same both ways without repeating itself. */
  lemma SameBothWays<T>(xs: seq<T>)
    requires xs == Reverse(xs) && NoDuplicates(xs)
    ensures |xs| <= 1
  {
    assert |xs| > 0 ==> xs[0] == xs[|xs| - 1];
  }

  /** The elements of a list that are in a set, in their order. */
  function Keep<T(==)>(xs: seq<T>, kept: set<T>): seq<T>
  {
    if xs == [] then []
    else Keep(xs[..|xs| - 1], kept) + (if xs[|xs| - 1] in kept then [xs[|xs| - 1]] else [])
  }

  lemma {:induction false} KeepHas<T>(xs: seq<T>, kept: set<T>)
    ensures forall x :: x in Keep(xs, kept) <==> x in xs && x in kept
    ensures NoDuplicates(xs) ==> NoDuplicates(Keep(xs, kept))
  {
    if xs != [] {
      var init, last := xs[..|xs| - 1], xs[|xs| - 1];
      KeepHas(init, kept);
      assert xs == init + [last];
      if NoDuplicates(xs) {
        assert NoDuplicates(init) && last !in init;
      }
    }
  }

  lemma KeepElements<T>(xs: seq<T>, kept: set<T>)
    requires kept <= Elements(xs)
    ensures Elements(Keep(xs, kept)) == kept
  {
    KeepHas(xs, kept);
    var r := Keep(xs, kept);
    forall x ensures x in Elements(r) <==> x in kept {
      assert x in kept ==> x in Elements(xs);
      assert x in r <==> x in xs && x in kept;
    }
    assert Elements(r) == kept;
  }
}
