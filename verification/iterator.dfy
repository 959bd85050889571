/** Iterator (Swift and Ruby demos): collections that hand out their items
    one at a time, front to back or back to front, without exposing how
    they store them. */
module Iterator {
  import opened Wrappers
  import opened Seqs

  /** Swift `WordsCollection` / `NumbersCollection`, Ruby
      `WordsCollection`: the items in insertion order. */
  datatype Collection<T> = Collection(items: seq<T>)

  /** `append` / `add_item`: the item goes at the end. */
  function Append<T>(c: Collection<T>, item: T): (r: Collection<T>)
    ensures |r.items| == |c.items| + 1
    ensures r.items[..|c.items|] == c.items && r.items[|c.items|] == item
  {
    Collection(c.items + [item])
  }

  /** Swift `WordsIterator`: a collection and the index of the next item. */
  datatype Forward<T> = Forward(items: seq<T>, index: nat)

  function MakeIterator<T>(c: Collection<T>): (it: Forward<T>)
    ensures it.items == c.items && it.index == 0
  {
    Forward(c.items, 0)
  }

  /** `next()`: the item at the index, or nil past the end; the index moves
      on in both cases (the `defer`). */
  function Next<T>(it: Forward<T>): (r: (Option<T>, Forward<T>))
    ensures r.0.Some? <==> it.index < |it.items|
    ensures r.0.Some? ==> r.0.value == it.items[it.index]
    ensures r.1.items == it.items && r.1.index == it.index + 1
  {
    (if it.index < |it.items| then Some(it.items[it.index]) else None, it.(index := it.index + 1))
  }

  /** Once past the end, an iterator keeps answering nil. */
  lemma ExhaustedStaysExhausted<T>(it: Forward<T>)
    requires it.index >= |it.items|
    ensures Next(it).0 == None && Next(Next(it).1).0 == None
  {
  }

  /** Swift's `for item in sequence`: calls `next()` until nil. A front to
      back traversal yields every item once, in insertion order. */
  method Traverse<T>(c: Collection<T>) returns (out: seq<T>)
    ensures out == c.items
  {
    out := [];
    var x, it := Next(MakeIterator(c)).0, Next(MakeIterator(c)).1;
    while x.Some?
      invariant it.items == c.items && it.index == |out| + 1
      invariant x.Some? ==> |out| < |c.items| && x.value == c.items[|out|]
      invariant x.None? ==> |out| >= |c.items|
      invariant |out| <= |c.items| && out == c.items[..|out|]
      decreases |c.items| - |out|
    {
      out := out + [x.value];
      var step := Next(it);
      x, it := step.0, step.1;
    }
  }

  /** The iterator `NumbersCollection.makeIterator()` builds: an index
      starting at the last item and counting down. */
  datatype Backward<T> = Backward(items: seq<T>, index: int)

  function MakeReverseIterator<T>(c: Collection<T>): (it: Backward<T>)
    ensures it.items == c.items && it.index == |c.items| - 1
  {
    Backward(c.items, |c.items| - 1)
  }

  /** The closure: the item at the index while it is not negative, or nil;
      the index moves down in both cases. */
  function NextBack<T>(it: Backward<T>): (r: (Option<T>, Backward<T>))
    requires it.index < |it.items|
    ensures r.0.Some? <==> it.index >= 0
    ensures r.0.Some? ==> r.0.value == it.items[it.index]
    ensures r.1.items == it.items && r.1.index == it.index - 1
  {
    (if it.index >= 0 then Some(it.items[it.index]) else None, it.(index := it.index - 1))
  }

  /** A traversal of a `NumbersCollection` yields every item once, last
      appended first. */
  method TraverseBackward<T>(c: Collection<T>) returns (out: seq<T>)
    ensures out == Reverse(c.items)
  {
    out := [];
    var n := |c.items|;
    var first := NextBack(MakeReverseIterator(c));
    var x, it := first.0, first.1;
    while x.Some?
      invariant it.items == c.items && it.index == n - 2 - |out|
      invariant x.Some? ==> |out| < n && x.value == c.items[n - 1 - |out|]
      invariant x.None? ==> |out| >= n
      invariant |out| <= n
      invariant forall k :: 0 <= k < |out| ==> out[k] == c.items[n - 1 - k]
      decreases n - |out|
    {
      out := out + [x.value];
      var step := NextBack(it);
      x, it := step.0, step.1;
    }
  }

  /** Ruby `AlphabeticalOrderIterator#each`: the items in order, or the
      collection's reversal when built with `reverse = true`. */
  function Each<T>(c: Collection<T>, reverse: bool): (r: seq<T>)
    ensures |r| == |c.items|
    ensures forall i :: 0 <= i < |r| ==> r[i] == c.items[if reverse then |r| - 1 - i else i]
  {
    if reverse then Reverse(c.items) else c.items
  }

  /** Ruby's two iterators visit the same items in opposite orders, and the
      Ruby traversals agree with the Swift ones. */
  method RubyMatchesSwift<T>(c: Collection<T>) returns (straight: seq<T>, backward: seq<T>)
    ensures straight == Each(c, false) && backward == Each(c, true)
    ensures backward == Reverse(straight)
  {
    straight := Traverse(c);
    backward := TraverseBackward(c);
  }

  /** Appending and then traversing front to back lists the new item last;
      back to front, first. */
  lemma AppendThenTraverse<T>(c: Collection<T>, item: T)
    ensures Each(Append(c, item), false) == c.items + [item]
    ensures Each(Append(c, item), true) == [item] + Each(c, true)
  {
    var r := Each(Append(c, item), true);
    assert forall i :: 1 <= i < |r| ==> r[i] == Each(c, true)[i - 1];
  }

  /** The demos: "First", "Second", "Third" come out in that order, and
      1, 2, 3 come out as 3, 2, 1 from the back. */
  method Demo() returns (words: seq<string>, numbers: seq<int>)
    ensures words == ["First", "Second", "Third"]
    ensures numbers == [3, 2, 1]
  {
    var w := Append(Append(Append(Collection([]), "First"), "Second"), "Third");
    assert w.items == ["First", "Second", "Third"];
    words := Traverse(w);
    var n := Append(Append(Append(Collection([]), 1), 2), 3);
    assert n.items == [1, 2, 3];
    numbers := TraverseBackward(n);
    assert numbers[0] == 3 && numbers[1] == 2 && numbers[2] == 1;
  }
}
