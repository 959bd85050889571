/** Composite (C++, Swift, Python and Ruby demos): leaves and composites in
    a tree, composites holding an ordered list of children. Objects are
    identified by number; a store maps each number to the object's fields. */
module Composite {
  import opened Wrappers
  import opened Seqs
  import opened Languages

  datatype Kind = Leaf | Branch

  /** A component: its class, its children in order (always empty for a
      leaf) and its parent, if set. */
  datatype Component = Component(kind: Kind, children: seq<nat>, parent: Option<nat>)

  /** The live components, by identity. */
  type Store = map<nat, Component>

  /** What the Ruby and Python code raises: Ruby's `NotImplementedError`
      from the abstract base methods and `NoMethodError` from calling the
      undefined `Array#remove`; Python's `ValueError` from `list.remove`
      of a missing element. */
  datatype Error = NotImplemented | NoMethod | ValueError

  function NewLeaf(): Component {
    Component(Leaf, [], None)
  }

  function NewComposite(): Component {
    Component(Branch, [], None)
  }

  /** `IsComposite` / `is_composite` / `composite?`: true for composites
      only, the base version answering false. */
  predicate IsComposite(c: Component) {
    c.kind == Branch
  }

  /** `add(child)` on `self`. A composite appends `child` to the end of its
      children and becomes its parent. On a leaf, the inherited base method
      does nothing in C++, Swift and Python, and raises in Ruby. */
  function Add(s: Store, self: nat, child: nat, lang: Language): (r: Result<Store, Error>)
    requires self in s && child in s
    ensures !IsComposite(s[self]) ==> r == if lang == Ruby then Err(NotImplemented) else Ok(s)
    ensures IsComposite(s[self]) ==> r.Ok? && r.value.Keys == s.Keys
    ensures IsComposite(s[self]) ==>
      && r.value[self].children == s[self].children + [child]
      && r.value[self].kind == Branch
      && r.value[child].parent == Some(self)
      && (forall id :: id in s && id != self && id != child ==> r.value[id] == s[id])
    ensures IsComposite(s[self]) && self != child ==>
      && r.value[self] == s[self].(children := s[self].children + [child])
      && r.value[child] == s[child].(parent := Some(self))
    ensures IsComposite(s[self]) && self == child ==>
      r.value[self] == s[self].(children := s[self].children + [child], parent := Some(self))
  {
    if !IsComposite(s[self]) then
      if lang == Ruby then Err(NotImplemented) else Ok(s)
    else
      var grown := s[self := s[self].(children := s[self].children + [child])];
      Ok(grown[child := grown[child].(parent := Some(self))])
  }

  /** `remove(child)` on `self`.
      C++: a composite drops every occurrence of `child` and clears its
      parent, even when it was not a child; a leaf does nothing.
      Python: a composite drops the first occurrence and clears the parent,
      or raises when `child` is not among its children; a leaf does nothing.
      Swift: does nothing, on composites and leaves alike.
      Ruby: a composite fails calling the undefined `Array#remove`; a leaf
      raises from the abstract base. */
  function Remove(s: Store, self: nat, child: nat, lang: Language): (r: Result<Store, Error>)
    requires self in s && child in s
    ensures lang == Swift ==> r == Ok(s)
    ensures lang == Ruby ==> r == Err(if IsComposite(s[self]) then NoMethod else NotImplemented)
    ensures (lang == Cpp || lang == Python) && !IsComposite(s[self]) ==> r == Ok(s)
    ensures lang == Python && IsComposite(s[self]) ==> (r.Err? <==> child !in s[self].children)
    ensures r.Ok? && IsComposite(s[self]) && (lang == Cpp || lang == Python) ==>
      && r.value.Keys == s.Keys
      && r.value[child].parent.None?
      && (forall id :: id in s && id != self && id != child ==> r.value[id] == s[id])
    ensures r.Ok? && IsComposite(s[self]) && lang == Cpp ==>
      r.value[self].children == RemoveAll(s[self].children, child)
    ensures r.Ok? && IsComposite(s[self]) && lang == Python ==>
      r.value[self].children == RemoveFirst(s[self].children, child)
    ensures r.Ok? && IsComposite(s[self]) && (lang == Cpp || lang == Python) && self != child ==>
      && r.value[self] == s[self].(children := r.value[self].children)
      && r.value[child] == s[child].(parent := None)
    ensures r.Ok? && IsComposite(s[self]) && (lang == Cpp || lang == Python) && self == child ==>
      r.value[self] == s[self].(children := r.value[self].children, parent := None)
  {
    var c := s[self];
    match lang
    case Swift => Ok(s)
    case Ruby => Err(if IsComposite(c) then NoMethod else NotImplemented)
    case Cpp =>
      if !IsComposite(c) then Ok(s)
      else
        var shrunk := s[self := c.(children := RemoveAll(c.children, child))];
        Ok(shrunk[child := shrunk[child].(parent := None)])
    case Python =>
      if !IsComposite(c) then Ok(s)
      else if child !in c.children then Err(ValueError)
      else
        var shrunk := s[self := c.(children := RemoveFirst(c.children, child))];
        Ok(shrunk[child := shrunk[child].(parent := None)])
  }

  /** Removing a component just added gives back the composite's former
      children (C++ and Python), provided it was not already a child. */
  lemma AddThenRemove(s: Store, self: nat, child: nat, lang: Language)
    requires self in s && child in s && self != child
    requires IsComposite(s[self]) && child !in s[self].children
    requires lang == Cpp || lang == Python
    ensures Add(s, self, child, lang).Ok?
    ensures var added := Add(s, self, child, lang).value;
      && Remove(added, self, child, lang).Ok?
      && Remove(added, self, child, lang).value[self].children == s[self].children
      && Remove(added, self, child, lang).value[child].parent.None?
  {
    var added := Add(s, self, child, lang).value;
    var before := s[self].children;
    assert added[self].children == before + [child];
    if lang == Cpp {
      RemoveAllAppended(before, child);
    } else {
      RemoveFirstAppended(before, child);
    }
  }

  /** `rank` witnesses that the store is a finite tree (more generally,
      an acyclic graph): every child is a live component of smaller rank. */
  ghost predicate Ranked(s: Store, rank: map<nat, nat>) {
    forall id :: id in s ==>
      && id in rank
      && (forall c :: c in s[id].children ==> c in s && c in rank && rank[c] < rank[id])
  }

  /** Adding a component of smaller rank keeps the store ranked. */
  lemma AddKeepsRanked(s: Store, rank: map<nat, nat>, self: nat, child: nat, lang: Language)
    requires self in s && child in s && Ranked(s, rank)
    requires rank[child] < rank[self]
    requires Add(s, self, child, lang).Ok?
    ensures Ranked(Add(s, self, child, lang).value, rank)
  {
  }

  /** `operation`: "Leaf" for a leaf; for a composite "Branch(", the
      children's results in order separated by `sep`, and ")". Python and
      Ruby separate with "+", Swift with a space. */
  function Render(s: Store, sep: string, id: nat, ghost rank: map<nat, nat>): (r: string)
    requires Ranked(s, rank) && id in s
    ensures s[id].kind == Leaf ==> r == "Leaf"
    ensures s[id].kind == Branch ==> |r| >= 8
    decreases rank[id], 1
  {
    var c := s[id];
    if c.kind == Leaf then "Leaf"
    else "Branch(" + Join(ChildResults(s, sep, c.children, rank, rank[id]), sep) + ")"
  }

  /** A composite's result is wrapped in "Branch(" and ")". */
  lemma CompositeIsWrapped(s: Store, sep: string, id: nat, rank: map<nat, nat>)
    requires Ranked(s, rank) && id in s && s[id].kind == Branch
    ensures var r := Render(s, sep, id, rank);
      |r| >= 8 && r[..7] == "Branch(" && r[|r| - 1] == ')'
  {
    var inner := Join(ChildResults(s, sep, s[id].children, rank, rank[id]), sep);
    var r := "Branch(" + inner + ")";
    assert r[..7] == "Branch(";
  }

  /** The results of the components `ids`, in order. */
  function ChildResults(s: Store, sep: string, ids: seq<nat>, ghost rank: map<nat, nat>, ghost bound: nat): (r: seq<string>)
    requires Ranked(s, rank)
    requires forall i :: 0 <= i < |ids| ==> ids[i] in s && rank[ids[i]] < bound
    ensures |r| == |ids|
    ensures forall i :: 0 <= i < |ids| ==> r[i] == Render(s, sep, ids[i], rank)
    decreases bound, 0, |ids|
  {
    if |ids| == 0 then []
    else [Render(s, sep, ids[0], rank)] + ChildResults(s, sep, ids[1..], rank, bound)
  }

  /** A composite's result wraps the `sep`-joined results of its children. */
  lemma RenderBranch(s: Store, sep: string, id: nat, rank: map<nat, nat>)
    requires Ranked(s, rank) && id in s && s[id].kind == Branch
    ensures Render(s, sep, id, rank) == "Branch(" + Join(ChildResults(s, sep, s[id].children, rank, rank[id]), sep) + ")"
  {
  }

  /** A composite without children renders as "Branch()". */
  lemma EmptyCompositeRender(s: Store, sep: string, id: nat, rank: map<nat, nat>)
    requires Ranked(s, rank) && id in s
    requires s[id].kind == Branch && s[id].children == []
    ensures Render(s, sep, id, rank) == "Branch()"
  {
  }

  /** The C++ `Composite::Operation` loop as written: a child's result is
      followed by "+" unless that child is the same object as the last
      child. */
  function CppLoop(s: Store, ids: seq<nat>, last: nat, ghost rank: map<nat, nat>, ghost bound: nat): string
    requires Ranked(s, rank)
    requires forall i :: 0 <= i < |ids| ==> ids[i] in s && rank[ids[i]] < bound
    decreases bound, 0, |ids|
  {
    if |ids| == 0 then ""
    else
      var here := RenderAsWritten(s, ids[0], rank);
      (if ids[0] == last then here else here + "+") + CppLoop(s, ids[1..], last, rank, bound)
  }

  /** The C++ `Operation` as written. */
  function RenderAsWritten(s: Store, id: nat, ghost rank: map<nat, nat>): (r: string)
    requires Ranked(s, rank) && id in s
    ensures s[id].kind == Leaf ==> r == "Leaf"
    decreases rank[id], 1
  {
    var c := s[id];
    if c.kind == Leaf then "Leaf"
    else if |c.children| == 0 then "Branch()"
    else "Branch(" + CppLoop(s, c.children, c.children[|c.children| - 1], rank, rank[id]) + ")"
  }

  /** No composite holds its last child a second time, earlier in the list. */
  ghost predicate LastChildOnce(s: Store) {
    forall id :: id in s ==>
      forall i :: 0 <= i < |s[id].children| - 1 ==> s[id].children[i] != s[id].children[|s[id].children| - 1]
  }

  /** When no composite holds its last child twice, the C++ loop separates
      the children's results with "+" exactly as the other languages do. */
  lemma {:induction false} AsWrittenAgrees(s: Store, id: nat, rank: map<nat, nat>)
    requires Ranked(s, rank) && id in s && LastChildOnce(s)
    ensures RenderAsWritten(s, id, rank) == Render(s, "+", id, rank)
    decreases rank[id], 1
  {
    var c := s[id];
    if c.kind == Branch {
      RenderBranch(s, "+", id, rank);
      if |c.children| > 0 {
        var ch := c.children;
        LoopAgrees(s, ch, ch[|ch| - 1], rank, rank[id]);
      }
    }
  }

  lemma {:induction false} LoopAgrees(s: Store, ids: seq<nat>, last: nat, rank: map<nat, nat>, bound: nat)
    requires Ranked(s, rank) && LastChildOnce(s)
    requires |ids| > 0 && ids[|ids| - 1] == last
    requires forall i :: 0 <= i < |ids| - 1 ==> ids[i] != last
    requires forall i :: 0 <= i < |ids| ==> ids[i] in s && rank[ids[i]] < bound
    ensures CppLoop(s, ids, last, rank, bound) == Join(ChildResults(s, "+", ids, rank, bound), "+")
    decreases bound, 0, |ids|
  {
    AsWrittenAgrees(s, ids[0], rank);
    var here := RenderAsWritten(s, ids[0], rank);
    var results := ChildResults(s, "+", ids, rank, bound);
    ChildResultsHead(s, "+", ids, rank, bound);
    if |ids| == 1 {
      LoopLast(s, ids, last, rank, bound);
      JoinOne(results, "+");
    } else {
      LoopAgrees(s, ids[1..], last, rank, bound);
      LoopStep(s, ids, last, rank, bound);
      JoinStep(results, "+");
      Glue(CppLoop(s, ids, last, rank, bound), here, CppLoop(s, ids[1..], last, rank, bound),
        Join(results, "+"), results[0], Join(results[1..], "+"));
    }
  }

  lemma ChildResultsHead(s: Store, sep: string, ids: seq<nat>, rank: map<nat, nat>, bound: nat)
    requires Ranked(s, rank) && |ids| > 0
    requires forall i :: 0 <= i < |ids| ==> ids[i] in s && rank[ids[i]] < bound
    ensures ChildResults(s, sep, ids, rank, bound)[0] == Render(s, sep, ids[0], rank)
    ensures ChildResults(s, sep, ids, rank, bound)[1..] == ChildResults(s, sep, ids[1..], rank, bound)
  {
  }

  lemma LoopLast(s: Store, ids: seq<nat>, last: nat, rank: map<nat, nat>, bound: nat)
    requires Ranked(s, rank) && |ids| == 1 && ids[0] == last
    requires forall i :: 0 <= i < |ids| ==> ids[i] in s && rank[ids[i]] < bound
    ensures CppLoop(s, ids, last, rank, bound) == RenderAsWritten(s, ids[0], rank)
  {
    assert CppLoop(s, ids[1..], last, rank, bound) == "";
    assert RenderAsWritten(s, ids[0], rank) + "" == RenderAsWritten(s, ids[0], rank);
  }

  lemma LoopStep(s: Store, ids: seq<nat>, last: nat, rank: map<nat, nat>, bound: nat)
    requires Ranked(s, rank) && |ids| > 1 && ids[0] != last
    requires forall i :: 0 <= i < |ids| ==> ids[i] in s && rank[ids[i]] < bound
    ensures CppLoop(s, ids, last, rank, bound) == RenderAsWritten(s, ids[0], rank) + "+" + CppLoop(s, ids[1..], last, rank, bound)
  {
  }

  lemma JoinOne(parts: seq<string>, sep: string)
    requires |parts| == 1
    ensures Join(parts, sep) == parts[0]
  {
  }

  lemma JoinStep(parts: seq<string>, sep: string)
    requires |parts| > 1
    ensures Join(parts, sep) == parts[0] + sep + Join(parts[1..], sep)
  {
  }

  lemma Glue(loop: string, here: string, restLoop: string, join: string, head: string, restJoin: string)
    requires loop == here + "+" + restLoop && join == head + "+" + restJoin
    requires here == head && restLoop == restJoin
    ensures loop == join
  {
  }

  /** A composite holding the same leaf twice. */
  const Twice: Store := map[0 := Component(Branch, [1, 1], None), 1 := Component(Leaf, [], Some(0))]

  const TwiceRank: map<nat, nat> := map[0 := 1, 1 := 0]

  /** On a composite that holds one leaf twice, the C++ loop drops the "+"
      between the two results, while every other language (and the
      evident intent) separates them. */
  lemma AsWrittenDropsSeparator(s: Store, rank: map<nat, nat>)
    requires s == Twice && rank == TwiceRank
    ensures Ranked(s, rank)
    ensures RenderAsWritten(s, 0, rank) == "Branch(LeafLeaf)"
    ensures Render(s, "+", 0, rank) == "Branch(Leaf+Leaf)"
  {
    TwiceRanked(s, rank);
    TwiceAsWritten(s, rank);
    TwoChildren(s, "+", 0, rank, 1, 1);
    assert s[1].kind == Leaf;
  }

  lemma TwiceRanked(s: Store, rank: map<nat, nat>)
    requires s == Twice && rank == TwiceRank
    ensures Ranked(s, rank) && 0 in s && 1 in s
    ensures s[0].kind == Branch && s[0].children == [1, 1] && s[1].kind == Leaf
  {
  }

  /** The C++ loop on the doubled leaf: the first occurrence counts as the
      last child and gets no "+". */
  lemma TwiceAsWritten(s: Store, rank: map<nat, nat>)
    requires Ranked(s, rank) && 0 in s && 1 in s
    requires s[0].kind == Branch && s[0].children == [1, 1] && s[1].kind == Leaf
    ensures RenderAsWritten(s, 0, rank) == "Branch(LeafLeaf)"
  {
    var ch := s[0].children;
    assert ch[1..] == [1] && ch[1..][1..] == [];
    assert CppLoop(s, ch[1..], 1, rank, rank[0]) == "Leaf";
    assert CppLoop(s, ch, 1, rank, rank[0]) == "Leaf" + "Leaf";
  }

  /** `client_code2` / `ClientCode2` / `moreComplexClientCode`: adds the
      second component to the first only when the first is a composite. */
  function ClientCode2(s: Store, first: nat, second: nat, lang: Language): (r: Store)
    requires first in s && second in s
    ensures r.Keys == s.Keys
    ensures !IsComposite(s[first]) ==> r == s
    ensures IsComposite(s[first]) ==> r[first].children == s[first].children + [second]
  {
    if IsComposite(s[first]) then Add(s, first, second, lang).value else s
  }

  /** The C++ and Python demo tree: tree (0) holds branch1 (1) and branch2
      (4); branch1 holds two leaves (2, 3), branch2 one (5); 6 is the
      simple leaf. */
  const DemoTree: Store := map[
    0 := Component(Branch, [1, 4], None),
    1 := Component(Branch, [2, 3], Some(0)),
    2 := Component(Leaf, [], Some(1)),
    3 := Component(Leaf, [], Some(1)),
    4 := Component(Branch, [5], Some(0)),
    5 := Component(Leaf, [], Some(4)),
    6 := Component(Leaf, [], None)]

  const DemoRank: map<nat, nat> := map[0 := 2, 1 := 1, 2 := 0, 3 := 0, 4 := 1, 5 := 0, 6 := 0]

  lemma DemoTreeRanked()
    ensures Ranked(DemoTree, DemoRank)
  {
  }

  /** The demo's two branches render as "Branch(Leaf+Leaf)" and
      "Branch(Leaf)". */
  lemma DemoBranches()
    ensures Ranked(DemoTree, DemoRank)
    ensures Render(DemoTree, "+", 1, DemoRank) == "Branch(Leaf+Leaf)"
    ensures Render(DemoTree, "+", 4, DemoRank) == "Branch(Leaf)"
  {
    DemoBranchesAt(DemoTree, DemoRank);
  }

  lemma DemoBranchesAt(s: Store, rank: map<nat, nat>)
    requires s == DemoTree && rank == DemoRank
    ensures Ranked(s, rank)
    ensures Render(s, "+", 1, rank) == "Branch(Leaf+Leaf)"
    ensures Render(s, "+", 4, rank) == "Branch(Leaf)"
  {
    DemoTreeRanked();
    FirstBranchAt(s, rank);
    SecondBranchAt(s, rank);
    BranchText(Render(s, "+", 1, rank), Render(s, "+", 4, rank));
  }

  lemma FirstBranchAt(s: Store, rank: map<nat, nat>)
    requires s == DemoTree && rank == DemoRank && Ranked(s, rank)
    ensures Render(s, "+", 1, rank) == "Branch(" + ("Leaf" + "+" + "Leaf") + ")"
  {
    assert 1 in s && s[1].kind == Branch && s[1].children == [2, 3];
    assert 2 in s && 3 in s && s[2].kind == Leaf && s[3].kind == Leaf;
    TwoChildren(s, "+", 1, rank, 2, 3);
  }

  lemma SecondBranchAt(s: Store, rank: map<nat, nat>)
    requires s == DemoTree && rank == DemoRank && Ranked(s, rank)
    ensures Render(s, "+", 4, rank) == "Branch(" + Join(["Leaf"], "+") + ")"
  {
    assert 4 in s && s[4].kind == Branch && s[4].children == [5];
    assert 5 in s && s[5].kind == Leaf;
    RenderBranch(s, "+", 4, rank);
    assert ChildResults(s, "+", [5], rank, rank[4]) == ["Leaf"];
  }

  lemma BranchText(b1: string, b2: string)
    requires b1 == "Branch(" + ("Leaf" + "+" + "Leaf") + ")"
    requires b2 == "Branch(" + Join(["Leaf"], "+") + ")"
    ensures b1 == "Branch(Leaf+Leaf)" && b2 == "Branch(Leaf)"
  {
  }

  /** The demo tree renders as "Branch(Branch(Leaf+Leaf)+Branch(Leaf))" in
      Python and Ruby. */
  lemma DemoTreeRender()
    ensures Ranked(DemoTree, DemoRank)
    ensures Render(DemoTree, "+", 0, DemoRank) == "Branch(Branch(Leaf+Leaf)+Branch(Leaf))"
  {
    DemoBranches();
    DemoTreeTop(DemoTree, DemoRank);
    DemoTreeText(Render(DemoTree, "+", 0, DemoRank), Render(DemoTree, "+", 1, DemoRank), Render(DemoTree, "+", 4, DemoRank));
  }

  lemma DemoTreeText(top: string, b1: string, b2: string)
    requires top == "Branch(" + (b1 + "+" + b2) + ")"
    requires b1 == "Branch(Leaf+Leaf)" && b2 == "Branch(Leaf)"
    ensures top == "Branch(Branch(Leaf+Leaf)+Branch(Leaf))"
  {
  }

  lemma DemoTreeTop(s: Store, rank: map<nat, nat>)
    requires s == DemoTree && rank == DemoRank
    ensures Ranked(s, rank)
    ensures Render(s, "+", 0, rank) == "Branch(" + (Render(s, "+", 1, rank) + "+" + Render(s, "+", 4, rank)) + ")"
  {
    assert 0 in s && s[0].kind == Branch && s[0].children == [1, 4];
    DemoTreeRanked();
    TwoChildren(s, "+", 0, rank, 1, 4);
  }

  /** A composite with two children renders their results around one
      separator. */
  lemma TwoChildren(s: Store, sep: string, id: nat, rank: map<nat, nat>, a: nat, b: nat)
    requires Ranked(s, rank) && id in s && s[id].kind == Branch && s[id].children == [a, b]
    ensures Render(s, sep, id, rank) == "Branch(" + (Render(s, sep, a, rank) + sep + Render(s, sep, b, rank)) + ")"
  {
    RenderBranch(s, sep, id, rank);
    ChildResultsPair(s, sep, a, b, rank, rank[id]);
    JoinTwo(Render(s, sep, a, rank), Render(s, sep, b, rank), sep);
  }

  lemma ChildResultsPair(s: Store, sep: string, a: nat, b: nat, rank: map<nat, nat>, bound: nat)
    requires Ranked(s, rank) && a in s && b in s && rank[a] < bound && rank[b] < bound
    ensures ChildResults(s, sep, [a, b], rank, bound) == [Render(s, sep, a, rank), Render(s, sep, b, rank)]
  {
    var r := ChildResults(s, sep, [a, b], rank, bound);
    assert r[0] == Render(s, sep, a, rank) && r[1] == Render(s, sep, b, rank);
  }

  /** The C++ loop gives the same string on the demo tree, where no
      composite holds a child twice. */
  lemma DemoTreeRenderCpp(s: Store, rank: map<nat, nat>)
    requires s == DemoTree && rank == DemoRank
    ensures Ranked(s, rank)
    ensures RenderAsWritten(s, 0, rank) == "Branch(Branch(Leaf+Leaf)+Branch(Leaf))"
  {
    DemoTreeRender();
    DemoLastChildOnce(s);
    AsWrittenAgrees(s, 0, rank);
  }

  lemma DemoLastChildOnce(s: Store)
    requires s == DemoTree
    ensures LastChildOnce(s)
  {
  }

  /** The Swift demo tree, tree (0) holding branch1 (1) and branch2 (4),
      each holding two leaves (2, 3 and 5, 6), renders with spaces as
      "Branch(Branch(Leaf Leaf) Branch(Leaf Leaf))". */
  lemma SwiftTreeRender(s: Store, rank: map<nat, nat>)
    requires Ranked(s, rank)
    requires 0 in s && s[0].kind == Branch && s[0].children == [1, 4]
    requires 1 in s && s[1].kind == Branch && s[1].children == [2, 3]
    requires 4 in s && s[4].kind == Branch && s[4].children == [5, 6]
    requires 2 in s && 3 in s && 5 in s && 6 in s
    requires s[2].kind == Leaf && s[3].kind == Leaf && s[5].kind == Leaf && s[6].kind == Leaf
    ensures Render(s, " ", 0, rank) == "Branch(Branch(Leaf Leaf) Branch(Leaf Leaf))"
  {
    LeafPair(s, " ", 1, rank, 2, 3);
    LeafPair(s, " ", 4, rank, 5, 6);
    TwoChildren(s, " ", 0, rank, 1, 4);
    SwiftPairText(Render(s, " ", 1, rank));
    SwiftPairText(Render(s, " ", 4, rank));
    SwiftTreeText(Render(s, " ", 0, rank), Render(s, " ", 1, rank), Render(s, " ", 4, rank));
  }

  /** A composite holding two leaves. */
  lemma LeafPair(s: Store, sep: string, id: nat, rank: map<nat, nat>, a: nat, b: nat)
    requires Ranked(s, rank) && id in s && s[id].kind == Branch && s[id].children == [a, b]
    requires a in s && b in s && s[a].kind == Leaf && s[b].kind == Leaf
    ensures Render(s, sep, id, rank) == "Branch(" + ("Leaf" + sep + "Leaf") + ")"
  {
    TwoChildren(s, sep, id, rank, a, b);
  }

  lemma SwiftPairText(b: string)
    requires b == "Branch(" + ("Leaf" + " " + "Leaf") + ")"
    ensures b == "Branch(Leaf Leaf)"
  {
  }

  lemma SwiftTreeText(top: string, b1: string, b2: string)
    requires top == "Branch(" + (b1 + " " + b2) + ")"
    requires b1 == "Branch(Leaf Leaf)" && b2 == b1
    ensures top == "Branch(Branch(Leaf Leaf) Branch(Leaf Leaf))"
  {
  }

  lemma JoinTwo(a: string, b: string, sep: string)
    ensures Join([a, b], sep) == a + sep + b
  {
    assert [a, b][1..] == [b];
  }
}
