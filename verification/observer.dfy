/** Observer (Python, Swift and Ruby demos): a subject with an integer
    state and an ordered list of subscribers; on each change it notifies the
    subscribers in order and each decides by a threshold whether it reacts.
    The random draws of the state are parameters. */
module Observer {
  import opened Wrappers
  import opened Seqs
  import opened Languages

  /** `ConcreteObserverA` or `ConcreteObserverB`. */
  datatype Kind = A | B

  /** An observer object: its identity and its class. */
  datatype Obs = Obs(id: nat, kind: Kind)

  /** The subject's state and its subscriber list, in attach order. */
  datatype Subject = Subject(state: int, observers: seq<Obs>)

  /** Python's `list.remove` of an observer that is not subscribed. */
  datatype Error = ValueError

  /** `attach`: appends the observer, even if it is already subscribed. */
  function Attach(s: Subject, o: Obs): (r: Subject)
    ensures r.state == s.state
    ensures |r.observers| == |s.observers| + 1
    ensures r.observers[..|s.observers|] == s.observers && r.observers[|s.observers|] == o
  {
    s.(observers := s.observers + [o])
  }

  /** `detach`.
      Python: removes the first occurrence, and raises when there is none.
      Swift: removes the first identical observer; absent, nothing changes.
      Ruby: `Array#delete` removes every occurrence; absent, nothing
      changes. */
  function Detach(s: Subject, o: Obs, lang: Language): (r: Result<Subject, Error>)
    requires lang != Cpp
    ensures r.Err? <==> lang == Python && o !in s.observers
    ensures r.Ok? ==> r.value.state == s.state
    ensures r.Ok? && o !in s.observers ==> r.value == s
    ensures r.Ok? && o in s.observers && lang != Ruby ==>
      |r.value.observers| == |s.observers| - 1 && multiset(r.value.observers) == multiset(s.observers) - multiset{o}
    ensures r.Ok? && lang == Ruby ==>
      o !in r.value.observers && multiset(r.value.observers) == multiset(s.observers)[o := 0]
    ensures r.Ok? && lang != Ruby ==> r.value.observers == RemoveFirst(s.observers, o)
    ensures r.Ok? && lang == Ruby ==> r.value.observers == RemoveAll(s.observers, o)
  {
    match lang
    case Python =>
      if o !in s.observers then Err(ValueError) else Ok(s.(observers := RemoveFirst(s.observers, o)))
    case Swift => Ok(s.(observers := RemoveFirst(s.observers, o)))
    case Ruby =>
      RemoveAllMultiset(s.observers, o);
      Ok(s.(observers := RemoveAll(s.observers, o)))
  }

  /** Detaching an observer that was just attached for the first time
      gives back the subject as it was, in every language. */
  lemma DetachUndoesAttach(s: Subject, o: Obs, lang: Language)
    requires lang != Cpp && o !in s.observers
    ensures Detach(Attach(s, o), o, lang) == Ok(s)
  {
    if lang == Ruby {
      RemoveAllAppended(s.observers, o);
    } else {
      RemoveFirstAppended(s.observers, o);
    }
  }

  /** `update` of one observer: whether it reacts to the state.
      A reacts below 3. B reacts at 0 and from 2 on in Python and Ruby, and
      from 3 on in Swift. */
  predicate Reacts(lang: Language, k: Kind, state: int) {
    match k
    case A => state < 3
    case B => if lang == Swift then state >= 3 else state == 0 || state >= 2
  }

  /** In Swift the two thresholds split the states: exactly one kind
      reacts. */
  lemma SwiftExactlyOne(state: int)
    ensures Reacts(Swift, A, state) != Reacts(Swift, B, state)
  {
  }

  /** In Python and Ruby every state makes at least one kind react (in
      particular every draw, 0 to 9 in Python and 0 to 10 in Ruby), and both
      react exactly at 0 and 2. */
  lemma PythonRubyCoverage(lang: Language, state: int)
    requires lang == Python || lang == Ruby
    ensures Reacts(lang, A, state) || Reacts(lang, B, state)
    ensures Reacts(lang, A, state) && Reacts(lang, B, state) <==> state == 0 || state == 2
  {
  }

  /** `notify`: calls `update` on every subscriber in list order; the result
      lists the subscribers that reacted, in that order. */
  function Notify(s: Subject, lang: Language): (reacted: seq<Obs>)
    ensures |reacted| <= |s.observers|
    ensures forall i :: 0 <= i < |reacted| ==> reacted[i] in s.observers && Reacts(lang, reacted[i].kind, s.state)
    ensures forall i :: 0 <= i < |s.observers| && Reacts(lang, s.observers[i].kind, s.state) ==> s.observers[i] in reacted
    decreases |s.observers|
  {
    if |s.observers| == 0 then []
    else
      var rest := Notify(s.(observers := s.observers[1..]), lang);
      var o := s.observers[0];
      assert forall i :: 1 <= i < |s.observers| ==> s.observers[i] == s.observers[1..][i - 1];
      if Reacts(lang, o.kind, s.state) then [o] + rest else rest
  }

  /** Notification keeps attach order: the reactions to `xs + ys` are those
      to `xs` followed by those to `ys`. */
  lemma {:induction false} NotifyInOrder(state: int, xs: seq<Obs>, ys: seq<Obs>, lang: Language)
    ensures Notify(Subject(state, xs + ys), lang) == Notify(Subject(state, xs), lang) + Notify(Subject(state, ys), lang)
    decreases |xs|
  {
    if |xs| == 0 {
      assert xs + ys == ys;
    } else {
      assert (xs + ys)[0] == xs[0] && (xs + ys)[1..] == xs[1..] + ys;
      NotifyInOrder(state, xs[1..], ys, lang);
    }
  }

  /** The largest draw plus one: Python's `randrange(0, 10)` and Swift's
      `arc4random_uniform(10)` give 0 to 9, Ruby's `rand(0..10)` 0 to 10. */
  function DrawBound(lang: Language): nat {
    if lang == Ruby then 11 else 10
  }

  /** `some_business_logic`: the state becomes the draw, then the
      subscribers are notified. */
  function SomeBusinessLogic(s: Subject, lang: Language, draw: nat): (r: (Subject, seq<Obs>))
    requires draw < DrawBound(lang)
    ensures r.0 == s.(state := draw)
    ensures r.1 == Notify(s.(state := draw), lang)
  {
    var next := s.(state := draw);
    (next, Notify(next, lang))
  }

  /** With both observers subscribed, every draw makes someone react. */
  lemma SomeoneAlwaysReacts(lang: Language, draw: nat, a: Obs, b: Obs)
    requires lang != Cpp && draw < DrawBound(lang)
    requires a.kind == A && b.kind == B
    ensures |SomeBusinessLogic(Subject(0, [a, b]), lang, draw).1| >= 1
  {
    var s := Subject(draw, [a, b]);
    assert s.observers[0] == a && s.observers[1] == b;
    if lang == Swift {
      SwiftExactlyOne(draw);
    } else {
      PythonRubyCoverage(lang, draw);
    }
  }

  /** The demo: attach A then B, two rounds of business logic, detach one
      (A in Python and Ruby, B in Swift), one more round. The last round
      notifies only the observer still subscribed, and it reacts exactly
      when its threshold admits the last draw. */
  lemma DemoDetachOne(lang: Language, a: Obs, b: Obs, d1: nat, d2: nat, d3: nat)
    requires lang != Cpp && a.kind == A && b.kind == B && a != b
    requires d1 < DrawBound(lang) && d2 < DrawBound(lang) && d3 < DrawBound(lang)
    ensures var s0 := Attach(Attach(Subject(0, []), a), b);
      var s2 := SomeBusinessLogic(SomeBusinessLogic(s0, lang, d1).0, lang, d2).0;
      var gone := if lang == Swift then b else a;
      var kept := if lang == Swift then a else b;
      var detached := Detach(s2, gone, lang);
      && detached.Ok?
      && detached.value.observers == [kept]
      && SomeBusinessLogic(detached.value, lang, d3).1 == (if Reacts(lang, kept.kind, d3) then [kept] else [])
  {
    TwoRounds(lang, a, b, d1, d2);
    var s2 := Subject(d2, [a, b]);
    var kept := if lang == Swift then a else b;
    DetachFromPair(s2, lang);
    LastRound(lang, d2, kept, d3);
  }

  /** Attaching A then B and running two rounds leaves both subscribed and
      the state at the second draw. */
  lemma TwoRounds(lang: Language, a: Obs, b: Obs, d1: nat, d2: nat)
    requires d1 < DrawBound(lang) && d2 < DrawBound(lang)
    ensures var s0 := Attach(Attach(Subject(0, []), a), b);
      SomeBusinessLogic(SomeBusinessLogic(s0, lang, d1).0, lang, d2).0 == Subject(d2, [a, b])
  {
    assert Attach(Attach(Subject(0, []), a), b).observers == [a, b];
  }

  /** A round with a single subscriber notifies it alone. */
  lemma LastRound(lang: Language, state: int, kept: Obs, d3: nat)
    requires d3 < DrawBound(lang)
    ensures SomeBusinessLogic(Subject(state, [kept]), lang, d3).1 == (if Reacts(lang, kept.kind, d3) then [kept] else [])
  {
    NotifyOne(d3, kept, lang);
  }

  /** Detaching one of two distinct subscribers leaves the other. */
  lemma DetachFromPair(s: Subject, lang: Language)
    requires lang != Cpp && |s.observers| == 2 && s.observers[0] != s.observers[1]
    ensures var gone := if lang == Swift then s.observers[1] else s.observers[0];
      var kept := if lang == Swift then s.observers[0] else s.observers[1];
      var r := Detach(s, gone, lang);
      r.Ok? && r.value.observers == [kept]
  {
    var a, b := s.observers[0], s.observers[1];
    if lang == Ruby {
      assert RemoveAll(s.observers[1..], a) == [b];
    } else if lang == Swift {
      assert FirstIndex(s.observers, b) == 1;
      assert s.observers[..1] == [a];
    } else {
      assert FirstIndex(s.observers, a) == 0;
      assert s.observers[1..] == [b];
    }
  }

  /** A single subscriber is notified alone. */
  lemma NotifyOne(state: int, o: Obs, lang: Language)
    ensures Notify(Subject(state, [o]), lang) == if Reacts(lang, o.kind, state) then [o] else []
  {
    assert Subject(state, [o]).observers[1..] == [];
    assert Notify(Subject(state, []), lang) == [];
  }

  /** In Python `_observers` is a class attribute: every subject appends to
      and notifies the one shared list. The subjects differ only in their
      states. */
  datatype PythonSubjects = PythonSubjects(states: map<nat, int>, shared: seq<Obs>)

  function PythonAttach(w: PythonSubjects, subject: nat, o: Obs): (r: PythonSubjects)
    ensures r.states == w.states && r.shared == w.shared + [o]
  {
    w.(shared := w.shared + [o])
  }

  function PythonNotify(w: PythonSubjects, subject: nat): seq<Obs>
    requires subject in w.states
  {
    Notify(Subject(w.states[subject], w.shared), Python)
  }

  /** An observer attached through one subject is notified by every other
      subject as well. */
  lemma PythonSubscriptionShared(w: PythonSubjects, s1: nat, s2: nat, o: Obs)
    requires s1 in w.states && s2 in w.states
    requires Reacts(Python, o.kind, w.states[s2])
    ensures o in PythonNotify(PythonAttach(w, s1, o), s2)
  {
    var after := PythonAttach(w, s1, o);
    assert after.shared[|w.shared|] == o;
  }
}
