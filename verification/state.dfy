/** State (Python, Swift and Ruby demos): a context delegates its two
    requests to its current state object; a state holds a back-link to its
    context and uses it to move the context to another state. Objects are
    modelled by identities: state objects are numbered by creation order,
    and every context maps to the state it currently holds. */
module State {
  import opened Wrappers
  import opened Languages

  /** `ConcreteStateA`, `ConcreteStateB`, or the base class itself. */
  datatype Kind = ConcreteA | ConcreteB | Base

  /** A state object: its class and its back-link to a context, unset until
      a context transitions to it. */
  datatype StateObj = StateObj(kind: Kind, context: Option<nat>)

  /** All state objects, numbered by creation, and each context's current
      state. */
  datatype World = World(states: seq<StateObj>, current: map<nat, nat>)

  /** The two requests a context offers. */
  datatype Req = Request1 | Request2

  /** Python refuses to instantiate the abstract `State`; Ruby's base
      `handle1`/`handle2` raise; a state without a back-link cannot reach a
      context in Python or Ruby. */
  datatype Error = TypeError | NotImplementedError | NoContext

  /** Every context holds an existing state. */
  ghost predicate Valid(w: World) {
    forall c :: c in w.current ==> w.current[c] < |w.states|
  }

  /** Besides, every context's state links back to that context. */
  ghost predicate Linked(w: World) {
    Valid(w) && forall c :: c in w.current ==> w.states[w.current[c]].context == Some(c)
  }

  /** A new state object of the given class, not yet linked. */
  function Spawn(w: World, kind: Kind): (r: (World, nat))
    ensures r.1 == |w.states| && r.0.states == w.states + [StateObj(kind, None)]
    ensures r.0.current == w.current
  {
    (w.(states := w.states + [StateObj(kind, None)]), |w.states|)
  }

  /** `transition_to`: the context now holds `st`, and `st` links back to
      the context. No other context and no other state changes. */
  function TransitionTo(w: World, c: nat, st: nat): (r: World)
    requires st < |w.states|
    ensures r.current.Keys == w.current.Keys + {c} && r.current[c] == st
    ensures forall d :: d in w.current && d != c ==> r.current[d] == w.current[d]
    ensures |r.states| == |w.states|
    ensures r.states[st] == StateObj(w.states[st].kind, Some(c))
    ensures forall i :: 0 <= i < |w.states| && i != st ==> r.states[i] == w.states[i]
  {
    World(w.states[st := StateObj(w.states[st].kind, Some(c))], w.current[c := st])
  }

  /** Moving a context to a state no other context holds keeps every
      back-link intact. */
  lemma TransitionKeepsLinked(w: World, c: nat, st: nat)
    requires Linked(w) && st < |w.states|
    requires forall d :: d in w.current && d != c ==> w.current[d] != st
    ensures Linked(TransitionTo(w, c, st))
  {
  }

  /** The constructor: a new context `c` starting in a new state of the
      given class. Python cannot create a bare `State`. */
  function NewContext(w: World, c: nat, kind: Kind, lang: Language): (r: Result<World, Error>)
    requires c !in w.current
    ensures r.Err? <==> lang == Python && kind == Base
    ensures r.Ok? ==> r.value.current.Keys == w.current.Keys + {c}
    ensures r.Ok? ==> |r.value.states| == |w.states| + 1 && r.value.current[c] == |w.states|
    ensures r.Ok? ==> r.value.states[|w.states|] == StateObj(kind, Some(c))
  {
    if lang == Python && kind == Base then Err(TypeError)
    else
      var (spawned, st) := Spawn(w, kind);
      Ok(TransitionTo(spawned, c, st))
  }

  /** A new context leaves the world linked. */
  lemma NewContextKeepsLinked(w: World, c: nat, kind: Kind, lang: Language)
    requires Linked(w) && c !in w.current && !(lang == Python && kind == Base)
    ensures Linked(NewContext(w, c, kind, lang).value)
  {
    var (spawned, st) := Spawn(w, kind);
    TransitionKeepsLinked(spawned, c, st);
  }

  /** What a concrete state does with its back-link: the linked context
      moves to a new state of class `next`. Swift's `context?.` does nothing
      without a link; Python and Ruby fail. */
  function Goto(w: World, st: nat, next: Kind, lang: Language): (r: Result<World, Error>)
    requires st < |w.states|
    ensures w.states[st].context.None? ==> (r.Err? <==> lang != Swift) && (r.Ok? ==> r.value == w)
    ensures w.states[st].context.Some? ==> (
      && r.Ok?
      && |r.value.states| == |w.states| + 1
      && r.value.current.Keys == w.current.Keys + {w.states[st].context.value}
      && r.value.current[w.states[st].context.value] == |w.states|
      && r.value.states[|w.states|] == StateObj(next, w.states[st].context))
  {
    match w.states[st].context
    case None => if lang == Swift then Ok(w) else Err(NoContext)
    case Some(c) =>
      var (spawned, created) := Spawn(w, next);
      Ok(TransitionTo(spawned, c, created))
  }

  /** The class a request leads to: A moves to B on request 1, B back to A
      on request 2, and every other pair stays put. */
  function NextKind(kind: Kind, q: Req): Kind {
    match (kind, q)
    case (ConcreteA, Request1) => ConcreteB
    case (ConcreteB, Request2) => ConcreteA
    case _ => kind
  }

  /** `handle1`/`handle2` of the state `st`. Concrete states either move
      their context or only report; the base class does nothing in Swift,
      raises in Ruby, and is never instantiated in Python (its abstract
      bodies are `pass`). */
  function Handle(w: World, st: nat, q: Req, lang: Language): (r: Result<World, Error>)
    requires st < |w.states|
    ensures w.states[st].kind == Base ==> (r.Err? <==> lang == Ruby) && (r.Ok? ==> r.value == w)
    ensures w.states[st].kind != Base && NextKind(w.states[st].kind, q) == w.states[st].kind ==> r == Ok(w)
  {
    var kind := w.states[st].kind;
    if kind == Base then
      if lang == Ruby then Err(NotImplementedError) else Ok(w)
    else if NextKind(kind, q) == kind then Ok(w)
    else Goto(w, st, NextKind(kind, q), lang)
  }

  /** `request1`/`request2`: the context delegates to its current state. */
  function Request(w: World, c: nat, q: Req, lang: Language): (r: Result<World, Error>)
    requires Valid(w) && c in w.current
    ensures Linked(w) && w.states[w.current[c]].kind != Base ==> r.Ok?
  {
    Handle(w, w.current[c], q, lang)
  }

  /** In a linked world a request on a concrete state leaves the context in
      a state of the class the transition table names, keeps the world
      linked, and leaves every other context where it was. */
  lemma RequestFollowsTable(w: World, c: nat, q: Req, lang: Language)
    requires Linked(w) && c in w.current
    requires w.states[w.current[c]].kind != Base
    ensures var r := Request(w, c, q, lang).value;
      && Linked(r)
      && r.current.Keys == w.current.Keys
      && r.states[r.current[c]].kind == NextKind(w.states[w.current[c]].kind, q)
      && forall d :: d in w.current && d != c ==> r.current[d] == w.current[d]
  {
    var st := w.current[c];
    var kind := w.states[st].kind;
    if NextKind(kind, q) != kind {
      var (spawned, created) := Spawn(w, NextKind(kind, q));
      TransitionKeepsLinked(spawned, c, created);
      assert Request(w, c, q, lang) == Ok(TransitionTo(spawned, c, created));
    } else {
      assert Request(w, c, q, lang) == Ok(w);
    }
  }

  /** Requests a state ignores change nothing: request 2 in state A and
      request 1 in state B leave the whole world as it was. */
  lemma IgnoredRequestIsNoOp(w: World, c: nat, lang: Language)
    requires Valid(w) && c in w.current
    ensures w.states[w.current[c]].kind == ConcreteA ==> Request(w, c, Request2, lang) == Ok(w)
    ensures w.states[w.current[c]].kind == ConcreteB ==> Request(w, c, Request1, lang) == Ok(w)
  {
  }

  /** The demo: a context starting in A, then request 1 and request 2. It
      goes A, B, A: three state objects created, the last one current and
      linked back. */
  lemma DemoAToBToA(lang: Language)
    requires lang != Cpp
    ensures var w0 := NewContext(World([], map[]), 0, ConcreteA, lang).value;
      var w1 := Request(w0, 0, Request1, lang).value;
      var w2 := Request(w1, 0, Request2, lang).value;
      && w1.states[w1.current[0]].kind == ConcreteB
      && w2.states[w2.current[0]].kind == ConcreteA
      && |w2.states| == 3 && w2.current[0] == 2
      && Linked(w2)
  {
    var empty := World([], map[]);
    NewContextKeepsLinked(empty, 0, ConcreteA, lang);
    var w0 := NewContext(empty, 0, ConcreteA, lang).value;
    assert w0.current.Keys == {0} && |w0.states| == 1 && w0.current[0] == 0;
    RoundTrip(w0, lang);
  }

  /** Request 1 then request 2 on the only context, held in A by the only
      state. */
  lemma RoundTrip(w0: World, lang: Language)
    requires Linked(w0) && w0.current.Keys == {0} && |w0.states| == 1 && w0.current[0] == 0
    requires w0.states[0].kind == ConcreteA
    ensures var w1 := Request(w0, 0, Request1, lang).value;
      var w2 := Request(w1, 0, Request2, lang).value;
      && w1.states[w1.current[0]].kind == ConcreteB
      && w2.states[w2.current[0]].kind == ConcreteA
      && |w2.states| == 3 && w2.current[0] == 2
      && Linked(w2)
  {
    RequestFollowsTable(w0, 0, Request1, lang);
    var w1 := Request(w0, 0, Request1, lang).value;
    RequestFollowsTable(w1, 0, Request2, lang);
  }
}
