/** Chain of Responsibility (C++, Swift, Ruby and Python demos): handlers
    linked into a singly linked list; each accepts one fixed food and forwards
    every other request to its successor. */
module Chain {
  import opened Wrappers
  import opened Languages

  /** The three concrete handlers. */
  datatype Animal = Monkey | Squirrel | Dog

  /** The one request each handler accepts. */
  function Token(a: Animal): string {
    match a
    case Monkey => "Banana"
    case Squirrel => "Nut"
    case Dog => "MeatBall"
  }

  function Name(a: Animal): string {
    match a
    case Monkey => "Monkey"
    case Squirrel => "Squirrel"
    case Dog => "Dog"
  }

  /** The answer of a handler that accepts `request`: the C++ and Swift
      messages end in ".\n", the Ruby and Python ones do not. */
  function Message(lang: Language, a: Animal, request: string): (m: string)
    ensures |m| > 0
    ensures lang == Cpp || lang == Swift ==> m == Name(a) + ": I'll eat the " + request + ".\n"
    ensures lang == Ruby || lang == Python ==> m == Name(a) + ": I'll eat the " + request
  {
    var core := Name(a) + ": I'll eat the " + request;
    if lang == Cpp || lang == Swift then core + ".\n" else core
  }

  /** A handler object: its kind and its successor, if any. */
  datatype Handler = Handler(animal: Animal, next: Option<nat>)

  /** The live handler objects, by identity. */
  type Registry = map<nat, Handler>

  /** A fresh handler has no successor. */
  function NewHandler(a: Animal): Handler {
    Handler(a, None)
  }

  /** `set_next`/`SetNext`/`next_handler`: stores `arg` as the successor of
      `self` and returns `arg` (not `self`), so that calls can be chained. */
  function SetNext(reg: Registry, self: nat, arg: nat): (r: (Registry, nat))
    requires self in reg
    ensures r.1 == arg
    ensures r.0.Keys == reg.Keys
    ensures r.0[self].next == Some(arg) && r.0[self].animal == reg[self].animal
    ensures forall h :: h in reg && h != self ==> r.0[h] == reg[h]
  {
    (reg[self := reg[self].(next := Some(arg))], arg)
  }

  /** Setting the successor twice: the second call wins. */
  lemma SetNextLastWins(reg: Registry, self: nat, a: nat, b: nat)
    requires self in reg
    ensures SetNext(SetNext(reg, self, a).0, self, b).0 == SetNext(reg, self, b).0
  {
  }

  /** `path` is the whole chain entered at `h`: it starts at `h`, every
      handler on it is live, each links to the next, and the last has no
      successor. */
  ghost predicate ChainFrom(reg: Registry, h: nat, path: seq<nat>) {
    && |path| > 0
    && path[0] == h
    && (forall i :: 0 <= i < |path| ==> path[i] in reg)
    && (forall i {:trigger reg[path[i]]} :: 0 <= i < |path| - 1 ==> reg[path[i]].next == Some(path[i + 1]))
    && reg[path[|path| - 1]].next.None?
  }

  /** On a chain of more than one handler, the entry links to the second. */
  lemma ChainNext(reg: Registry, h: nat, path: seq<nat>)
    requires ChainFrom(reg, h, path)
    ensures |path| > 1 ==> reg[h].next == Some(path[1])
  {
  }

  /** Handler number `i` on the path is the first to accept `request`. */
  ghost predicate FirstAccepting(reg: Registry, path: seq<nat>, request: string, i: int)
    requires forall k :: 0 <= k < |path| ==> path[k] in reg
  {
    && 0 <= i < |path|
    && Token(reg[path[i]].animal) == request
    && (forall j :: 0 <= j < i ==> Token(reg[path[j]].animal) != request)
  }

  /** `handle`: the message of the first handler along the chain whose token
      equals the request, or nothing (nil / None) when no handler accepts
      it. A matching handler answers without consulting its successor. */
  function Handle(reg: Registry, lang: Language, h: nat, request: string, ghost path: seq<nat>): (r: Option<string>)
    requires ChainFrom(reg, h, path)
    ensures r.None? <==> forall i :: 0 <= i < |path| ==> Token(reg[path[i]].animal) != request
    ensures Token(reg[h].animal) == request ==> r == Some(Message(lang, reg[h].animal, request))
    decreases |path|
  {
    var handler := reg[h];
    if request == Token(handler.animal) then
      Some(Message(lang, handler.animal, request))
    else
      match handler.next
      case None =>
        ChainNext(reg, h, path);
        None
      case Some(n) =>
        assert ChainFrom(reg, n, path[1..]);
        Handle(reg, lang, n, request, path[1..])
  }

  /** An answer comes from the first handler along the chain that accepts
      the request. */
  lemma {:induction false} HandleFindsFirst(reg: Registry, lang: Language, h: nat, request: string, path: seq<nat>)
    requires ChainFrom(reg, h, path)
    ensures var r := Handle(reg, lang, h, request, path);
      r.Some? ==> exists i :: FirstAccepting(reg, path, request, i) && r.value == Message(lang, reg[path[i]].animal, request)
    decreases |path|
  {
    var r := Handle(reg, lang, h, request, path);
    if Token(reg[h].animal) == request {
      assert FirstAccepting(reg, path, request, 0);
    } else if r.Some? {
      ChainNext(reg, h, path);
      var tail := path[1..];
      assert ChainFrom(reg, tail[0], tail);
      HandleFindsFirst(reg, lang, tail[0], request, tail);
      var i :| FirstAccepting(reg, tail, request, i) && r.value == Message(lang, reg[tail[i]].animal, request);
      assert FirstAccepting(reg, path, request, i + 1);
    }
  }

  /** The C++ `Handle`: the empty string stands for "not handled", and since
      every answer is non-empty, the result is empty exactly when no handler
      on the chain accepts the request. */
  function HandleCpp(reg: Registry, h: nat, request: string, ghost path: seq<nat>): (r: string)
    requires ChainFrom(reg, h, path)
    ensures r == "" <==> forall i :: 0 <= i < |path| ==> Token(reg[path[i]].animal) != request
    ensures r != "" ==> exists i :: FirstAccepting(reg, path, request, i) && r == Message(Cpp, reg[path[i]].animal, request)
  {
    HandleFindsFirst(reg, Cpp, h, request, path);
    Handle(reg, Cpp, h, request, path).GetOr("")
  }

  /** Swift's `someClientCode`: offers the foods in order and stops right
      after the first one nobody takes. The result holds the answers of the
      foods actually offered. */
  function SwiftClient(reg: Registry, h: nat, foods: seq<string>, ghost path: seq<nat>): (offered: seq<Option<string>>)
    requires ChainFrom(reg, h, path)
    ensures |offered| <= |foods|
    ensures forall i :: 0 <= i < |offered| - 1 ==> offered[i].Some?
    ensures |offered| < |foods| ==> |offered| > 0 && offered[|offered| - 1].None?
  {
    if |foods| == 0 then []
    else
      var answer := Handle(reg, Swift, h, foods[0], path);
      if answer.None? then [answer]
      else [answer] + SwiftClient(reg, h, foods[1..], path)
  }

  /** Each food the client offers gets the chain's answer to it. */
  lemma {:induction false} SwiftClientAnswers(reg: Registry, h: nat, foods: seq<string>, path: seq<nat>)
    requires ChainFrom(reg, h, path)
    ensures var offered := SwiftClient(reg, h, foods, path);
      forall i :: 0 <= i < |offered| ==> offered[i] == Handle(reg, Swift, h, foods[i], path)
  {
    if |foods| > 0 && Handle(reg, Swift, h, foods[0], path).Some? {
      SwiftClientAnswers(reg, h, foods[1..], path);
      var offered := SwiftClient(reg, h, foods, path);
      var rest := SwiftClient(reg, h, foods[1..], path);
      assert offered == [Handle(reg, Swift, h, foods[0], path)] + rest;
      forall i | 1 <= i < |offered|
        ensures offered[i] == Handle(reg, Swift, h, foods[i], path)
      {
        assert offered[i] == rest[i - 1] && foods[1..][i - 1] == foods[i];
      }
    }
  }

  /** Once a food is left untouched, no later food is offered: the client
      offers exactly the foods up to and including the first unhandled one. */
  lemma {:induction false} SwiftClientStopsAtFirstMiss(reg: Registry, h: nat, foods: seq<string>, path: seq<nat>, k: nat)
    requires ChainFrom(reg, h, path)
    requires k < |foods|
    requires Handle(reg, Swift, h, foods[k], path).None?
    requires forall i :: 0 <= i < k ==> Handle(reg, Swift, h, foods[i], path).Some?
    ensures |SwiftClient(reg, h, foods, path)| == k + 1
  {
    var offered := SwiftClient(reg, h, foods, path);
    if k == 0 {
      assert offered == [Handle(reg, Swift, h, foods[0], path)];
    } else {
      var rest := foods[1..];
      assert Handle(reg, Swift, h, foods[0], path).Some?;
      assert offered == [Handle(reg, Swift, h, foods[0], path)] + SwiftClient(reg, h, rest, path);
      assert rest[k - 1] == foods[k];
      forall i | 0 <= i < k - 1
        ensures Handle(reg, Swift, h, rest[i], path).Some?
      {
        assert rest[i] == foods[i + 1];
      }
      SwiftClientStopsAtFirstMiss(reg, h, rest, path, k - 1);
    }
  }

  /** The demo's objects: a monkey (0), a squirrel (1) and a dog (2), not
      yet linked. */
  const Animals: Registry := map[0 := NewHandler(Monkey), 1 := NewHandler(Squirrel), 2 := NewHandler(Dog)]

  /** `monkey.set_next(squirrel).set_next(dog)`. */
  function DemoChain(): Registry {
    var (withSquirrel, squirrel) := SetNext(Animals, 0, 1);
    SetNext(withSquirrel, squirrel, 2).0
  }

  /** The chained calls build monkey → squirrel → dog, and entering at the
      squirrel gives the sub-chain squirrel → dog. */
  lemma DemoChainShape()
    ensures ChainFrom(DemoChain(), 0, [0, 1, 2])
    ensures ChainFrom(DemoChain(), 1, [1, 2])
  {
  }

  /** On the full chain the squirrel takes the nut and the monkey the
      banana; nobody takes the coffee. */
  lemma DemoFullChain(lang: Language)
    ensures Handle(DemoChain(), lang, 0, "Nut", [0, 1, 2]) == Some(Message(lang, Squirrel, "Nut"))
    ensures Handle(DemoChain(), lang, 0, "Banana", [0, 1, 2]) == Some(Message(lang, Monkey, "Banana"))
    ensures Handle(DemoChain(), lang, 0, "Cup of coffee", [0, 1, 2]).None?
  {
    DemoChainShape();
    var reg := DemoChain();
    assert reg[0].animal == Monkey && reg[1].animal == Squirrel && reg[2].animal == Dog;
    MonkeySquirrelDog(reg, lang);
  }

  /** The answers of any chain monkey → squirrel → dog. */
  lemma MonkeySquirrelDog(reg: Registry, lang: Language)
    requires ChainFrom(reg, 0, [0, 1, 2]) && ChainFrom(reg, 1, [1, 2]) && 0 in reg && 1 in reg && 2 in reg
    requires reg[0].animal == Monkey && reg[1].animal == Squirrel && reg[2].animal == Dog
    ensures Handle(reg, lang, 0, "Nut", [0, 1, 2]) == Some(Message(lang, Squirrel, "Nut"))
    ensures Handle(reg, lang, 0, "Banana", [0, 1, 2]) == Some(Message(lang, Monkey, "Banana"))
    ensures Handle(reg, lang, 0, "Cup of coffee", [0, 1, 2]).None?
  {
    Forward(reg, lang, 0, "Nut", [0, 1, 2]);
    assert [0, 1, 2][1..] == [1, 2];
    CoffeeUntaken(reg, lang);
  }

  lemma CoffeeUntaken(reg: Registry, lang: Language)
    requires ChainFrom(reg, 0, [0, 1, 2]) && 0 in reg && 1 in reg && 2 in reg
    requires reg[0].animal == Monkey && reg[1].animal == Squirrel && reg[2].animal == Dog
    ensures Handle(reg, lang, 0, "Cup of coffee", [0, 1, 2]).None?
  {
    var path := [0, 1, 2];
    assert forall i :: 0 <= i < |path| ==> Token(reg[path[i]].animal) != "Cup of coffee";
  }

  /** A handler whose token differs from the request answers what its
      successor answers. */
  lemma Forward(reg: Registry, lang: Language, h: nat, request: string, path: seq<nat>)
    requires ChainFrom(reg, h, path) && |path| > 1
    requires Token(reg[h].animal) != request
    ensures ChainFrom(reg, path[1], path[1..])
    ensures Handle(reg, lang, h, request, path) == Handle(reg, lang, path[1], request, path[1..])
  {
    ChainNext(reg, h, path);
  }

  /** Entering at the squirrel, the monkey is never reached: the nut is
      taken and the banana is left untouched. */
  lemma DemoSubchain(lang: Language)
    ensures Handle(DemoChain(), lang, 1, "Nut", [1, 2]) == Some(Message(lang, Squirrel, "Nut"))
    ensures Handle(DemoChain(), lang, 1, "Banana", [1, 2]).None?
  {
    DemoChainShape();
    var reg := DemoChain();
    assert reg[1].animal == Squirrel && reg[2].animal == Dog;
  }

  /** Ruby's answer has no trailing period. */
  lemma RubyMonkeyAnswer()
    ensures Message(Ruby, Monkey, "Banana") == "Monkey: I'll eat the Banana"
  {
  }
}

/** The Java middleware chain: `linkWith` and `checkNext` of the abstract
    base class. The checks themselves are abstract there and become a
    parameter here. */
module Middleware {
  import opened Wrappers

  /** The successor of each middleware object; an object that is not a key
      has a null successor. */
  type Links = map<nat, nat>

  /** `linkWith(next)`: makes `next` the successor of `self`, replacing any
      earlier one, and returns `next`. */
  function LinkWith(links: Links, self: nat, next: Option<nat>): (r: (Links, Option<nat>))
    ensures r.1 == next
    ensures next.Some? ==> self in r.0 && r.0[self] == next.value
    ensures next.None? ==> self !in r.0
    ensures forall m :: m != self ==> (m in r.0 <==> m in links) && (m in links ==> r.0[m] == links[m])
  {
    match next
    case Some(n) => (links[self := n], next)
    case None => (links - {self}, next)
  }

  /** Linking twice: only the last link counts. */
  lemma LinkWithLastWins(links: Links, self: nat, a: Option<nat>, b: Option<nat>)
    ensures LinkWith(LinkWith(links, self, a).0, self, b).0 == LinkWith(links, self, b).0
  {
  }

  /** `checkNext`: true at the end of the chain, otherwise exactly the
      successor's `check` on the same email and password. */
  function CheckNext(links: Links, self: nat, email: string, password: string,
                     check: (nat, string, string) -> bool): (ok: bool)
    ensures self !in links ==> ok
    ensures self in links ==> ok == check(links[self], email, password)
  {
    if self !in links then true else check(links[self], email, password)
  }

  /** After `linkWith`, `checkNext` consults the object just linked, or
      passes when the link was cleared. */
  lemma CheckNextAfterLink(links: Links, self: nat, next: Option<nat>, email: string, password: string,
                           check: (nat, string, string) -> bool)
    ensures var linked := LinkWith(links, self, next).0;
      CheckNext(linked, self, email, password, check) ==
        match next
        case None => true
        case Some(n) => check(n, email, password)
  {
  }
}
