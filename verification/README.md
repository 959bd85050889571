# Design-pattern demos: a Dafny model of their stateful cores

The repository teaches design patterns through small demo programs, one per
pattern and language. Most demos only print fixed strings. Nine patterns
hold real logic: state, decisions or data structures. This project models
those nine in Dafny and proves what the demos promise about them.

- **Flyweight.** A get-or-insert cache keyed by the sorted, `_`-joined
  shared state.
- **Chain of Responsibility.** A singly linked list of handlers. Each
  handler accepts one food and forwards every other request.
- **Memento.** Snapshots of an originator's state, and a caretaker that
  keeps them as a last-in-first-out history.
- **Composite.** A tree of leaves and composites, its rendering, and
  `add`/`remove` with each language's own behaviour.
- **Observer.** A subject's subscriber list, in-order notification, and the
  threshold tests that decide which observer reacts.
- **State.** A two-state machine whose states link back to their context.
- **Builder.** A product built from parts, and a director that runs fixed
  step sequences.
- **Strategy.** Ascending and descending sorting behind one interface,
  including the C++ in-place swap loop.
- **Iterator.** Front-to-back and back-to-front traversal of an
  append-only collection.

Each pattern is one module (`flyweight.dfy`, `chain.dfy`, `memento.dfy`,
`composite.dfy`, `observer.dfy`, `state.dfy`, `builder.dfy`, `strategy.dfy`,
`iterator.dfy`). Where the language versions of a pattern behave
differently, an operation takes a `Language` parameter and follows that
language's code. Four shared modules support them:

- `Wrappers`: `Option` and `Result`.
- `Languages`: the language tag.
- `Seqs`: reversal, joining, flattening and element removal.
- `Ordering`: total orders, sortedness and a reference insertion sort.

`Ordering.SortedUnique` shows that under a total order a sequence has
exactly one sorted arrangement. So the reference sort stands for Python's
`sorted`, Ruby's `sort`, C++'s `std::sort` and Swift's `sorted()`, whatever
algorithm each library uses.

Object identity is modelled by numbers. The chain's handlers, the
composite's components, the observers and the state objects are numbered.
A store maps each number to the object's fields, and operations return the
updated store. Recursion over linked structures is bounded by a ghost
witness:
- the chain's handler path, so the chain is finite;
- a rank map for the composite tree, so it has no cycles.

Randomness and clocks are parameters: the random draws, the generated
strings and the date strings.

## Model

| member | source | states |
|---|---|---|
| Flyweight.GetKeyIsSortedJoin | Python/src/Flyweight/Conceptual/main.py:45-50 | The key is the `_`-join of any sorted list holding the same values as the state. There is only one such list. |
| Flyweight.GetKeyOrderIndependent | Ruby/src/flyweight/conceptual/main.rb:45-47 | Two states holding the same values in any order get the same key, so they share a flyweight. |
| Flyweight.Register | Python/src/Flyweight/Conceptual/main.py:62 | Storing a new flyweight keeps the store valid. Only the state's key changes, and it now maps to a new object. A new key goes to the end of the iteration order; a replaced key keeps its place. |
| Flyweight.GetFlyweight | Python/src/Flyweight/Conceptual/main.py:52-66 | The result is always the entry stored under the state's key. On a hit the store is unchanged. On a miss: exactly one entry is added, holding a new object built from the state; the size grows by one; other entries are untouched; validity is kept. |
| Flyweight.AtMostOneInstance | Ruby/src/flyweight/conceptual/main.rb:54-65 | Two requests with equal keys return the same object, and the second request leaves the store as the first left it. |
| Flyweight.RegisterAllKeys | Python/src/Flyweight/Conceptual/main.py:41-43 | The constructor's loop adds exactly the keys of the initial states to the dictionary. |
| Flyweight.RegisterAllValid | Ruby/src/flyweight/conceptual/main.rb:33-38 | The constructor's loop keeps the dictionary valid: every stored key is listed once, and every object was built by this store. |
| Flyweight.RegisterAllLastWins | Python/src/Flyweight/Conceptual/main.py:41-43 | When several initial states share a key, the entry holds the last of them. |
| Flyweight.NewPythonFactory | Python/src/Flyweight/Conceptual/main.py:39-43 | A new Python factory adds to the one class-level dictionary. Keys registered by earlier factories remain, and the initial states' keys are added. |
| Flyweight.NewRubyFactory | Ruby/src/flyweight/conceptual/main.rb:33-38 | A new Ruby factory starts from an empty dictionary. It holds exactly the distinct keys of the initial states, one entry each, listed once each. |
| Flyweight.ListFlyweights | Ruby/src/flyweight/conceptual/main.rb:67-70 | The count reported equals the number of stored flyweights and of listed keys. The keys listed are exactly the stored ones. |
| Flyweight.KeyOfThree | Python/src/Flyweight/Conceptual/main.py:50 | A three-value state whose values sort as a, b, c has key `a_b_c`, whatever their original order. |
| Flyweight.DemoKeyChevrolet | Python/src/Flyweight/Conceptual/main.py:92 | The Chevrolet record's key is `Camaro2018_Chevrolet_pink`. |
| Flyweight.DemoKeyC300 | Python/src/Flyweight/Conceptual/main.py:93 | The C300 record's key is `C300_Mercedes Benz_black`. |
| Flyweight.DemoKeyC500 | Python/src/Flyweight/Conceptual/main.py:94 | The C500 record's key is `C500_Mercedes Benz_red`. |
| Flyweight.DemoKeyM5 | Python/src/Flyweight/Conceptual/main.py:95 | The M5 record's key is `BMW_M5_red`. |
| Flyweight.DemoKeyX6 | Python/src/Flyweight/Conceptual/main.py:96 | The X6 record's key is `BMW_X6_white`. |
| Flyweight.DemoKeyX1 | Python/src/Flyweight/Conceptual/main.py:104-105 | The X1 record's key is `BMW_X1_red`, which differs from all five seeded keys. |
| Flyweight.SeededWithFiveKeys | Ruby/src/flyweight/conceptual/main.rb:90-96 | A factory seeded with five records with pairwise different keys holds five flyweights. |
| Flyweight.ReuseThenGrow | Ruby/src/flyweight/conceptual/main.rb:90-106 | In the demo, requesting a seeded record reuses its flyweight and leaves the store unchanged. A record with a new key then adds a sixth flyweight holding that record. |
| Chain.Message | C++/src/ChainOfResponsibility/Conceptual/main.cc:56-82 | A handler's answer is never empty. C++ and Swift end it with ".\n"; Ruby and Python do not. |
| Chain.SetNext | C++/src/ChainOfResponsibility/Conceptual/main.cc:35-41 | `SetNext` stores its argument as the receiver's successor and returns the argument, not the receiver. No other handler changes. |
| Chain.SetNextLastWins | Swift/Sources/ChainOfResponsibility/Conceptual/Example.swift:23-30 | Setting a successor twice leaves only the second one. |
| Chain.Handle | Swift/Sources/ChainOfResponsibility/Conceptual/Example.swift:32-76 | The answer is nil exactly when no handler on the chain accepts the request. A handler that accepts the request answers with its own message and never consults its successor. |
| Chain.HandleFindsFirst | C++/src/ChainOfResponsibility/Conceptual/main.cc:42-82 | Every answer is the message of the first handler along the chain whose food equals the request. |
| Chain.HandleCpp | C++/src/ChainOfResponsibility/Conceptual/main.cc:42-48 | The C++ result is the empty string exactly when no handler accepts the request. Otherwise it is the first accepting handler's message. |
| Chain.SwiftClient | Swift/Sources/ChainOfResponsibility/Conceptual/Example.swift:84-99 | The client offers foods in order. Every answer but the last is present, and when the client stops early its last answer is missing. |
| Chain.SwiftClientAnswers | Swift/Sources/ChainOfResponsibility/Conceptual/Example.swift:88-97 | Each food offered gets the chain's own answer to it. |
| Chain.SwiftClientStopsAtFirstMiss | Swift/Sources/ChainOfResponsibility/Conceptual/Example.swift:92-95 | The client offers exactly the foods up to and including the first one nobody takes. |
| Chain.DemoChainShape | C++/src/ChainOfResponsibility/Conceptual/main.cc:108 | The chained `SetNext` calls build monkey → squirrel → dog. Entering at the squirrel gives squirrel → dog. |
| Chain.DemoFullChain | Python/src/ChainOfResponsibility/Conceptual/main.py:89-108 | On the full chain the squirrel takes the nut and the monkey the banana. The coffee is left untouched. |
| Chain.MonkeySquirrelDog | Python/src/ChainOfResponsibility/Conceptual/main.py:58-79 | On any monkey → squirrel → dog chain, "Nut" and "Banana" are answered by the squirrel and the monkey, and "Cup of coffee" by nobody. |
| Chain.CoffeeUntaken | C++/src/ChainOfResponsibility/Conceptual/main.cc:42-48 | A request no handler accepts falls off the end of the chain unanswered. |
| Chain.DemoSubchain | C++/src/ChainOfResponsibility/Conceptual/main.cc:115-118 | Entering at the squirrel never reaches the monkey. The nut is taken and the banana is left untouched. |
| Chain.RubyMonkeyAnswer | Ruby/src/chain_of_responsibility/conceptual/main.rb:64-70 | Ruby's monkey answers "Monkey: I'll eat the Banana", with no trailing period. |
| Middleware.LinkWith | Java/src/refactoring_guru/chain_of_responsibility/example/middleware/Middleware.java:12-15 | `linkWith` makes its argument the receiver's successor (a null argument clears it) and returns the argument. No other link changes. |
| Middleware.LinkWithLastWins | Java/src/refactoring_guru/chain_of_responsibility/example/middleware/Middleware.java:13 | Linking twice leaves only the last link. |
| Middleware.CheckNext | Java/src/refactoring_guru/chain_of_responsibility/example/middleware/Middleware.java:27-30 | At the end of the chain the check passes. Otherwise it is exactly the successor's check on the same email and password. |
| Middleware.CheckNextAfterLink | Java/src/refactoring_guru/chain_of_responsibility/example/middleware/Middleware.java:12-30 | After `linkWith(next)`, `checkNext` consults exactly `next`, or passes when `next` is null. |
| Memento.Prefix | Python/src/Memento/Conceptual/main.py:94 | A prefix is at most n characters long and is the start of the string. |
| Memento.Suffix | Swift/Sources/Memento/Conceptual/Example.swift:69 | A suffix is at most n characters long and is the end of the string. |
| Memento.Save | C++/src/Memento/Conceptual/main.cc:102-104 | A snapshot holds the originator's current state and the time it was taken. |
| Memento.Restore | Swift/Sources/Memento/Conceptual/Example.swift:41-45 | Restoring takes the snapshot's state. A snapshot that is not a `ConcreteMemento` leaves the originator as it was. |
| Memento.RestoreSave | C++/src/Memento/Conceptual/main.cc:102-111 | Restoring a saved snapshot brings back the state at save time, whatever the originator did in between. |
| Memento.RandomString | C++/src/Memento/Conceptual/main.cc:70-82 | A generated string has one character per draw, each drawn from the 62 alphanumerics. |
| Memento.DoSomething | Python/src/Memento/Conceptual/main.py:33-45 | The state becomes the generated string, whatever it was before. |
| Memento.GetName | C++/src/Memento/Conceptual/main.cc:49-51 | A snapshot's name is its date, " / (", at most the first nine characters of its state, then "...)". |
| Memento.GetNameShowsNinePrefix | Ruby/src/memento/conceptual/main.rb:86-88 | Snapshots taken at the same time whose states agree on the first nine characters have the same name. |
| Memento.SwiftName | Swift/Sources/Memento/Conceptual/Example.swift:69 | The Swift name is the state, a space, then at most eight characters taken from the last fourteen of the date's description. |
| Memento.SwiftNameShowsTime | Swift/Sources/Memento/Conceptual/Example.swift:69 | On a 25-character date description, those characters are the time of day, characters 11 to 18. |
| Memento.Backup | C++/src/Memento/Conceptual/main.cc:136-139 | `Backup` grows the history by exactly one snapshot of the current state, on top. Earlier snapshots and the originator are unchanged. |
| Memento.Undo | C++/src/Memento/Conceptual/main.cc:140-152 | On an empty history `Undo` changes nothing. Otherwise it removes exactly the latest snapshot and restores the originator from it. |
| Memento.UndoRollsBack | Python/src/Memento/Conceptual/main.py:111-122 | A backup, a change to the originator and an undo give back the caretaker as it was. |
| Memento.ConcreteKept | Swift/Sources/Memento/Conceptual/Example.swift:84-96 | Backup and undo keep a history of concrete snapshots concrete. |
| Memento.UndoTimesIsLifo | Ruby/src/memento/conceptual/main.rb:104-116 | Last in, first out: after n undos the originator holds the n-th most recent snapshot's state, and exactly the older snapshots remain. |
| Memento.DemoRollback | C++/src/Memento/Conceptual/main.cc:164-178 | In the demo (three backups, each followed by a random change, then two undos), the originator ends with the first random state. One snapshot, of the initial state, is left. |
| Composite.Add | C++/src/Composite/Conceptual/main.cc:88-91 | A composite appends the child at the end and becomes its parent. No other field of the two records and no other component changes. On a leaf, `add` does nothing in C++, Swift and Python and raises in Ruby. |
| Composite.Remove | Python/src/Composite/Conceptual/main.py:100-102 | Each language's `remove`. C++ drops every occurrence. Python drops the first occurrence, or raises when the child is absent. Both clear the child's parent and change no other field or component. Swift does nothing. Ruby always fails. |
| Composite.AddThenRemove | C++/src/Composite/Conceptual/main.cc:88-100 | In C++ and Python, removing a component just added gives back the composite's former children and clears the parent. |
| Composite.AddKeepsRanked | Swift/Sources/Composite/Conceptual/Example.swift:70-74 | Adding a component of lower rank keeps the structure a finite tree. |
| Composite.Render | Python/src/Composite/Conceptual/main.py:115-118 | A leaf renders as "Leaf"; a composite's text is at least as long as "Branch()". |
| Composite.CompositeIsWrapped | Ruby/src/composite/conceptual/main.rb:111-115 | A composite's text starts with "Branch(" and ends with ")". |
| Composite.ChildResults | Swift/Sources/Composite/Conceptual/Example.swift:88-91 | The children's results come in child order, one per child. |
| Composite.EmptyCompositeRender | C++/src/Composite/Conceptual/main.cc:110-120 | A composite without children renders as "Branch()". |
| Composite.TwoChildren | Ruby/src/composite/conceptual/main.rb:111-115 | A composite with two children puts exactly one separator between their results. |
| Composite.RenderAsWritten | C++/src/Composite/Conceptual/main.cc:110-120 | The C++ `Operation` as written renders a leaf as "Leaf". |
| Composite.AsWrittenAgrees | C++/src/Composite/Conceptual/main.cc:110-120 | When no composite holds its last child twice, the C++ loop gives the same text as the "+"-joined rendering. |
| Composite.LoopAgrees | C++/src/Composite/Conceptual/main.cc:112-118 | The C++ loop puts "+" between every pair of neighbouring results when the last child occurs only once. |
| Composite.AsWrittenDropsSeparator | C++/src/Composite/Conceptual/main.cc:113-117 | A composite holding one leaf twice renders as "Branch(LeafLeaf)" in C++, where the intended text is "Branch(Leaf+Leaf)". |
| Composite.TwiceAsWritten | C++/src/Composite/Conceptual/main.cc:113-117 | In C++, the first occurrence of a doubled last child gets no "+". |
| Composite.ClientCode2 | C++/src/Composite/Conceptual/main.cc:136-143 | The second component is added to the first only when the first is a composite. No component is created or dropped. |
| Composite.DemoTreeRanked | C++/src/Composite/Conceptual/main.cc:158-169 | The demo tree is a finite tree. |
| Composite.DemoBranches | C++/src/Composite/Conceptual/main.cc:158-167 | The demo's branches render as "Branch(Leaf+Leaf)" and "Branch(Leaf)". |
| Composite.DemoTreeRender | Python/src/Composite/Conceptual/main.py:151-164 | The demo tree renders as "Branch(Branch(Leaf+Leaf)+Branch(Leaf))" with "+" separators. |
| Composite.DemoTreeRenderCpp | C++/src/Composite/Conceptual/main.cc:158-171 | The C++ loop as written gives that same text for the demo tree. |
| Composite.SwiftTreeRender | Swift/Sources/Composite/Conceptual/Example.swift:123-137 | The Swift demo tree renders with spaces as "Branch(Branch(Leaf Leaf) Branch(Leaf Leaf))". |
| Observer.Attach | Python/src/Observer/Conceptual/main.py:65-67 | `attach` appends the observer at the end, even when it is already subscribed. The state is unchanged. |
| Observer.Detach | Swift/Sources/Observer/Conceptual/Example.swift:48-53 | Each language's `detach`. Python and Swift remove the first occurrence and keep the other subscribers in order; Python raises when the observer is absent, Swift changes nothing. Ruby removes every occurrence, keeps the rest in order, and changes nothing when the observer is absent. |
| Observer.DetachUndoesAttach | Ruby/src/observer/conceptual/main.rb:59-67 | In every language, detaching an observer just attached for the first time gives back the subject as it was. |
| Observer.SwiftExactlyOne | Swift/Sources/Observer/Conceptual/Example.swift:84-100 | In Swift, exactly one of A (below 3) and B (3 or more) reacts to any state. |
| Observer.PythonRubyCoverage | Python/src/Observer/Conceptual/main.py:120-129 | In Python and Ruby, every state makes A or B react, and both react exactly at 0 and 2. |
| Observer.Notify | Python/src/Observer/Conceptual/main.py:76-83 | Notification reaches every subscriber. The ones that react are reported, and only those. |
| Observer.NotifyInOrder | Swift/Sources/Observer/Conceptual/Example.swift:56-59 | Notification follows list order: the reactions to two lists joined are the reactions to each list, in order. |
| Observer.SomeBusinessLogic | Ruby/src/observer/conceptual/main.rb:81-86 | The state becomes the draw, which lies in 0..9 (Python, Swift) or 0..10 (Ruby), and the subscribers are notified of it. |
| Observer.SomeoneAlwaysReacts | Python/src/Observer/Conceptual/main.py:85-97 | With A and B subscribed, every possible draw makes at least one of them react. |
| Observer.DemoDetachOne | Python/src/Observer/Conceptual/main.py:135-148 | In the demo, after two rounds and the detach, only the remaining observer is subscribed. The last round notifies it alone, and it reacts exactly when its threshold admits the draw. |
| Observer.TwoRounds | Ruby/src/observer/conceptual/main.rb:126-135 | Two rounds after attaching A then B leave both subscribed, in that order. |
| Observer.DetachFromPair | Swift/Sources/Observer/Conceptual/Example.swift:112-117 | Detaching one of two distinct subscribers leaves exactly the other. |
| Observer.NotifyOne | Ruby/src/observer/conceptual/main.rb:72-75 | A single subscriber is notified alone. |
| Observer.LastRound | Swift/Sources/Observer/Conceptual/Example.swift:118 | A round with one subscriber reports it exactly when it reacts to the draw. |
| Observer.PythonAttach | Python/src/Observer/Conceptual/main.py:59-67 | Attaching through any Python subject appends to the one shared class-level list. The subjects' states are unchanged. |
| Observer.PythonSubscriptionShared | Python/src/Observer/Conceptual/main.py:59 | An observer attached through one Python subject is notified by every other subject too. |
| State.Spawn | Python/src/State/Conceptual/main.py:83 | A new state object is added at the end, unlinked. Every context keeps its state. |
| State.TransitionTo | Ruby/src/state/conceptual/main.rb:25-29 | The context now holds the given state, and that state links back to it. No other context or state changes. |
| State.TransitionKeepsLinked | Python/src/State/Conceptual/main.py:28-35 | Moving a context to a state no other context holds keeps every back-link intact. |
| State.NewContext | Swift/Sources/State/Conceptual/Example.swift:16-26 | A new context starts in a new state of the given kind, linked back to it. Python refuses the abstract base state. |
| State.NewContextKeepsLinked | Python/src/State/Conceptual/main.py:25-26 | Creating a context keeps the world linked. |
| State.Goto | Swift/Sources/State/Conceptual/Example.swift:66-70 | A state moves its linked context to a new state of the next kind. Without a link Swift does nothing and Python and Ruby fail. |
| State.Handle | Ruby/src/state/conceptual/main.rb:52-87 | The base state does nothing in Swift and raises in Ruby. A request a concrete state ignores changes nothing. |
| State.Request | Swift/Sources/State/Conceptual/Example.swift:29-35 | In a linked world, a request on a concrete state always succeeds. |
| State.RequestFollowsTable | Python/src/State/Conceptual/main.py:79-96 | The context moves by the table: A to B on request 1, B to A on request 2, any other pair stays put. The world stays linked, and other contexts keep their states. |
| State.IgnoredRequestIsNoOp | Swift/Sources/State/Conceptual/Example.swift:72-83 | Request 2 in A and request 1 in B leave the whole world unchanged. |
| State.DemoAToBToA | Python/src/State/Conceptual/main.py:102-104 | In the demo the context goes A, B, A. Three state objects are created, and the last is current and linked. |
| State.RoundTrip | Ruby/src/state/conceptual/main.rb:91-93 | From a lone context in A, requests 1 then 2 go to B and back to A. |
| Builder.Produce | Swift/Sources/Builder/Conceptual/Example.swift:32-42 | A step appends exactly its part at the end, keeping earlier parts. Ruby's base builder raises instead. |
| Builder.ProduceAll | Ruby/src/builder/conceptual/main.rb:62-72 | Running steps fails exactly on the base builder with at least one step. A concrete builder stays concrete. |
| Builder.PartNames | Ruby/src/builder/conceptual/main.rb:62-72 | One part name per step, in step order. |
| Builder.ProduceAllAppends | Swift/Sources/Builder/Conceptual/Example.swift:102-104 | A concrete builder ends with exactly the parts of the steps appended, in order. |
| Builder.Retrieve | Ruby/src/builder/conceptual/main.rb:56-60 | Retrieving returns the parts built so far and leaves the builder empty. |
| Builder.ProductsAreIndependent | Swift/Sources/Builder/Conceptual/Example.swift:57-61 | A retrieved product holds exactly the parts produced since the previous retrieval. |
| Builder.Direct | Ruby/src/builder/conceptual/main.rb:104-106 | A director runs its steps on its builder. Without a builder, Swift does nothing and Ruby fails. |
| Builder.BuildMinimal | Swift/Sources/Builder/Conceptual/Example.swift:81-83 | The minimal product adds part A only. |
| Builder.BuildFull | Ruby/src/builder/conceptual/main.rb:124-128 | The full product adds parts A, B and C, in that order. |
| Builder.ListParts | Swift/Sources/Builder/Conceptual/Example.swift:106-108 | The listing is "Product parts: " followed by the parts joined with ", ". Swift ends it with a newline. |
| Builder.JoinedPartsGrow | Ruby/src/builder/conceptual/main.rb:87-93 | Producing a part adds ", " and the new part's name to the joined parts, or starts them when the product was empty. |
| Builder.RubyListingAppends | Ruby/src/builder/conceptual/main.rb:87-93 | For a non-empty product, the listing after one more part is the old listing, ", " and the new part's name. |
| Builder.SwiftClientProducts | Swift/Sources/Builder/Conceptual/Example.swift:116-134 | The Swift client builds [PartA1], then [PartA1, PartB1, PartC1], then the custom [PartA1, PartC1]. |
| Builder.RubyCustomProduct | Ruby/src/builder/conceptual/main.rb:153-155 | The Ruby client's custom product is [PartA1, PartB1]. |
| Builder.SwiftFullListing | Swift/Sources/Builder/Conceptual/Example.swift:106-108 | The full product lists as "Product parts: PartA1, PartB1, PartC1" and a newline. |
| Strategy.SetStrategy | Ruby/src/strategy/conceptual/main.rb:26-28 | Setting a strategy makes it the one the next business logic uses. |
| Strategy.ReverseBySwaps | C++/src/Strategy/Conceptual/main.cc:102-105 | The swap loop, run for half the length, reverses the string in place. |
| Strategy.CppDoAlgorithm | C++/src/Strategy/Conceptual/main.cc:82-108 | The result holds exactly the characters of the concatenated input. A sorts them ascending; B gives A's result reversed, which is descending. |
| Strategy.DoAlgorithm | Ruby/src/strategy/conceptual/main.rb:54-77 | The result is a permutation of the data. The base strategy, which exists only in Ruby, always raises. |
| Strategy.StrategiesAreOpposite | Swift/Sources/Strategy/Conceptual/Example.swift:52-61 | A's result is ascending and B's is descending. B is A's result reversed, and Swift's `sorted(by: >)` equals Ruby's `sort.reverse`. |
| Strategy.OrderOfDataIrrelevant | Ruby/src/strategy/conceptual/main.rb:54-77 | Every strategy's result depends only on the data's contents, not on their order. |
| Strategy.BusinessLogic | Ruby/src/strategy/conceptual/main.rb:32-40 | The business logic fails exactly when Ruby's base strategy is set. |
| Strategy.BusinessLogicJoinsSorted | Ruby/src/strategy/conceptual/main.rb:32-40 | For any data, A reports the ascending arrangement joined with ",", and B the ascending arrangement reversed, joined the same way. |
| Strategy.BusinessLogicIgnoresOrder | Swift/Sources/Strategy/Conceptual/Example.swift:30-35 | The reported text depends only on the data's contents, whatever the strategy. |
| Strategy.LettersAscending | Swift/Sources/Strategy/Conceptual/Example.swift:33 | The demo letters a to e are already ascending. |
| Strategy.DescendingIsReversedAscending | Ruby/src/strategy/conceptual/main.rb:75-77 | B's result is the ascending arrangement reversed, in both Swift and Ruby. |
| Strategy.AscendingKeepsDemoLetters | Swift/Sources/Strategy/Conceptual/Example.swift:73-75 | Under A the demo letters are listed in their given order. |
| Strategy.DescendingReversesDemoLetters | Swift/Sources/Strategy/Conceptual/Example.swift:77-79 | After switching to B the demo letters are listed in reverse. |
| Strategy.DemoOutput | Ruby/src/strategy/conceptual/main.rb:83-90 | The Swift and Ruby demos print "a,b,c,d,e", then "e,d,c,b,a". |
| Strategy.CppAscendingResult | C++/src/Strategy/Conceptual/main.cc:82-91 | The only ascending arrangement of the letters of "aecbd" is "abcde". |
| Strategy.CppDemo | C++/src/Strategy/Conceptual/main.cc:115-124 | The C++ demo gives "abcde" under A and "edcba" under B. |
| Iterator.Append | Swift/Sources/Iterator/Conceptual/Example.swift:25-27 | `append` puts the item at the end and keeps the earlier items. |
| Iterator.MakeIterator | Swift/Sources/Iterator/Conceptual/Example.swift:32-34 | A words iterator starts at the first item. |
| Iterator.Next | Swift/Sources/Iterator/Conceptual/Example.swift:48-51 | `next` yields the item at the index exactly while the index is in range, and nil after. The index always moves on. |
| Iterator.ExhaustedStaysExhausted | Swift/Sources/Iterator/Conceptual/Example.swift:48-51 | Once past the end, `next` keeps answering nil. |
| Iterator.Traverse | Swift/Sources/Iterator/Conceptual/Example.swift:81-85 | A front-to-back traversal yields every item once, in insertion order. |
| Iterator.MakeReverseIterator | Swift/Sources/Iterator/Conceptual/Example.swift:68-69 | A numbers iterator starts at the last item. |
| Iterator.NextBack | Swift/Sources/Iterator/Conceptual/Example.swift:71-74 | The numbers iterator yields the item at the index while the index is not negative, and nil after. The index always moves down. |
| Iterator.TraverseBackward | Swift/Sources/Iterator/Conceptual/Example.swift:68-75 | A numbers traversal yields every item once, last appended first. An empty collection yields nothing. |
| Iterator.Each | Ruby/src/iterator/conceptual/main.rb:28-32 | `each` yields the items in insertion order, or exactly reversed for the reverse iterator. It never sorts. |
| Iterator.RubyMatchesSwift | Ruby/src/iterator/conceptual/main.rb:48-55 | Ruby's forward and reverse iterators give the same sequences as the Swift traversals, and one is the other reversed. |
| Iterator.AppendThenTraverse | Ruby/src/iterator/conceptual/main.rb:58-60 | After `add_item`, the new item comes last forward and first in reverse. |
| Iterator.Demo | Swift/Sources/Iterator/Conceptual/Example.swift:92-112 | The demos yield "First", "Second", "Third", and then 3, 2, 1. |
| Seqs.RemoveFirst | Python/src/Observer/Conceptual/main.py:69-70 | The first occurrence of the element is the one dropped, and the elements before and after it keep their order. When the element is absent nothing changes. |
| Seqs.RemoveAll | Ruby/src/observer/conceptual/main.rb:65-67 | `Array#delete` removes every occurrence and keeps every other element. |
| Seqs.RemoveAllConcat | Ruby/src/observer/conceptual/main.rb:65-67 | Removal works piece by piece over a concatenation, so the kept elements stay in their original order. |
| Seqs.RemoveAllMultiset | C++/src/Composite/Conceptual/main.cc:97-98 | Removing every occurrence keeps every other element with its multiplicity. |
| Seqs.ReverseInvolutive | Ruby/src/iterator/conceptual/main.rb:29 | Reversing twice gives back the collection. |
| Seqs.ConcatLength | C++/src/Strategy/Conceptual/main.cc:84-87 | The concatenation's length is the sum of the input lengths. |
| Ordering.SortIsCanonical | Python/src/Flyweight/Conceptual/main.py:50 | Any sorted permutation of a sequence is its sort. |
| Ordering.SortPermutationInvariant | Ruby/src/flyweight/conceptual/main.rb:46 | Permutations of one another sort to the same sequence. |
| Ordering.SortDescendingIsReverse | Ruby/src/strategy/conceptual/main.rb:75-77 | Sorting by the converse order gives the ascending sort reversed. |
| Ordering.StrLeIsTotalOrder | Swift/Sources/Strategy/Conceptual/Example.swift:52-54 | Lexicographic string comparison is a total order. |

## Left out

- Printing, and the `__main__`, XCTest and top-level drivers. The model covers the values and states the demos compute, not the order of their console output.
- Randomness and clocks are parameters. These are `rand`, `randrange`, `arc4random_uniform`, `sample`, `UUID`, `ctime`, `datetime.now` and `Date()`. A draw is a number within the source's range; a generated string or date is any string.
- `Memento.RandomString` covers the C++ generator only. The Python, Ruby and Swift generators appear as the arbitrary string given to `Memento.DoSomething`.
- The exception-retry branch of `Undo` (restore failing, then undoing again) is left out. No restore in these demos throws.
- The Flyweight `operation`, which renders JSON through library calls.
- The Swift observer's `detach` compares identity, Python's `remove` and Ruby's `delete` compare equality. Observers are compared by identity number in both cases, which matches these demos, since their observers define no equality of their own.
- Swift's weak reference (the state's `context`) and C++ memory management (`delete`, the uninitialised `parent_` of a C++ component) are left out.
- `Strategy.DoAlgorithm` and `Strategy.BusinessLogic` take the base strategy only in Ruby. Swift's `Strategy` is a protocol with no body of its own, so there is no base object to call.
- The C++ strategy's context with no strategy (the default `nullptr`) is left out, because the demo always sets a strategy.
- `Strategy.CppDoAlgorithm`: characters are ordered by code point. This matches C++ `char` comparison for the ASCII letters of the demo but not for negative `char` values.
- `Ordering.StrLe` is lexicographic code-point order. This matches Python's and Ruby's string comparison, and Swift's for the ASCII strings of the demos. Swift's Unicode canonical ordering is not modelled.
- The Python chain's falsy-result test and the Python flyweight's `if not get(key)` are read as "no handler answered" and "key absent". Every message and every flyweight object in these demos is truthy, so the readings agree.
- Python's abstract `State` and `Strategy` bases cannot be instantiated. This appears as an error result or an excluded case, not as a runtime check.
- The Swift and Ruby iterators capture the collection by reference. The model gives an iterator the items present when it was made, which is what every demo traversal sees.
- Singleton, Prototype, and the demos that only print fixed strings are not part of this model.
- `Flyweight.SeededWithFiveKeys`: the demo's five records are related to it through the per-record key lemmas (`Flyweight.DemoKeyChevrolet` and the others), not by one statement over the literal list.
- `Composite.Render` states the leaf case and the minimum length of a composite's text. What a composite's text looks like is stated by `Composite.CompositeIsWrapped` (the "Branch(" and ")" wrapping), `Composite.EmptyCompositeRender`, `Composite.TwoChildren` (one separator between two children) and `Composite.AsWrittenAgrees` (the joined children's results, related to the C++ loop).

## Findings

| source | as written | input that shows it | evidently intended | confidence | as-written member | corrected member |
|---|---|---|---|---|---|---|
| C++/src/Composite/Conceptual/main.cc:113-117 | The loop omits "+" after any child equal to the last child, not only at the final position. | A composite whose children are the same leaf twice, `{0: Branch [1, 1], 1: Leaf}`, renders as "Branch(LeafLeaf)". | "Branch(Leaf+Leaf)", one "+" between neighbouring results, as in Python, Ruby and Swift (with a space). | not executed; follows from the loop's identity comparison | Composite.AsWrittenDropsSeparator | Composite.TwoChildren |
