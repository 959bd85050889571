/** The Flyweight factory of the Python and Ruby demos: a get-or-insert cache
    of shared flyweights keyed by the sorted, `_`-joined shared state. */
module Flyweight {
  import opened Seqs
  import opened Ordering

  /** A flyweight object. `id` is its identity (the position of its
      construction among all flyweights built by the store), `sharedState`
      the list it was constructed from. */
  datatype Flyweight = Flyweight(id: nat, sharedState: seq<string>)

  /** The factory's dictionary: `flyweights` maps keys to objects, `keys`
      lists the keys in insertion order (the iteration order of a Python
      dict and of a Ruby Hash, used by `list_flyweights`), and `created`
      counts the flyweights constructed so far. */
  datatype Store = Store(flyweights: map<string, Flyweight>, keys: seq<string>, created: nat)

  /** An empty dictionary. */
  const Empty := Store(map[], [], 0)

  /** The listed keys are exactly the stored ones, each once, and every
      stored object was constructed by this store. */
  ghost predicate Valid(st: Store) {
    && (forall k :: k in st.flyweights <==> k in st.keys)
    && (forall i, j :: 0 <= i < j < |st.keys| ==> st.keys[i] != st.keys[j])
    && (forall k :: k in st.flyweights ==> st.flyweights[k].id < st.created)
  }

  /** `get_key`: the state's values sorted and joined with `_`. */
  function GetKey(state: seq<string>): string {
    Join(Sort(state, StrLe), "_")
  }

  /** The key is the `_`-join of the one sorted arrangement of the values:
      any sorted list holding the same values gives the key. */
  lemma GetKeyIsSortedJoin(state: seq<string>, sorted: seq<string>)
    requires Sorted(sorted, StrLe) && multiset(sorted) == multiset(state)
    ensures GetKey(state) == Join(sorted, "_")
  {
    StrLeIsTotalOrder();
    SortIsCanonical(state, sorted, StrLe);
  }

  /** Two states holding the same values in any order get the same key (and
      so share a flyweight). */
  lemma GetKeyOrderIndependent(a: seq<string>, b: seq<string>)
    requires multiset(a) == multiset(b)
    ensures GetKey(a) == GetKey(b)
  {
    StrLeIsTotalOrder();
    SortPermutationInvariant(a, b, StrLe);
  }

  /** `self._flyweights[key] = Flyweight(state)`: stores a newly constructed
      flyweight under the state's key, replacing any earlier one; a new key
      goes to the end of the iteration order, a replaced key keeps its place. */
  function Register(st: Store, state: seq<string>): (r: Store)
    ensures Valid(st) ==> Valid(r)
    ensures r.flyweights == st.flyweights[GetKey(state) := Flyweight(st.created, state)]
    ensures r.created == st.created + 1
    ensures r.keys == if GetKey(state) in st.keys then st.keys else st.keys + [GetKey(state)]
  {
    var key := GetKey(state);
    Store(st.flyweights[key := Flyweight(st.created, state)],
          if key in st.keys then st.keys else st.keys + [key],
          st.created + 1)
  }

  /** `get_flyweight`: the flyweight stored under the state's key, built and
      stored first when the key is missing. The result is always the stored
      entry; a hit leaves the store as it was; a miss adds exactly one entry,
      a new object holding `state`, and touches no other entry. */
  function GetFlyweight(st: Store, state: seq<string>): (r: (Store, Flyweight))
    ensures GetKey(state) in r.0.flyweights && r.1 == r.0.flyweights[GetKey(state)]
    ensures GetKey(state) in st.flyweights ==> r.0 == st && r.1 == st.flyweights[GetKey(state)]
    ensures GetKey(state) !in st.flyweights ==>
      && r.1 == Flyweight(st.created, state)
      && r.0.flyweights.Keys == st.flyweights.Keys + {GetKey(state)}
      && |r.0.flyweights| == |st.flyweights| + 1
      && (forall k :: k in st.flyweights ==> r.0.flyweights[k] == st.flyweights[k])
    ensures Valid(st) ==> Valid(r.0)
    ensures Valid(st) && GetKey(state) !in st.flyweights ==>
      forall k :: k in st.flyweights ==> st.flyweights[k].id != r.1.id
  {
    var key := GetKey(state);
    if key in st.flyweights then (st, st.flyweights[key])
    else
      var next := Register(st, state);
      (next, next.flyweights[key])
  }

  /** Asking twice for states with the same key yields one and the same
      object, and the second request does not change the store. */
  lemma AtMostOneInstance(st: Store, a: seq<string>, b: seq<string>)
    requires GetKey(a) == GetKey(b)
    ensures GetFlyweight(GetFlyweight(st, a).0, b).1.id == GetFlyweight(st, a).1.id
    ensures GetFlyweight(GetFlyweight(st, a).0, b).0 == GetFlyweight(st, a).0
  {
  }

  /** The constructor's loop: registers each initial state in order. */
  function RegisterAll(st: Store, states: seq<seq<string>>): (r: Store)
    ensures r.created == st.created + |states|
    decreases |states|
  {
    if |states| == 0 then st
    else Register(RegisterAll(st, states[..|states| - 1]), states[|states| - 1])
  }

  /** Registering a list of states adds exactly the keys of those states. */
  lemma {:induction false} RegisterAllKeys(st: Store, states: seq<seq<string>>)
    ensures RegisterAll(st, states).flyweights.Keys == st.flyweights.Keys + KeysOf(states)
    decreases |states|
  {
    if |states| > 0 {
      RegisterAllKeys(st, states[..|states| - 1]);
      KeysOfSnoc(states);
    } else {
      assert KeysOf(states) == {};
    }
  }

  /** Registering a list of states keeps a store valid. */
  lemma {:induction false} RegisterAllValid(st: Store, states: seq<seq<string>>)
    requires Valid(st)
    ensures Valid(RegisterAll(st, states))
    decreases |states|
  {
    if |states| > 0 {
      RegisterAllValid(st, states[..|states| - 1]);
    }
  }

  /** The keys of a list of states. */
  ghost function KeysOf(states: seq<seq<string>>): set<string> {
    set i | 0 <= i < |states| :: GetKey(states[i])
  }

  lemma KeysOfSnoc(states: seq<seq<string>>)
    requires |states| > 0
    ensures KeysOf(states) == KeysOf(states[..|states| - 1]) + {GetKey(states[|states| - 1])}
  {
    var init := states[..|states| - 1];
    forall k | k in KeysOf(states)
      ensures k in KeysOf(init) + {GetKey(states[|states| - 1])}
    {
      var i :| 0 <= i < |states| && GetKey(states[i]) == k;
      if i < |states| - 1 {
        assert init[i] == states[i];
      }
    }
    forall k | k in KeysOf(init)
      ensures k in KeysOf(states)
    {
      var i :| 0 <= i < |init| && GetKey(init[i]) == k;
      assert states[i] == init[i];
    }
  }

  /** Registering a list of states: when several states share a key, the
      last one wins. */
  lemma {:induction false} RegisterAllLastWins(st: Store, states: seq<seq<string>>, i: nat, k: string)
    requires i < |states| && k == GetKey(states[i])
    requires forall j :: i < j < |states| ==> GetKey(states[j]) != k
    ensures k in RegisterAll(st, states).flyweights
    ensures RegisterAll(st, states).flyweights[k].sharedState == states[i]
  {
    var n := |states|;
    var init := states[..n - 1];
    RegisterAllSnoc(st, states);
    if i < n - 1 {
      assert init[i] == states[i];
      assert forall j :: i < j < n - 1 ==> GetKey(init[j]) != k by {
        forall j | i < j < n - 1 ensures GetKey(init[j]) != k {
          assert init[j] == states[j];
        }
      }
      RegisterAllLastWins(st, init, i, k);
      RegisterKeepsOthers(RegisterAll(st, init), states[n - 1], k);
    }
  }

  lemma RegisterAllSnoc(st: Store, states: seq<seq<string>>)
    requires |states| > 0
    ensures RegisterAll(st, states) == Register(RegisterAll(st, states[..|states| - 1]), states[|states| - 1])
  {
  }

  /** Registering a state leaves the entries under other keys alone. */
  lemma RegisterKeepsOthers(st: Store, state: seq<string>, k: string)
    requires k in st.flyweights && k != GetKey(state)
    ensures k in Register(st, state).flyweights
    ensures Register(st, state).flyweights[k] == st.flyweights[k]
  {
  }

  /** `FlyweightFactory(initial)` in Python: `_flyweights` is a class
      attribute, so the constructor adds to the one dictionary shared by every
      factory instance, `shared`, and returns it. */
  function NewPythonFactory(shared: Store, initial: seq<seq<string>>): (r: Store)
    ensures shared.flyweights.Keys <= r.flyweights.Keys
    ensures r.flyweights.Keys == shared.flyweights.Keys + KeysOf(initial)
  {
    RegisterAllKeys(shared, initial);
    RegisterAll(shared, initial)
  }

  /** `FlyweightFactory.new(initial)` in Ruby: `@flyweights` is per instance
      and starts empty, so the factory holds exactly one entry per distinct
      key of the initial states. */
  function NewRubyFactory(initial: seq<seq<string>>): (r: Store)
    ensures Valid(r)
    ensures r.flyweights.Keys == KeysOf(initial)
    ensures |r.keys| == |r.flyweights| == |KeysOf(initial)|
  {
    var r := RegisterAll(Empty, initial);
    RegisterAllKeys(Empty, initial);
    RegisterAllValid(Empty, initial);
    ValidCount(r);
    r
  }

  /** In a valid store the listed keys and the stored entries are equally
      many. */
  lemma ValidCount(st: Store)
    requires Valid(st)
    ensures |st.keys| == |st.flyweights|
  {
    DistinctCount(st.keys);
    assert st.flyweights.Keys == set k | k in st.keys;
  }

  lemma {:induction false} DistinctCount(s: seq<string>)
    requires forall i, j :: 0 <= i < j < |s| ==> s[i] != s[j]
    ensures |set k | k in s| == |s|
  {
    if |s| > 0 {
      var t := s[..|s| - 1];
      DistinctCount(t);
      assert (set k | k in s) == (set k | k in t) + {s[|s| - 1]};
    }
  }

  /** `list_flyweights`: the number of flyweights and their keys in
      insertion order. */
  function ListFlyweights(st: Store): (r: (nat, seq<string>))
    requires Valid(st)
    ensures r.0 == |st.flyweights| == |r.1|
    ensures forall k :: k in r.1 <==> k in st.flyweights
  {
    ValidCount(st);
    (|st.flyweights|, st.keys)
  }

  /** A three-value state whose values sort as `a`, `b`, `c` has key
      `a_b_c`. */
  lemma KeyOfThree(state: seq<string>, a: string, b: string, c: string)
    requires StrLe(a, b) && StrLe(b, c)
    requires multiset(state) == multiset([a, b, c])
    ensures GetKey(state) == a + "_" + b + "_" + c
  {
    var t := [a, b, c];
    StrLeTransitive(a, b, c);
    assert Sorted(t, StrLe) by {
      forall i, j | 0 <= i < j < 3 ensures StrLe(t[i], t[j]) {
        if i == 0 && j == 2 { assert StrLe(a, c); }
      }
    }
    GetKeyIsSortedJoin(state, t);
    JoinThree(a, b, c, "_");
  }

  lemma JoinThree(a: string, b: string, c: string, sep: string)
    ensures Join([a, b, c], sep) == a + sep + b + sep + c
  {
    assert [a, b, c][1..] == [b, c];
    assert [b, c][1..] == [c];
    assert Join([b, c], sep) == b + sep + c;
    assert a + sep + (b + sep + c) == a + sep + b + sep + c;
  }

  lemma DemoKeyChevrolet(car: seq<string>)
    requires |car| == 3 && car[0] == "Chevrolet" && car[1] == "Camaro2018" && car[2] == "pink"
    ensures GetKey(car) == "Camaro2018" + "_" + "Chevrolet" + "_" + "pink"
    ensures |GetKey(car)| == 25
  {
    assert car == [car[0], car[1], car[2]];
    KeyOfThree(car, "Camaro2018", "Chevrolet", "pink");
  }

  lemma DemoKeyC300(car: seq<string>)
    requires |car| == 3 && car[0] == "Mercedes Benz" && car[1] == "C300" && car[2] == "black"
    ensures GetKey(car) == "C300" + "_" + "Mercedes Benz" + "_" + "black"
    ensures |GetKey(car)| == 24
  {
    assert car == [car[0], car[1], car[2]];
    KeyOfThree(car, "C300", "Mercedes Benz", "black");
  }

  lemma DemoKeyC500(car: seq<string>)
    requires |car| == 3 && car[0] == "Mercedes Benz" && car[1] == "C500" && car[2] == "red"
    ensures GetKey(car) == "C500" + "_" + "Mercedes Benz" + "_" + "red"
    ensures |GetKey(car)| == 22
  {
    assert car == [car[0], car[1], car[2]];
    KeyOfThree(car, "C500", "Mercedes Benz", "red");
  }

  lemma DemoKeyM5(car: seq<string>)
    requires |car| == 3 && car[0] == "BMW" && car[1] == "M5" && car[2] == "red"
    ensures GetKey(car) == "BMW" + "_" + "M5" + "_" + "red"
    ensures |GetKey(car)| == 10
  {
    assert car == [car[0], car[1], car[2]];
    KeyOfThree(car, "BMW", "M5", "red");
  }

  lemma DemoKeyX6(car: seq<string>)
    requires |car| == 3 && car[0] == "BMW" && car[1] == "X6" && car[2] == "white"
    ensures GetKey(car) == "BMW" + "_" + "X6" + "_" + "white"
    ensures |GetKey(car)| == 12
  {
    assert car == [car[0], car[1], car[2]];
    KeyOfThree(car, "BMW", "X6", "white");
  }

  lemma DemoKeyX1(car: seq<string>)
    requires |car| == 3 && car[0] == "BMW" && car[1] == "X1" && car[2] == "red"
    ensures GetKey(car) == "BMW" + "_" + "X1" + "_" + "red"
    ensures |GetKey(car)| == 10
  {
    assert car == [car[0], car[1], car[2]];
    KeyOfThree(car, "BMW", "X1", "red");
  }

  /** A factory seeded with five states of pairwise different keys holds
      five flyweights. */
  lemma SeededWithFiveKeys(cars: seq<seq<string>>)
    requires |cars| == 5
    requires forall i, j :: 0 <= i < j < 5 ==> GetKey(cars[i]) != GetKey(cars[j])
    ensures |NewRubyFactory(cars).flyweights| == 5
  {
    var k := seq(5, i requires 0 <= i < 5 => GetKey(cars[i]));
    forall x | x in KeysOf(cars) ensures x in k {
      var i :| 0 <= i < 5 && GetKey(cars[i]) == x;
      assert k[i] == x;
    }
    forall x | x in k ensures x in KeysOf(cars) {
      var i :| 0 <= i < 5 && k[i] == x;
    }
    assert KeysOf(cars) == set k0 | k0 in k;
    DistinctCount(k);
  }

  /** Seeded with five differently keyed states, a request with the key of
      one of them reuses its flyweight, and a request with a new key then
      adds a sixth. */
  lemma ReuseThenGrow(cars: seq<seq<string>>, hit: seq<string>, miss: seq<string>)
    requires |cars| == 5
    requires forall i, j :: 0 <= i < j < 5 ==> GetKey(cars[i]) != GetKey(cars[j])
    requires hit == cars[3]
    requires forall i :: 0 <= i < 5 ==> GetKey(cars[i]) != GetKey(miss)
    ensures var seeded := NewRubyFactory(cars);
      && |seeded.flyweights| == 5
      && var (afterHit, fwHit) := GetFlyweight(seeded, hit);
      && afterHit == seeded
      && fwHit == seeded.flyweights[GetKey(cars[3])]
      && var (afterMiss, fwMiss) := GetFlyweight(afterHit, miss);
      && |afterMiss.flyweights| == 6
      && fwMiss.sharedState == miss
  {
    SeededWithFiveKeys(cars);
    var seeded := NewRubyFactory(cars);
    assert GetKey(cars[3]) in KeysOf(cars);
    assert GetKey(miss) !in KeysOf(cars);
  }
}
