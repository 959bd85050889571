/** Memento (C++, Python, Ruby and Swift demos): an originator whose state
    is saved into immutable snapshots, and a caretaker keeping those
    snapshots as a last-in-first-out history. Clocks and random generators
    are parameters. */
module Memento {

  /** A snapshot. `Concrete` is the demos' `ConcreteMemento`: the saved
      state and the time it was taken. `Foreign` stands for any other type
      conforming to Swift's `Memento` protocol, which the originator cannot
      read a state from. A snapshot is a value: nothing can change it once
      built. */
  datatype Snapshot = Concrete(state: string, date: string) | Foreign(name: string, date: string)

  /** The originator's one important field. */
  datatype Originator = Originator(state: string)

  /** The at most `n` first characters of `s` (C++ `substr(0, n)`, Python
      `s[0:n]`, Ruby `s[0, n]`, Swift `prefix(n)`). */
  function Prefix(s: string, n: nat): (p: string)
    ensures |p| == if |s| < n then |s| else n
    ensures p == s[..|p|]
  {
    if |s| < n then s else s[..n]
  }

  /** The at most `n` last characters of `s` (Swift `suffix(n)`). */
  function Suffix(s: string, n: nat): (p: string)
    ensures |p| == if |s| < n then |s| else n
    ensures p == s[|s| - |p|..]
  {
    if |s| < n then s else s[|s| - n..]
  }

  /** `save`: a snapshot of the current state, stamped with the clock
      reading `now`. */
  function Save(o: Originator, now: string): (m: Snapshot)
    ensures m.Concrete? && m.state == o.state && m.date == now
  {
    Concrete(o.state, now)
  }

  /** `restore`: takes the snapshot's state. A snapshot that is not a
      `ConcreteMemento` leaves the state as it was (Swift's `as?` guard);
      the C++, Python and Ruby caretakers only ever hold concrete ones. */
  function Restore(o: Originator, m: Snapshot): (r: Originator)
    ensures m.Concrete? ==> r.state == m.state
    ensures m.Foreign? ==> r == o
  {
    match m
    case Concrete(state, _) => Originator(state)
    case Foreign(_, _) => o
  }

  /** Restoring a saved snapshot brings back the state held at save time,
      whatever happened to the originator in between. */
  lemma RestoreSave(o: Originator, now: string, later: Originator)
    ensures Restore(later, Save(o, now)) == o
  {
  }

  /** The characters the C++ generator draws from. */
  const Alphanum := "0123456789ABCDEFGHIJKLMNOPQRSTUVWXYZabcdefghijklmnopqrstuvwxyz"

  /** C++ `GenerateRandomString(length)`: character `i` is
      `alphanum[rand() % 62]` for the `i`-th draw of `rand()`, which
      is never negative. */
  function RandomString(draws: seq<nat>): (r: string)
    ensures |r| == |draws|
    ensures forall i :: 0 <= i < |r| ==> r[i] in Alphanum
  {
    if |draws| == 0 then ""
    else [Alphanum[draws[0] % |Alphanum|]] + RandomString(draws[1..])
  }

  /** `do_something`: the state becomes a freshly generated string,
      `random`, which depends on nothing but the generator. */
  function DoSomething(o: Originator, random: string): (r: Originator)
    ensures r.state == random
  {
    Originator(random)
  }

  /** C++ `ConcreteMemento::GetName`, Python `get_name`, Ruby `name`: the
      date, then " / (", at most the first nine characters of the state, and
      "...)". */
  function GetName(m: Snapshot): (name: string)
    requires m.Concrete?
    ensures var shown := if |m.state| < 9 then |m.state| else 9;
      && |name| == |m.date| + 4 + shown + 4
      && name[..|m.date|] == m.date
      && name[|m.date|..|m.date| + 4] == " / ("
      && name[|m.date| + 4..|m.date| + 4 + shown] == m.state[..shown]
      && name[|m.date| + 4 + shown..] == "...)"
  {
    m.date + " / (" + Prefix(m.state, 9) + "...)"
  }

  /** Two snapshots whose states agree on the first nine characters and
      that were taken at the same time have the same name. */
  lemma GetNameShowsNinePrefix(a: Snapshot, b: Snapshot)
    requires a.Concrete? && b.Concrete? && a.date == b.date
    requires Prefix(a.state, 9) == Prefix(b.state, 9)
    ensures GetName(a) == GetName(b)
  {
  }

  /** Swift `ConcreteMemento.name`: the state, a space, and the eight
      characters of the date's description that precede its last six
      (`suffix(14).prefix(8)`, the time of day in "yyyy-MM-dd HH:mm:ss
      +0000"). */
  function SwiftName(state: string, dateDescription: string): (name: string)
    ensures |name| == |state| + 1 + |Prefix(Suffix(dateDescription, 14), 8)|
    ensures name[..|state|] == state && name[|state|] == ' '
  {
    state + " " + Prefix(Suffix(dateDescription, 14), 8)
  }

  /** On a description of Swift's usual 25-character form the name shows
      characters 11 to 18, the "HH:mm:ss" part. */
  lemma SwiftNameShowsTime(state: string, d: string)
    requires |d| == 25
    ensures SwiftName(state, d) == state + " " + d[11..19]
  {
  }

  /** The caretaker: the snapshots taken so far, the latest last, and the
      originator it backs up. */
  datatype Caretaker = Caretaker(history: seq<Snapshot>, originator: Originator)

  /** `backup`: pushes a snapshot of the current state, taken at `now`, on
      top of the history; earlier snapshots and the originator stay. */
  function Backup(ct: Caretaker, now: string): (r: Caretaker)
    ensures |r.history| == |ct.history| + 1
    ensures r.history[..|ct.history|] == ct.history
    ensures r.history[|ct.history|] == Save(ct.originator, now)
    ensures r.originator == ct.originator
  {
    Caretaker(ct.history + [Save(ct.originator, now)], ct.originator)
  }

  /** `undo`: nothing on an empty history; otherwise removes exactly the
      latest snapshot and restores the originator from it. */
  function Undo(ct: Caretaker): (r: Caretaker)
    ensures |ct.history| == 0 ==> r == ct
    ensures |ct.history| > 0 ==>
      && r.history == ct.history[..|ct.history| - 1]
      && r.originator == Restore(ct.originator, ct.history[|ct.history| - 1])
  {
    if |ct.history| == 0 then ct
    else
      var top := ct.history[|ct.history| - 1];
      Caretaker(ct.history[..|ct.history| - 1], Restore(ct.originator, top))
  }

  /** Undo takes back a backup and whatever the originator did after it. */
  lemma UndoRollsBack(ct: Caretaker, now: string, random: string)
    ensures var saved := Backup(ct, now);
      Undo(saved.(originator := DoSomething(saved.originator, random))) == ct
  {
    var saved := Backup(ct, now);
    assert saved.history[..|ct.history|] == ct.history;
  }

  /** The history holds concrete snapshots only; true of every caretaker
      built by backups from an empty one. */
  ghost predicate AllConcrete(ct: Caretaker) {
    forall i :: 0 <= i < |ct.history| ==> ct.history[i].Concrete?
  }

  /** Backup and undo keep the history concrete. */
  lemma ConcreteKept(ct: Caretaker, now: string)
    requires AllConcrete(ct)
    ensures AllConcrete(Backup(ct, now))
    ensures AllConcrete(Undo(ct))
  {
  }

  /** `undo` applied `n` times. */
  function UndoTimes(ct: Caretaker, n: nat): Caretaker
    decreases n
  {
    if n == 0 then ct else UndoTimes(Undo(ct), n - 1)
  }

  /** Last in, first out: after `n <= |history|` undos the originator holds
      the state of the `n`-th most recent snapshot and exactly the older
      snapshots remain. */
  lemma {:induction false} UndoTimesIsLifo(ct: Caretaker, n: nat)
    requires AllConcrete(ct)
    requires 0 < n <= |ct.history|
    decreases n
    ensures UndoTimes(ct, n).history == ct.history[..|ct.history| - n]
    ensures UndoTimes(ct, n).originator.state == ct.history[|ct.history| - n].state
  {
    var once := Undo(ct);
    if n > 1 {
      assert AllConcrete(once);
      UndoTimesIsLifo(once, n - 1);
      assert once.history[..|once.history| - (n - 1)] == ct.history[..|ct.history| - n];
    }
  }

  /** The demo: three backups, each followed by a random change, then two
      undos; the originator ends with the first random state and one
      snapshot (of the initial state) is left. */
  lemma DemoRollback(initial: string, r1: string, r2: string, r3: string, t1: string, t2: string, t3: string)
    ensures var c0 := Caretaker([], Originator(initial));
      var c1 := Backup(c0, t1);
      var c2 := Backup(c1.(originator := DoSomething(c1.originator, r1)), t2);
      var c3 := Backup(c2.(originator := DoSomething(c2.originator, r2)), t3);
      var c4 := c3.(originator := DoSomething(c3.originator, r3));
      var back := Undo(Undo(c4));
      && back.originator.state == r1
      && back.history == [Concrete(initial, t1)]
  {
  }
}
