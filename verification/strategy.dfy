/** Strategy (C++, Swift and Ruby demos): a context delegates sorting to an
    interchangeable strategy, ascending (A) or descending (B). */
module Strategy {
  import opened Wrappers
  import opened Seqs
  import opened Ordering
  import opened Languages

  /** `ConcreteStrategyA`, `ConcreteStrategyB`, or Ruby's base `Strategy`
      whose `do_algorithm` raises. */
  datatype Kind = ConcreteA | ConcreteB | BaseStrategy

  datatype Error = NotImplementedError

  /** The context holds the strategy it currently delegates to. */
  datatype Context = Context(strategy: Kind)

  /** `set_strategy` / `update(strategy:)` / `strategy=`: only the strategy
      changes. */
  function SetStrategy(c: Context, k: Kind): (r: Context)
    ensures r.strategy == k
  {
    c.(strategy := k)
  }

  /** C++ `ConcreteStrategyB`'s loop: for `i` below half the length, swap
      character `i` with character `size - i - 1`. */
  method ReverseBySwaps(s: string) returns (r: string)
    ensures r == Reverse(s)
  {
    r := s;
    var n := |s|;
    var i := 0;
    while i < n / 2
      invariant 0 <= i <= n / 2 && |r| == n
      invariant forall k :: 0 <= k < i ==> r[k] == s[n - 1 - k] && r[n - 1 - k] == s[k]
      invariant forall k :: i <= k < n - i ==> r[k] == s[k]
    {
      var front, back := r[i], r[n - i - 1];
      r := r[i := back][n - i - 1 := front];
      i := i + 1;
    }
  }

  /** C++ `DoAlgorithm`: the strings are concatenated and the characters
      sorted; strategy B then reverses them in place, which sorts them in
      descending order. The base C++ `Strategy` is abstract and cannot be
      instantiated. */
  method CppDoAlgorithm(k: Kind, data: seq<string>) returns (r: string)
    requires k != BaseStrategy
    ensures multiset(r) == multiset(Concat(data))
    ensures k == ConcreteA ==> Sorted(r, CharLe)
    ensures k == ConcreteB ==> Sorted(r, Flip(CharLe))
    ensures k == ConcreteA ==> r == Sort(Concat(data), CharLe)
    ensures k == ConcreteB ==> r == Reverse(Sort(Concat(data), CharLe))
  {
    CharLeIsTotalOrder();
    var letters := Concat(data);
    r := Sort(letters, CharLe);
    if k == ConcreteB {
      var up := r;
      r := ReverseBySwaps(up);
      SortDescendingIsReverse(letters, CharLe);
      FlipTotal(CharLe);
    }
  }

  /** The languages whose `do_algorithm` works on a list of strings. */
  predicate ListLanguage(lang: Language) {
    lang == Swift || lang == Ruby
  }

  /** Swift and Ruby `do_algorithm` on strings. A sorts ascending. B sorts
      with `>` in Swift and sorts then reverses in Ruby. Only Ruby has a
      base strategy object; Swift's `Strategy` is a protocol. */
  function DoAlgorithm(k: Kind, data: seq<string>, lang: Language): (r: Result<seq<string>, Error>)
    requires ListLanguage(lang) && (k == BaseStrategy ==> lang == Ruby)
    ensures r.Err? <==> k == BaseStrategy
    ensures r.Ok? ==> multiset(r.value) == multiset(data)
  {
    match k
    case ConcreteA => Ok(Sort(data, StrLe))
    case ConcreteB =>
      if lang == Swift then Ok(Sort(data, Flip(StrLe)))
      else
        ReversePermutes(Sort(data, StrLe));
        Ok(Reverse(Sort(data, StrLe)))
    case BaseStrategy => Err(NotImplementedError)
  }

  /** Strategy A yields the ascending arrangement, strategy B the descending
      one, in both languages; Swift's `sorted(by: >)` and Ruby's
      `sort.reverse` agree, and B's result is A's reversed. */
  lemma StrategiesAreOpposite(data: seq<string>, lang: Language)
    requires ListLanguage(lang)
    ensures Sorted(DoAlgorithm(ConcreteA, data, lang).value, StrLe)
    ensures Sorted(DoAlgorithm(ConcreteB, data, lang).value, Flip(StrLe))
    ensures DoAlgorithm(ConcreteB, data, Swift) == DoAlgorithm(ConcreteB, data, Ruby)
    ensures DoAlgorithm(ConcreteB, data, lang).value == Reverse(DoAlgorithm(ConcreteA, data, lang).value)
  {
    StrLeIsTotalOrder();
    FlipTotal(StrLe);
    SortDescendingIsReverse(data, StrLe);
  }

  /** The result depends only on the data's contents, not on their order. */
  lemma OrderOfDataIrrelevant(k: Kind, data: seq<string>, other: seq<string>, lang: Language)
    requires ListLanguage(lang) && (k == BaseStrategy ==> lang == Ruby)
    requires multiset(data) == multiset(other)
    ensures DoAlgorithm(k, data, lang) == DoAlgorithm(k, other, lang)
  {
    StrLeIsTotalOrder();
    FlipTotal(StrLe);
    SortPermutationInvariant(data, other, StrLe);
    SortPermutationInvariant(data, other, Flip(StrLe));
  }

  /** `do_some_business_logic` in Swift and Ruby: the context's strategy
      applied to `data`, joined with ",". Both demos pass the letters a to
      e in order. */
  function BusinessLogic(c: Context, data: seq<string>, lang: Language): (r: Result<string, Error>)
    requires ListLanguage(lang) && (c.strategy == BaseStrategy ==> lang == Ruby)
    ensures r.Err? <==> c.strategy == BaseStrategy
  {
    match DoAlgorithm(c.strategy, data, lang)
    case Ok(letters) => Ok(Join(letters, ","))
    case Err(e) => Err(e)
  }

  /** For any data, strategy A reports the ascending arrangement joined with
      ",", and strategy B the descending one, which is the ascending one
      reversed. */
  lemma BusinessLogicJoinsSorted(data: seq<string>, lang: Language)
    requires ListLanguage(lang)
    ensures BusinessLogic(Context(ConcreteA), data, lang) == Ok(Join(Sort(data, StrLe), ","))
    ensures BusinessLogic(Context(ConcreteB), data, lang) == Ok(Join(Reverse(Sort(data, StrLe)), ","))
    ensures Sorted(Sort(data, StrLe), StrLe) && multiset(Sort(data, StrLe)) == multiset(data)
  {
    StrategiesAreOpposite(data, lang);
    DescendingIsReversedAscending(data, lang);
  }

  /** The reported text depends only on the data's contents, whatever the
      strategy. */
  lemma BusinessLogicIgnoresOrder(c: Context, data: seq<string>, other: seq<string>, lang: Language)
    requires ListLanguage(lang) && (c.strategy == BaseStrategy ==> lang == Ruby)
    requires multiset(data) == multiset(other)
    ensures BusinessLogic(c, data, lang) == BusinessLogic(c, other, lang)
  {
    OrderOfDataIrrelevant(c.strategy, data, other, lang);
  }

  /** The demos' data: the one-letter strings "a" to "e", in order. */
  ghost predicate DemoLetters(data: seq<string>) {
    |data| == 5 && forall k :: 0 <= k < 5 ==> data[k] == [(97 + k) as char]
  }

  /** The demo letters are already in ascending order. */
  lemma LettersAscending(data: seq<string>)
    requires DemoLetters(data)
    ensures Sort(data, StrLe) == data
  {
    StrLeIsTotalOrder();
    assert Sorted(data, StrLe);
    SortIsCanonical(data, data, StrLe);
  }

  /** Strategy B gives the ascending arrangement reversed, in both
      languages. */
  lemma DescendingIsReversedAscending(data: seq<string>, lang: Language)
    requires ListLanguage(lang)
    ensures DoAlgorithm(ConcreteB, data, lang) == Ok(Reverse(Sort(data, StrLe)))
  {
    StrLeIsTotalOrder();
    SortDescendingIsReverse(data, StrLe);
  }

  /** Five one-letter strings joined with ",". */
  lemma FiveLettersText(a: string, b: string, c: string, d: string, e: string, text: string)
    requires |text| == 9 && text[1] == text[3] == text[5] == text[7] == ','
    requires a == [text[0]] && b == [text[2]] && c == [text[4]] && d == [text[6]] && e == [text[8]]
    ensures a + "," + b + "," + c + "," + d + "," + e == text
  {
  }

  /** Strategy A leaves the demo letters in their order. */
  lemma AscendingKeepsDemoLetters(data: seq<string>, lang: Language)
    requires ListLanguage(lang)
    requires DemoLetters(data)
    ensures BusinessLogic(Context(ConcreteA), data, lang) == Ok(Join(data, ","))
  {
    LettersAscending(data);
  }

  /** Strategy B turns the demo letters around. */
  lemma DescendingReversesDemoLetters(data: seq<string>, lang: Language)
    requires ListLanguage(lang)
    requires DemoLetters(data)
    ensures BusinessLogic(SetStrategy(Context(ConcreteA), ConcreteB), data, lang) == Ok(Join(Reverse(data), ","))
  {
    LettersAscending(data);
    DescendingIsReversedAscending(data, lang);
  }

  lemma LettersJoined(data: seq<string>, up: string, down: string)
    requires DemoLetters(data)
    requires up == "a,b,c,d,e" && down == "e,d,c,b,a"
    ensures Join(data, ",") == up && Join(Reverse(data), ",") == down
  {
    JoinFive(data, ",");
    FiveLettersText(data[0], data[1], data[2], data[3], data[4], up);
    var rev := Reverse(data);
    JoinFive(rev, ",");
    FiveLettersText(rev[0], rev[1], rev[2], rev[3], rev[4], down);
  }

  /** The Swift and Ruby demo: "a,b,c,d,e" under strategy A, then
      "e,d,c,b,a" after switching to B. */
  lemma DemoOutput(data: seq<string>, lang: Language, up: string, down: string)
    requires ListLanguage(lang)
    requires DemoLetters(data)
    requires up == "a,b,c,d,e" && down == "e,d,c,b,a"
    ensures BusinessLogic(Context(ConcreteA), data, lang) == Ok(up)
    ensures BusinessLogic(SetStrategy(Context(ConcreteA), ConcreteB), data, lang) == Ok(down)
  {
    AscendingKeepsDemoLetters(data, lang);
    DescendingReversesDemoLetters(data, lang);
    LettersJoined(data, up, down);
  }

  /** The demos' literal list is the demo letters. */
  lemma DemoListIsLetters(data: seq<string>)
    requires data == ["a", "b", "c", "d", "e"]
    ensures DemoLetters(data)
  {
  }

  /** Joining five one-letter strings. */
  lemma JoinFive(s: seq<string>, sep: string)
    requires |s| == 5
    ensures Join(s, sep) == s[0] + sep + s[1] + sep + s[2] + sep + s[3] + sep + s[4]
  {
    var s1 := s[1..];
    var s2 := s1[1..];
    var s3 := s2[1..];
    assert s3[1..] == [s[4]] && s3[0] == s[3] && s2[0] == s[2] && s1[0] == s[1];
    assert Join(s3, sep) == s[3] + sep + s[4];
    assert Join(s2, sep) == s[2] + sep + Join(s3, sep);
    assert Join(s1, sep) == s[1] + sep + Join(s2, sep);
  }

  /** Swapping two elements keeps the multiset. */
  lemma SwapKeepsMultiset<T>(s: seq<T>, i: nat, j: nat)
    requires i < j < |s|
    ensures multiset(s[i := s[j]][j := s[i]]) == multiset(s)
  {
    var t := s[i := s[j]][j := s[i]];
    assert s == s[..i] + [s[i]] + s[i + 1..j] + [s[j]] + s[j + 1..];
    assert t == s[..i] + [s[j]] + s[i + 1..j] + [s[i]] + s[j + 1..];
  }

  /** Swapping the letters at `i` and `j` of `s` gives `t`. */
  lemma SwappedLetters(s: string, t: string, i: nat, j: nat)
    requires i < j < |s| == |t|
    requires t[i] == s[j] && t[j] == s[i]
    requires forall k :: 0 <= k < |s| && k != i && k != j ==> t[k] == s[k]
    ensures multiset(t) == multiset(s)
  {
    assert t == s[i := s[j]][j := s[i]];
    SwapKeepsMultiset(s, i, j);
  }

  /** "aecbd" rearranged by two swaps is "abcde". */
  lemma DemoLettersSame(mixed: string, middle: string, up: string)
    requires mixed == "aecbd" && middle == "abced" && up == "abcde"
    ensures multiset(mixed) == multiset(up)
  {
    SwappedLetters(mixed, middle, 1, 3);
    SwappedLetters(middle, up, 3, 4);
  }

  /** "abcde" is ascending. */
  lemma DemoLettersSorted(up: string)
    requires up == "abcde"
    ensures Sorted(up, CharLe)
  {
    assert forall k :: 0 <= k < 5 ==> up[k] as int == 97 + k;
  }

  /** The one ascending arrangement of the letters "aecbd". */
  lemma CppAscendingResult(mixed: string, r: string)
    requires mixed == "aecbd"
    requires multiset(r) == multiset(mixed) && Sorted(r, CharLe)
    ensures r == "abcde"
  {
    DemoLettersSorted("abcde");
    DemoLettersSame(mixed, "abced", "abcde");
    CharLeIsTotalOrder();
    SortedUnique(r, "abcde", CharLe);
  }

  /** "abcde" reversed. */
  lemma ReverseDemoLetters(up: string)
    requires up == "abcde"
    ensures Reverse(up) == "edcba"
  {
    var down := Reverse(up);
    assert down[0] == 'e' && down[1] == 'd' && down[2] == 'c' && down[3] == 'b' && down[4] == 'a';
  }

  /** The C++ demo's strings hold the letters of "aecbd". */
  lemma CppDemoLetters(data: seq<string>, mixed: string)
    requires data == ["a", "e", "c", "b", "d"] && mixed == "aecbd"
    ensures Concat(data) == mixed
  {
    ConcatFive(data);
  }

  /** Concatenating five strings. */
  lemma ConcatFive(s: seq<string>)
    requires |s| == 5
    ensures Concat(s) == s[0] + s[1] + s[2] + s[3] + s[4]
  {
    var s1 := s[1..];
    var s2 := s1[1..];
    var s3 := s2[1..];
    var s4 := s3[1..];
    assert s4[1..] == [] && s4[0] == s[4] && s3[0] == s[3] && s2[0] == s[2] && s1[0] == s[1];
    assert Concat(s4) == s[4] + Concat([]) == s[4];
    assert Concat(s3) == s[3] + Concat(s4);
    assert Concat(s2) == s[2] + Concat(s3);
    assert Concat(s1) == s[1] + Concat(s2);
  }

  /** The C++ demo: the letters "a", "e", "c", "b", "d" come out as "abcde"
      under A and "edcba" under B. */
  method CppDemo() returns (up: string, down: string)
    ensures up == "abcde" && down == "edcba"
  {
    var data := ["a", "e", "c", "b", "d"];
    CppDemoLetters(data, "aecbd");
    up := CppDoAlgorithm(ConcreteA, data);
    CppAscendingResult(Concat(data), up);
    down := CppDoAlgorithm(ConcreteB, data);
    ReverseDemoLetters(up);
  }
}
