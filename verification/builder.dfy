/** Builder (Swift and Ruby demos): a builder accumulates the parts of a
    product step by step, hands the product over and starts afresh; a
    director runs fixed step sequences on whatever builder it was given. */
module Builder {
  import opened Wrappers
  import opened Seqs
  import opened Languages

  /** The three construction steps. */
  datatype Step = PartA | PartB | PartC

  /** The part `ConcreteBuilder1` adds for a step. */
  function PartName(s: Step): string {
    match s
    case PartA => "PartA1"
    case PartB => "PartB1"
    case PartC => "PartC1"
  }

  /** `ConcreteBuilder1`, holding the parts of the product under
      construction, or Ruby's base `Builder`, whose steps raise. */
  datatype Builder = Concrete(parts: seq<string>) | BaseBuilder

  /** Ruby's base class steps, and a step sent to `nil` in Ruby. */
  datatype Error = NotImplementedError | NoMethodError

  /** A fresh `ConcreteBuilder1` (its constructor calls `reset`). */
  const NewBuilder := Concrete([])

  /** `produce_part_a`/`_b`/`_c`: one part is appended to the product. */
  function Produce(b: Builder, s: Step): (r: Result<Builder, Error>)
    ensures b.BaseBuilder? <==> r.Err?
    ensures r.Ok? ==> r.value.Concrete? && |r.value.parts| == |b.parts| + 1
    ensures r.Ok? ==> r.value.parts[..|b.parts|] == b.parts && r.value.parts[|b.parts|] == PartName(s)
  {
    match b
    case Concrete(parts) => Ok(Concrete(parts + [PartName(s)]))
    case BaseBuilder => Err(NotImplementedError)
  }

  /** The steps in order, stopping at the first failure. */
  function ProduceAll(b: Builder, steps: seq<Step>): (r: Result<Builder, Error>)
    ensures r.Err? <==> b.BaseBuilder? && |steps| > 0
    ensures r.Ok? ==> r.value.Concrete? == b.Concrete?
    decreases |steps|
  {
    if |steps| == 0 then Ok(b)
    else
      match Produce(b, steps[0])
      case Err(e) => Err(e)
      case Ok(next) => ProduceAll(next, steps[1..])
  }

  /** The part names of a step sequence. */
  function PartNames(steps: seq<Step>): (r: seq<string>)
    ensures |r| == |steps|
    ensures forall i :: 0 <= i < |steps| ==> r[i] == PartName(steps[i])
  {
    if |steps| == 0 then [] else [PartName(steps[0])] + PartNames(steps[1..])
  }

  /** A concrete builder ends with exactly the parts of the steps appended,
      in order. */
  lemma {:induction false} ProduceAllAppends(parts: seq<string>, steps: seq<Step>)
    ensures ProduceAll(Concrete(parts), steps) == Ok(Concrete(parts + PartNames(steps)))
    decreases |steps|
  {
    if |steps| > 0 {
      var next := parts + [PartName(steps[0])];
      ProduceAllAppends(next, steps[1..]);
      assert PartNames(steps) == [PartName(steps[0])] + PartNames(steps[1..]);
      assert next + PartNames(steps[1..]) == parts + PartNames(steps);
    } else {
      assert parts + PartNames(steps) == parts;
    }
  }

  /** Swift `retrieveProduct`, Ruby `product`: the product built so far,
      and the builder reset to an empty product. */
  function Retrieve(b: Builder): (r: (seq<string>, Builder))
    requires b.Concrete?
    ensures r.1 == NewBuilder
    ensures r.0 == b.parts
  {
    (b.parts, NewBuilder)
  }

  /** A retrieved product holds exactly the parts produced since the
      previous retrieval, whatever the builder held before that. */
  lemma ProductsAreIndependent(b: Builder, steps: seq<Step>)
    requires b.Concrete?
    ensures var built := ProduceAll(Retrieve(b).1, steps).value;
      Retrieve(built).0 == PartNames(steps)
  {
    ProduceAllAppends([], steps);
    assert [] + PartNames(steps) == PartNames(steps);
  }

  /** A director; in Swift its builder is optional and starts unset, in
      Ruby it starts `nil`. */
  datatype Director = Director(hasBuilder: bool)

  /** A director's sequence run on `b`. Without a builder, Swift's
      `builder?.` does nothing and Ruby calls a method on `nil`. */
  function Direct(d: Director, b: Builder, steps: seq<Step>, lang: Language): (r: Result<Builder, Error>)
    requires |steps| > 0
    ensures !d.hasBuilder && lang == Swift ==> r == Ok(b)
    ensures !d.hasBuilder && lang != Swift ==> r == Err(NoMethodError)
    ensures d.hasBuilder ==> r == ProduceAll(b, steps)
  {
    if d.hasBuilder then ProduceAll(b, steps)
    else if lang == Swift then Ok(b)
    else Err(NoMethodError)
  }

  /** `buildMinimalViableProduct`: part A only. */
  function BuildMinimal(d: Director, b: Builder, lang: Language): (r: Result<Builder, Error>)
    ensures d.hasBuilder && b.Concrete? ==> r == Ok(Concrete(b.parts + ["PartA1"]))
  {
    Direct(d, b, [PartA], lang)
  }

  /** `buildFullFeaturedProduct`: parts A, B and C, in that order. */
  function BuildFull(d: Director, b: Builder, lang: Language): (r: Result<Builder, Error>)
    ensures d.hasBuilder && b.Concrete? ==> r == Ok(Concrete(b.parts + ["PartA1", "PartB1", "PartC1"]))
  {
    if b.Concrete? then
      ProduceAllAppends(b.parts, [PartA, PartB, PartC]);
      assert PartNames([PartA, PartB, PartC]) == ["PartA1", "PartB1", "PartC1"];
      Direct(d, b, [PartA, PartB, PartC], lang)
    else Direct(d, b, [PartA, PartB, PartC], lang)
  }

  const Header := "Product parts: "

  /** `listParts`: the header and the parts separated by ", "; Swift ends
      the line, Ruby's `print` does not. */
  function ListParts(parts: seq<string>, lang: Language): (r: string)
    ensures |r| == |Header| + |Join(parts, ", ")| + (if lang == Swift then 1 else 0)
    ensures r[..|Header|] == Header
    ensures r[|Header|..|Header| + |Join(parts, ", ")|] == Join(parts, ", ")
    ensures lang == Swift ==> r[|r| - 1] == '\n'
  {
    Header + Join(parts, ", ") + (if lang == Swift then "\n" else "")
  }

  /** Producing one more part extends the joined parts by ", " and that
      part's name, or starts them when the product was empty. */
  lemma JoinedPartsGrow(b: Builder, s: Step)
    requires b.Concrete?
    ensures var grown := Produce(b, s).value.parts;
      && (|b.parts| > 0 ==> Join(grown, ", ") == Join(b.parts, ", ") + ", " + PartName(s))
      && (|b.parts| == 0 ==> Join(grown, ", ") == PartName(s))
  {
    var grown := Produce(b, s).value.parts;
    assert grown == b.parts + [PartName(s)];
    if |b.parts| > 0 {
      JoinSnoc(b.parts, PartName(s), ", ");
    } else {
      assert grown == [PartName(s)];
    }
  }

  /** Ruby prints the listing without a newline, so producing a part
      appends ", " and its name to the printed text. */
  lemma RubyListingAppends(b: Builder, s: Step)
    requires b.Concrete? && |b.parts| > 0
    ensures ListParts(Produce(b, s).value.parts, Ruby) == ListParts(b.parts, Ruby) + ", " + PartName(s)
  {
    JoinedPartsGrow(b, s);
  }

  /** The Swift client: the minimal product, the full product, then a
      custom A and C product built without the director. */
  lemma SwiftClientProducts()
    ensures var d := Director(true);
      var (p1, b1) := Retrieve(BuildMinimal(d, NewBuilder, Swift).value);
      var (p2, b2) := Retrieve(BuildFull(d, b1, Swift).value);
      var (p3, _) := Retrieve(ProduceAll(b2, [PartA, PartC]).value);
      && p1 == ["PartA1"]
      && p2 == ["PartA1", "PartB1", "PartC1"]
      && p3 == ["PartA1", "PartC1"]
  {
    ProduceAllAppends([], [PartA, PartC]);
  }

  /** The Ruby client's custom product is parts A and B. */
  lemma RubyCustomProduct()
    ensures Retrieve(ProduceAll(NewBuilder, [PartA, PartB]).value).0 == ["PartA1", "PartB1"]
  {
    ProduceAllAppends([], [PartA, PartB]);
  }

  /** How the Swift client prints the full product. */
  lemma SwiftFullListing(parts: seq<string>)
    requires parts == ["PartA1", "PartB1", "PartC1"]
    ensures ListParts(parts, Swift) == "Product parts: PartA1, PartB1, PartC1\n"
  {
    JoinThree(parts, ", ");
  }

  lemma JoinThree(parts: seq<string>, sep: string)
    requires |parts| == 3
    ensures Join(parts, sep) == parts[0] + sep + parts[1] + sep + parts[2]
  {
    assert parts[1..][1..] == [parts[2]];
    assert Join(parts[1..][1..], sep) == parts[2];
    assert Join(parts[1..], sep) == parts[1] + sep + parts[2];
  }
}
